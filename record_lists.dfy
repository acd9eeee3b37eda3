/**
 * The list operations every slice reducer and every lookup is built from:
 * `findIndex`, `find`, replacing the entry at the found index, and
 * `filter` on the `id` field.
 */
module RecordLists {
  import opened JsValues

  /** `xs.findIndex(p)`: the first index whose element satisfies `p`, or -1. */
  function IndexWhere<T>(xs: seq<T>, p: T -> bool): (i: int)
    ensures -1 <= i < |xs|
    ensures i >= 0 ==> p(xs[i]) && forall j :: 0 <= j < i ==> !p(xs[j])
    ensures i == -1 <==> forall j :: 0 <= j < |xs| ==> !p(xs[j])
  {
    if xs == [] then -1
    else if p(xs[0]) then 0
    else
      var k := IndexWhere(xs[1..], p);
      if k < 0 then -1 else k + 1
  }

  /** The last index whose element satisfies `p`, or -1. */
  function LastIndexWhere<T>(xs: seq<T>, p: T -> bool): (i: int)
    ensures -1 <= i < |xs|
    ensures i >= 0 ==> p(xs[i]) && forall j :: i < j < |xs| ==> !p(xs[j])
    ensures i == -1 <==> forall j :: 0 <= j < |xs| ==> !p(xs[j])
    decreases |xs|
  {
    if xs == [] then -1
    else if p(xs[|xs| - 1]) then |xs| - 1
    else LastIndexWhere(xs[..|xs| - 1], p)
  }

  /** `xs.find(p)`: the first element satisfying `p`, if any. */
  function FindFirst<T>(xs: seq<T>, p: T -> bool): (r: Option<T>)
    ensures r.Some? ==> exists i :: 0 <= i < |xs| && xs[i] == r.value && p(xs[i]) && forall j :: 0 <= j < i ==> !p(xs[j])
    ensures r.None? <==> forall j :: 0 <= j < |xs| ==> !p(xs[j])
    ensures forall j :: 0 <= j < |xs| && p(xs[j]) && (forall k :: 0 <= k < j ==> !p(xs[k])) ==> r == Some(xs[j])
  {
    var i := IndexWhere(xs, p);
    if i < 0 then None else Some(xs[i])
  }

  /** `list.findIndex(x => x.id === id)`. */
  function IndexOfId(xs: seq<Record>, id: Value): (i: int)
    ensures -1 <= i < |xs|
    ensures i >= 0 ==> Get(xs[i], "id") == id && forall j :: 0 <= j < i ==> Get(xs[j], "id") != id
    ensures i == -1 <==> forall j :: 0 <= j < |xs| ==> Get(xs[j], "id") != id
  {
    IndexWhere(xs, (x: Record) => Get(x, "id") == id)
  }

  /**
   * The update reducers: `i = list.findIndex(x => x.id === rec.id); if (i !== -1) list[i] = rec`.
   * Only the first entry carrying the id is replaced; nothing else moves.
   */
  function ReplaceFirstById(xs: seq<Record>, rec: Record): (r: seq<Record>)
    ensures |r| == |xs|
    ensures forall j :: (0 <= j < |xs| && Get(xs[j], "id") == Get(rec, "id")
                         && forall k :: 0 <= k < j ==> Get(xs[k], "id") != Get(rec, "id")) ==> r[j] == rec
    ensures forall j :: 0 <= j < |xs| && r[j] != xs[j] ==>
              Get(xs[j], "id") == Get(rec, "id") && forall k :: 0 <= k < j ==> Get(xs[k], "id") != Get(rec, "id")
    ensures (forall j :: 0 <= j < |xs| ==> Get(xs[j], "id") != Get(rec, "id")) ==> r == xs
  {
    var i := IndexOfId(xs, Get(rec, "id"));
    if i < 0 then xs else xs[i := rec]
  }

  /** The delete reducers: `list.filter(x => x.id !== id)`. */
  function RemoveById(xs: seq<Record>, id: Value): (r: seq<Record>)
    ensures |r| <= |xs|
    ensures forall x {:trigger x in r} :: x in r <==> x in xs && Get(x, "id") != id
  {
    if xs == [] then []
    else if Get(xs[0], "id") == id then RemoveById(xs[1..], id)
    else [xs[0]] + RemoveById(xs[1..], id)
  }

  /** Filtering keeps the survivors in their original order: it distributes over concatenation. */
  lemma {:induction false} RemoveByIdAppend(a: seq<Record>, b: seq<Record>, id: Value)
    ensures RemoveById(a + b, id) == RemoveById(a, id) + RemoveById(b, id)
  {
    if a == [] {
      assert a + b == b;
    } else {
      var ab := a + b;
      assert ab[0] == a[0] && ab[1..] == a[1..] + b;
      RemoveByIdAppend(a[1..], b, id);
      if Get(a[0], "id") != id {
        calc {
          RemoveById(ab, id);
          [a[0]] + RemoveById(a[1..] + b, id);
          [a[0]] + (RemoveById(a[1..], id) + RemoveById(b, id));
          ([a[0]] + RemoveById(a[1..], id)) + RemoveById(b, id);
        }
      }
    }
  }

  /** Every entry without the id survives as many times as it occurred; entries with the id are gone. */
  lemma {:induction false} RemoveByIdCounts(xs: seq<Record>, id: Value, x: Record)
    ensures multiset(RemoveById(xs, id))[x] == if Get(x, "id") == id then 0 else multiset(xs)[x]
  {
    if xs != [] {
      var rest := RemoveById(xs[1..], id);
      RemoveByIdCounts(xs[1..], id, x);
      assert multiset(xs) == multiset([xs[0]]) + multiset(xs[1..]) by {
        assert xs == [xs[0]] + xs[1..];
      }
      if Get(xs[0], "id") != id {
        assert multiset(RemoveById(xs, id)) == multiset([xs[0]]) + multiset(rest) by {
          assert RemoveById(xs, id) == [xs[0]] + rest;
        }
      }
    }
  }

  /** Deleting an id nobody carries leaves the list as it was. */
  lemma {:induction false} RemoveByIdAbsent(xs: seq<Record>, id: Value)
    requires forall j :: 0 <= j < |xs| ==> Get(xs[j], "id") != id
    ensures RemoveById(xs, id) == xs
  {
    if xs != [] {
      RemoveByIdAbsent(xs[1..], id);
    }
  }
}
