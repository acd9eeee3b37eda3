# Vendor management: a verified model of the entry, payment and vendor logic

This project models, in Dafny, the business logic of a small vendor-management
application for a construction business. The application keeps three lists:

- a vendor master of subcontractors (type `SC`) and hiring services (type `HS`);
- monthly financial entries for each vendor;
- payments to vendors.

The model covers the following parts of the application:

- **The two entry-totals calculators.** From a gross amount, GST and TDS rates and a set of deductions, they derive GST, total, TDS, retention, GST hold, net total and payables. The subcontractor regime rounds every step to two decimals. The hiring regime has default rates and rounds to whole units.
- **The Redux-style slices.** Their thunks assemble the stored records, and their reducers keep each list: prepend on create, replace the first match by id on update, remove by id on delete, and toggle a payment's paid/unpaid status.
- **Vendor codes.** This covers the sequential generation of codes such as `SC_07`, and the normalisation and equivalence of codes typed in different spellings (`hs_007`, `HS-7`, `HS 7`).
- **The vendor lookup cascade of the two entry modals.** It tries a key map built from vendor code, PAN, contact and name, then exact field equality, then (monthly modal only) containment.
- **The other modal logic.** This covers the monthly modal's percent parser, its "particular" composition and preview, the payment modal's net amount, and the submit checks and payloads of both.
- **The payments page helpers.** These are the vendor-name column, the CSV row escaper (checked against a reader for section 2 of RFC 4180) and the truncation of long table cells.
- **The vendor form.** This covers the PAN, IFSC and phone validators and the required-field declarations.

## How the model is organised

| file | module | flavour |
|---|---|---|
| `strings.dfy` | `Strings` | string utilities: trimming, ASCII case mapping, `indexOf`, `split`, digits |
| `js_values.dfy` | `JsValues` | JavaScript values and their coercions (`Number`, `parseFloat`, `x \|\| d`, truthiness), `Math.round`, `round2` |
| `record_lists.dfy` | `RecordLists` | `find`, `findIndex`, and replace-first and remove-all by id |
| `sub_contractor_slice.dfy` | `SubContractorSlice` | the subcontractor calculator and its create/update merge (functions and lemmas) |
| `hiring_slice.dfy` | `HiringSlice` | the hiring calculator and its create/update merge (functions and lemmas) |
| `entry_slice.dfy` | `EntrySlice` | the entry-list state shared by both entry slices (a class) |
| `payment_page.dfy` | `PaymentPage` | vendor-code normalisation, equivalence and lookup; CSV escaping; truncation |
| `vendor_resolver.dfy` | `VendorResolver` | the vendor key map, built by a loop, and the lookup field tests |
| `monthly_entry_modal.dfy` | `MonthlyEntryModal` | the monthly-entry modal: pure parts, and a form class for its handlers |
| `payment_modal.dfy` | `PaymentModal` | the payment modal: pure parts, and a form class for its handlers |
| `payment_slice.dfy` | `PaymentSlice` | the net-amount rule, the paid toggle, the thunks and the payment-list state (a class) |
| `vendor_slice.dfy` | `VendorSlice` | vendor-code generation, `createVendor`, and the vendor-list state (a class) |
| `vendor_modal.dfy` | `VendorModal` | the validators, as anchored patterns over character classes, and the field declarations |

These conventions hold throughout the model:

- **Objects.** A JavaScript object is a `Record`: a map from keys to values. A missing key reads as `undefined`. An object spread `{...a, ...b}` is the map union `a + b`, in which the right operand wins.
- **Values.** A value is `Undefined`, `Null`, `NaN`, a string or a number. Numbers are exact reals.
- **Reducer state.** Each slice's state is a class. Its reducers are methods with `modifies` clauses, and their postconditions state the whole new state.
- **List operations.** The list operations the reducers use are functions with their own contracts.
- **Handlers.** The modal handlers that step form state through setters are methods on a form class. Each is proved against the pure function that specifies it.
- **I/O.** Ids, timestamps, today's date and the answer to the confirmation dialog are parameters.

## Model

| member | source | states |
|---|---|---|
| JsValues.Or | src/features/hiring/hiringSlice.js:7-9 | `x \|\| d` on a parsed number: NaN and 0 both give the default; any other number is the result |
| JsValues.RoundInt | src/features/hiring/hiringSlice.js:11-13 | `Math.round`: the result is a whole number within half a unit of the argument, halves rounding up |
| JsValues.Round2 | src/features/subContractor/subContractorSlice.js:20-22 | `round2`: its properties are stated by the three rows that follow |
| JsValues.Round2Spec | src/features/subContractor/subContractorSlice.js:20-22 | `round2` lands on a whole number of paise, within half a paisa of its argument |
| JsValues.Round2OfCents | src/features/subContractor/subContractorSlice.js:20-22 | an amount already in whole paise is left unchanged by `round2` |
| JsValues.Round2Idempotent | src/features/subContractor/subContractorSlice.js:20-22 | rounding twice is rounding once |
| JsValues.CentsClosed | src/features/subContractor/subContractorSlice.js:50-55 | sums and differences of amounts in whole paise are in whole paise |
| JsValues.IntegerIsCents | src/features/hiring/hiringSlice.js:11-13 | a whole number is a whole number of paise |
| JsValues.NumberInput | src/features/payments/paymentModal.jsx:108-112 | a number input stores "" exactly for empty text; otherwise it stores the parsed number, and 0 for text that is not a number |
| JsValues.NumericFieldNumber | src/features/payments/paymentModal.jsx:61-65 | a value stored by a number input always reads as a number, the empty string as 0 |
| SubContractorSlice.NormalizeRate | src/features/subContractor/subContractorSlice.js:12-19 | `normalizeRate`: a rate of 1 or more is a percentage and is divided by 100, a smaller one is a fraction; what it promises is stated by the two rows that follow |
| SubContractorSlice.ComputeTotals | src/features/subContractor/subContractorSlice.js:25-66 | the calculator on its parsed inputs; its properties are stated by the lemma rows below |
| SubContractorSlice.CalculateEntryTotals | src/features/subContractor/subContractorSlice.js:25-66 | `calculateEntryTotals`: the inputs read from the record, then the computation; stated by the lemma rows below |
| SubContractorSlice.NormalizeRateForms | src/features/subContractor/subContractorSlice.js:12-19 | a rate typed as percent `r` (1 ≤ r < 100) and as the fraction `r/100` normalise to the same fraction |
| SubContractorSlice.NormalizeRateRange | src/features/subContractor/subContractorSlice.js:12-19 | missing, empty, null, zero and unparseable rates give 0; a rate between 0 and 100 normalises into [0, 1] |
| SubContractorSlice.TotalsInWholePaise | src/features/subContractor/subContractorSlice.js:25-66 | every derived amount is in whole paise; GST, TDS and retention are within half a paisa of gross × rate, and retention of gross × 5% |
| SubContractorSlice.TotalIsGrossPlusGst | src/features/subContractor/subContractorSlice.js:32-33 | for a gross amount in whole paise, total = gross + GST exactly |
| SubContractorSlice.DeductionIdentities | src/features/subContractor/subContractorSlice.js:47-55 | with every typed deduction in whole paise, net total = total − (tds + debit + retention + GST hold + others) and payables = net total − advances − part paid, exactly |
| SubContractorSlice.RetentionInputIgnored | src/features/subContractor/subContractorSlice.js:36 | the whole result is independent of any retention the caller supplies |
| SubContractorSlice.GstHoldOutcomes | src/features/subContractor/subContractorSlice.js:40-45 | an empty, undefined or null hold holds the GST; an explicit 0 or an unparseable hold holds 0; any other hold, text or number, holds its parsed value rounded to whole paise (within half a paisa of it), so a number in whole paise is held as typed |
| SubContractorSlice.WorkedExample | src/features/subContractor/subContractorSlice.js:25-66 | gross 100000 at rates 5 and 1 with an empty hold gives GST 5000, total 105000, TDS 1000, retention 5000, hold 5000, net 94000, payables 94000 |
| SubContractorSlice.ReadEntryInputsAgree | src/features/subContractor/subContractorSlice.js:26-54 | the calculator's inputs depend only on its seven input fields |
| SubContractorSlice.InputsApartFromTotals | src/features/subContractor/subContractorSlice.js:25-65 | apart from the GST hold, which the calculator both reads and returns, no field it reads is one it returns |
| SubContractorSlice.CreatedEntry | src/features/subContractor/subContractorSlice.js:88-108 | the entry the create thunk stores: id, type "SC", the entry data, and the totals spread last; recomputing from it changes nothing (`SubContractorSlice.StoredTotalsAreFixpoint`) |
| SubContractorSlice.UpdatedEntry | src/features/subContractor/subContractorSlice.js:110-127 | the entry the update thunk stores: its id, the rest of the payload, and the totals recomputed from that rest |
| SubContractorSlice.SettledHoldIsFixed | src/features/subContractor/subContractorSlice.js:40-45 | feeding the settled GST hold back in as a typed hold reproduces the same totals |
| SubContractorSlice.RecomputeStored | src/features/subContractor/subContractorSlice.js:94-101 | recomputing from a record that carries the inputs followed by their totals gives those totals again |
| SubContractorSlice.GetAfterTotals | src/features/subContractor/subContractorSlice.js:94-101 | merging the totals leaves every field that is not a derived one as it was |
| SubContractorSlice.MergeTotalsTwice | src/features/subContractor/subContractorSlice.js:94-101 | merging the same totals twice is merging them once |
| SubContractorSlice.TypedHoldOfNumber | src/features/subContractor/subContractorSlice.js:40-45 | a numeric GST hold is read as typed |
| SubContractorSlice.ComputeTotalsHoldFixed | src/features/subContractor/subContractorSlice.js:40-45 | a typed hold that rounds to the hold the calculator settled on gives the same totals |
| SubContractorSlice.StoredTotalsAreFixpoint | src/features/subContractor/subContractorSlice.js:94-101 | a stored entry's derived fields equal a recomputation from the stored entry, whatever derived values the caller passed; merging that recomputation changes nothing |
| SubContractorSlice.CreatedEntryConsistent | src/features/subContractor/subContractorSlice.js:88-108 | the created entry's totals are those of the entry data, are reproduced by a recomputation, and its payables are the calculated payables |
| SubContractorSlice.UpdatedEntryConsistent | src/features/subContractor/subContractorSlice.js:110-127 | the updated entry keeps the id and stores totals that a recomputation from it reproduces |
| HiringSlice.ComputeHiringTotals | src/features/hiring/hiringSlice.js:6-35 | the hiring calculator on its parsed inputs; its properties are stated by the lemma rows below |
| HiringSlice.CalculateHiringEntryTotals | src/features/hiring/hiringSlice.js:6-35 | `calculateHiringEntryTotals`: the inputs read from the record, then the computation; stated by the lemma rows below |
| HiringSlice.HiringRateDefaults | src/features/hiring/hiringSlice.js:8-9 | a rate that parses to NaN or 0 (an explicit 0 included) becomes 0.18 for GST and 0.02 for TDS; any other is taken as parsed |
| HiringSlice.HiringTotalsShape | src/features/hiring/hiringSlice.js:11-25 | GST and TDS are whole units within half a unit of gross × rate; total = gross + GST unrounded; retention passes through; payables = gross + GST − every deduction − advances − part paid |
| HiringSlice.HiringHoldFallsBack | src/features/hiring/hiringSlice.js:17-21 | a hold that is missing, empty, unparseable or 0 deducts the GST itself; a non-zero number is deducted as typed |
| HiringSlice.ZeroRateContrast | src/features/hiring/hiringSlice.js:8-11 | at an explicit GST rate of 0 the subcontractor calculator charges no GST, while the hiring calculator charges 18% |
| HiringSlice.SubContractorZeroRate | src/features/subContractor/subContractorSlice.js:12-19 | at an explicit GST rate of 0 the subcontractor calculator charges no GST |
| HiringSlice.HiringZeroRate | src/features/hiring/hiringSlice.js:8-11 | at an explicit GST rate of 0 the hiring calculator charges GST at 18% of the gross amount, rounded to a whole unit |
| HiringSlice.HiringWorkedExample | src/features/hiring/hiringSlice.js:6-35 | gross 50000 at rates 0.18 and 0.02, every other field empty, gives GST 9000, total 59000, TDS 1000, retention 0, net 49000, payables 49000 |
| HiringSlice.HiringTotalsRecord | src/features/hiring/hiringSlice.js:27-34 | the returned fields are exactly GST, total, TDS, retention, net total and payables; there is no `gst_hold` |
| HiringSlice.HiringInputsApartFromTotals | src/features/hiring/hiringSlice.js:6-34 | apart from retention, no field the calculator reads is one it returns |
| HiringSlice.ReadHiringInputsAgree | src/features/hiring/hiringSlice.js:7-24 | the result depends only on the input fields and the parsed retention |
| HiringSlice.HiringRecomputeStored | src/features/hiring/hiringSlice.js:62-69 | recomputing from a record that carries the inputs followed by their totals gives those totals again; the stored retention reads back as itself |
| HiringSlice.MergeHiringTotalsTwice | src/features/hiring/hiringSlice.js:62-69 | merging the same totals twice is merging them once |
| HiringSlice.BaseKeysAreNotInputs | src/features/hiring/hiringSlice.js:62-69 | the id and the type the thunk sets are not inputs of the calculator |
| HiringSlice.CreatedHiringEntryConsistent | src/features/hiring/hiringSlice.js:56-76 | the created entry has type HS unless the data says otherwise; its stored totals are reproduced by a recomputation; no `gst_hold` is added |
| HiringSlice.UpdatedHiringEntryConsistent | src/features/hiring/hiringSlice.js:78-95 | the updated entry keeps the id and stores totals that a recomputation from it reproduces |
| EntrySlice.EntriesForPeriod | src/features/subContractor/subContractorSlice.js:76-79 | the fetched entries are exactly the entries of the type, year and month, and no more than there are |
| EntrySlice.EntriesForPeriodAppend | src/features/subContractor/subContractorSlice.js:76-79 | the filter keeps the stored order: the entries of two lists laid end to end are the entries of the first followed by those of the second |
| EntrySlice.EntryState.constructor | src/features/subContractor/subContractorSlice.js:141-147 | no entries, not loading, no error, period July 2025 |
| EntrySlice.EntryState.SetSelectedPeriod | src/features/subContractor/subContractorSlice.js:153-156 | year and month are set from the payload; nothing else changes |
| EntrySlice.EntryState.ClearError | src/features/hiring/hiringSlice.js:125-127 | the error is cleared; nothing else changes |
| EntrySlice.EntryState.FetchPending | src/features/subContractor/subContractorSlice.js:163-166 | loading is set and the error cleared; entries and period are kept |
| EntrySlice.EntryState.FetchFulfilled | src/features/subContractor/subContractorSlice.js:167-170 | loading is cleared and the entries replaced; the error is kept |
| EntrySlice.EntryState.FetchRejected | src/features/hiring/hiringSlice.js:139-142 | loading is cleared and the error stored; the entries are kept |
| EntrySlice.EntryState.CreateFulfilled | src/features/subContractor/subContractorSlice.js:176-178 | exactly one entry is added, at the front |
| EntrySlice.EntryState.UpdateFulfilled | src/features/hiring/hiringSlice.js:148-155 | only the first entry with the id is replaced; the length is unchanged; an unknown id changes nothing |
| EntrySlice.EntryState.DeleteFulfilled | src/features/subContractor/subContractorSlice.js:187-189 | every entry with the id goes; an entry stays exactly when it was there with another id |
| RecordLists.ReplaceFirstById | src/features/payments/paymentSlice.js:126-134 | the first element with the id is replaced and every other element kept; a missing id changes nothing |
| RecordLists.IndexOfId | src/features/payments/paymentSlice.js:127 | `findIndex` by id: -1 exactly when no element has the id, otherwise the first element that has it |
| RecordLists.RemoveById | src/features/vendorMaster/VendorSlice.js:135-137 | the result keeps, in order, exactly the elements with another id |
| RecordLists.RemoveByIdCounts | src/features/payments/paymentSlice.js:136-138 | every element with another id keeps its number of occurrences, and none with the id remains |
| RecordLists.RemoveByIdAppend | src/features/vendorMaster/VendorSlice.js:135-137 | the filter of two lists laid end to end is the filter of each |
| RecordLists.RemoveByIdAbsent | src/features/payments/paymentSlice.js:136-138 | deleting an id no element has changes nothing |
| PaymentPage.SplitRuns | src/features/payments/payment.jsx:29 | `split(/[_\s-]+/)`: at least one piece, no piece holds a separator, and a string without separators is its own single piece; which pieces they are is stated by `PaymentPage.SplitRunsCons` and `PaymentPage.ConcatSplitRuns` |
| PaymentPage.SplitRunsCons | src/features/payments/payment.jsx:29 | a first word, a whole run of separators and the rest split into that word followed by the pieces of the rest |
| PaymentPage.ConcatSplitRuns | src/features/payments/payment.jsx:29-32 | the pieces of the split joined with "" are the text with every separator removed |
| PaymentPage.KeepDigitsRemoveSeps | src/features/payments/payment.jsx:32-33 | removing separators keeps every digit, so the digits of the joined pieces are the digits of the text after the first word |
| PaymentPage.SplitRunsTwoWords | src/features/payments/payment.jsx:29 | two words around one separator split into exactly those two words |
| PaymentPage.NoSepNoUnderscore | src/features/payments/payment.jsx:29 | a piece of the split never holds '_' |
| PaymentPage.NormalizeVendorCode | src/features/payments/payment.jsx:26-35 | `normalizeVendorCode`: "" for an empty code; otherwise the trimmed code split on runs of separators. A single piece is uppercased whole. Otherwise the uppercased first piece, "_", and the number spelt by the digits of all the other pieces joined, or, without digits, those pieces joined with their case kept. Stated by the rows that follow |
| PaymentPage.NormalizeSingleWord | src/features/payments/payment.jsx:28-30 | a code without separators normalises to its trimmed text, uppercased |
| PaymentPage.NormalizeSplitCode | src/features/payments/payment.jsx:26-35 | for a trimmed code made of a first word, a run of separators and a rest: the uppercased word, "_", and the number spelt by every digit of the rest, or, when the rest has no digit, the rest without its separators and with its case kept |
| PaymentPage.NormalizeSeparatorRun | src/features/payments/payment.jsx:26-35 | "HS - 07" normalises to "HS_7" |
| PaymentPage.NormalizeRawRest | src/features/payments/payment.jsx:26-35 | "hs_abc" normalises to "HS_abc": only the prefix is uppercased |
| PaymentPage.NormalizeLaterPieces | src/features/payments/payment.jsx:26-35 | "a_b_3" normalises to "A_3": the number comes from every piece after the first |
| PaymentPage.CodeFormWellFormed | src/features/payments/payment.jsx:26-35 | a normalised code has one underscore at most, the one the template adds, and a raw remainder holds no digit |
| PaymentPage.RenderedParts | src/features/payments/payment.jsx:41-42 | splitting a normalised code on '_' gives back its prefix and then its number or its raw rest |
| PaymentPage.NormalizeNumbered | src/features/payments/payment.jsx:29-34 | "prefix", one separator and digits normalise to the uppercased prefix, "_", and the number the digits spell |
| PaymentPage.NormalizeExamples | src/features/payments/payment.jsx:26-35 | "hs_007", "HS-7", "HS 7" and "HS_07" all normalise to "HS_7" |
| PaymentPage.NormalizeExample | src/features/payments/payment.jsx:26-35 | a prefix, one separator and "7", "07" or "007" normalise to the uppercased prefix and "_7" |
| PaymentPage.NormalizeOtherPrefix | src/features/payments/payment.jsx:26-35 | "SC_07" normalises to "SC_7" |
| PaymentPage.TailNumberOfForm | src/features/payments/payment.jsx:41-46 | only a numbered code has a numeric tail after "_", and it is the code's number |
| PaymentPage.SameNormalizedForms | src/features/payments/payment.jsx:41-48 | on normalised codes, the prefix, tail and whole-string comparison is plain string equality |
| PaymentPage.SameVendorCode | src/features/payments/payment.jsx:37-49 | `sameVendorCode`: false when either code is empty; otherwise the normalised codes split on "_" must share their first part, and then single parts compare whole, two numeric tails compare as numbers, and anything else compares the normalised strings; stated by the rows that follow |
| PaymentPage.SameVendorCodeIff | src/features/payments/payment.jsx:37-49 | two codes are the same vendor code exactly when both are non-empty and they normalise to the same string |
| PaymentPage.SameVendorCodeEmpty | src/features/payments/payment.jsx:38 | an empty code on either side is never the same vendor code |
| PaymentPage.SameVendorCodeReflexive | src/features/payments/payment.jsx:37-49 | every non-empty code is the same vendor code as itself |
| PaymentPage.SameVendorCodeSymmetric | src/features/payments/payment.jsx:37-49 | the comparison is symmetric |
| PaymentPage.SameVendorCodeTransitive | src/features/payments/payment.jsx:37-49 | the comparison is transitive |
| PaymentPage.SameVendorCodeExamples | src/features/payments/payment.jsx:43-47 | "HS_07" and "HS-7" are the same vendor code; "HS_07" and "SC_07" are not, because their prefixes differ |
| PaymentPage.FindVendorByCode | src/features/payments/payment.jsx:51-61 | `findVendorByCode`: an exact match first, then an equivalent code; stated by the rows that follow |
| PaymentPage.FindVendorByCodeSpec | src/features/payments/payment.jsx:51-61 | no code or no vendors gives no vendor; no vendor is found exactly when none matches exactly or by equivalence |
| PaymentPage.FindVendorExactFirst | src/features/payments/payment.jsx:53-59 | the first exact (trimmed, case-blind) match wins, even over an earlier vendor that only matches by equivalence |
| PaymentPage.FindVendorEquivalentFirst | src/features/payments/payment.jsx:59-60 | without an exact match, the first vendor with an equivalent code is returned |
| PaymentPage.GetVendorName | src/features/payments/payment.jsx:117-123 | the name of the vendor found when it has one; the code itself when no vendor matches or the vendor found has no name |
| PaymentPage.EscapeCell | src/features/payments/payment.jsx:68-75 | null and undefined give ""; a cell is quoted exactly when it holds a comma, a quote, CR or LF; other cells are kept as they are |
| PaymentPage.DoubleQuotes | src/features/payments/payment.jsx:73 | a text without quotes is unchanged, and the result is never shorter |
| PaymentPage.ParseQuotedDoubled | src/features/payments/payment.jsx:73-74 | the doubled-quote text followed by a closing quote reads back as the original text |
| PaymentPage.ParseEscapedCell | src/features/payments/payment.jsx:68-75 | an escaped cell followed by a comma or the end reads back, as an RFC 4180 field, as the cell's text |
| PaymentPage.ToCsvRow | src/features/payments/payment.jsx:66-76 | `toCsvRow`: the escaped cells joined by commas; read back by the row that follows |
| PaymentPage.CsvRowRoundTrip | src/features/payments/payment.jsx:66-76 | reading the exported row as an RFC 4180 record gives back every cell, with null and undefined as "" |
| PaymentPage.TruncateForDisplay | src/features/payments/payment.jsx:214-218 | the truncation inside `renderWithTooltip`; stated by the row that follows |
| PaymentPage.TruncateForDisplaySpec | src/features/payments/payment.jsx:214-218 | a string up to `maxLen` is shown unchanged; a longer one becomes its first `maxLen − 3` characters and "...", `maxLen` characters in all |
| VendorResolver.AddVendorKeysSpec | src/features/subContractor/MonthlyEntryModal.jsx:59-68 | one vendor's step adds exactly the keys it owns, all pointing at it, and keeps every other entry |
| VendorResolver.BuildVendorMap | src/features/payments/paymentModal.jsx:17-26 | the `forEach` loop builds exactly the key map of the vendor list |
| VendorResolver.VendorKeyMap | src/features/subContractor/MonthlyEntryModal.jsx:59-68 | the `vendorMap` memo: each vendor's code, PAN, contact number and name, upper-cased, a later vendor overwriting an earlier one; stated by the two rows that follow |
| VendorResolver.VendorKeyMapLastOwner | src/features/subContractor/MonthlyEntryModal.jsx:59-68 | a key is in the map exactly when some vendor owns it, and it maps to the last such vendor in list order |
| VendorResolver.VendorKeyMapValues | src/features/subContractor/MonthlyEntryModal.jsx:59-68 | every vendor in the map is one of the list and owns its key |
| VendorResolver.ExactFallbackUnreachable | src/features/subContractor/MonthlyEntryModal.jsx:195-204 | after a map miss, the exact-equality step can never find a vendor |
| VendorResolver.LowerFieldTestIsOwnsKey | src/features/payments/paymentModal.jsx:83-89 | lowercased equality of a field with the input is uppercased equality with the key |
| VendorResolver.LowerFallbackUnreachable | src/features/payments/paymentModal.jsx:82-90 | after a map miss, the payment modal's lowercased fallback never finds a vendor either |
| MonthlyEntryModal.ParsePercentInput | src/features/subContractor/MonthlyEntryModal.jsx:25-32 | the result is "" or a number; "", null, undefined and NaN give ""; a number is kept |
| MonthlyEntryModal.StripPercentJunk | src/features/subContractor/MonthlyEntryModal.jsx:27-29 | no comma, blank or percent sign is left, the text never grows, and a single character is dropped exactly when it is one of those |
| MonthlyEntryModal.StripPercentJunkAppend | src/features/subContractor/MonthlyEntryModal.jsx:27-29 | the strip is a filter: stripping two texts laid end to end is stripping each, so every other character is kept, in order |
| MonthlyEntryModal.StripAllJunk | src/features/subContractor/MonthlyEntryModal.jsx:27-29 | text made only of commas, blanks and percent signs strips to nothing |
| MonthlyEntryModal.StripNoJunk | src/features/subContractor/MonthlyEntryModal.jsx:27-29 | text without commas, blanks or percent signs is left as it is |
| MonthlyEntryModal.StripIgnoresTrim | src/features/subContractor/MonthlyEntryModal.jsx:26-29 | trimming before the strip changes nothing |
| MonthlyEntryModal.ParsePercentText | src/features/subContractor/MonthlyEntryModal.jsx:25-32 | non-empty text that strips to nothing reads as 0; one whose stripped text is a decimal reads as that decimal; any other reads as "" |
| MonthlyEntryModal.ParsePercentNoDigit | src/features/subContractor/MonthlyEntryModal.jsx:25-32 | text that keeps something after the strip but no digit reads as "" |
| MonthlyEntryModal.ParsePercentInputIdempotent | src/features/subContractor/MonthlyEntryModal.jsx:25-32 | parsing an already parsed value changes nothing |
| MonthlyEntryModal.ParsePercentOfDigits | src/features/subContractor/MonthlyEntryModal.jsx:25-32 | text whose characters, apart from commas, blanks and percent signs anywhere in it, are digits reads as the number those digits spell |
| MonthlyEntryModal.ParsePercentFive | src/features/subContractor/MonthlyEntryModal.jsx:25-32 | "5%" reads as 5 |
| MonthlyEntryModal.ParsePercentThousand | src/features/subContractor/MonthlyEntryModal.jsx:25-32 | "1,000" reads as 1000 |
| MonthlyEntryModal.ParsePercentSpacedFraction | src/features/subContractor/MonthlyEntryModal.jsx:25-32 | " 12.5 %" reads as 12.5 |
| MonthlyEntryModal.ResolveMonthly | src/features/subContractor/MonthlyEntryModal.jsx:185-216 | the lookup does nothing exactly when the trimmed input is blank |
| MonthlyEntryModal.ResolveMonthlySpec | src/features/subContractor/MonthlyEntryModal.jsx:185-216 | with the map built from the list, it finds the last vendor owning the key; without one, it finds the first vendor with a field containing the input; any vendor found is one of the list |
| MonthlyEntryModal.ContainsNeedsLongerField | src/features/subContractor/MonthlyEntryModal.jsx:206-216 | containment goes one way: a vendor whose fields are all shorter than the input never matches |
| MonthlyEntryModal.Joined | src/features/subContractor/MonthlyEntryModal.jsx:304-310 | the joined particular starts with the work type, and is the work type alone when the narration is empty |
| MonthlyEntryModal.NarrationOf | src/features/subContractor/MonthlyEntryModal.jsx:264-298 | the narration kept from the typed particular is always trimmed |
| MonthlyEntryModal.Preview | src/features/subContractor/MonthlyEntryModal.jsx:138-176 | there are no calculated values exactly when the gross amount is empty |
| MonthlyEntryModal.NormalizeNumericField | src/features/subContractor/MonthlyEntryModal.jsx:138-160 | a value stored by a number or percent input reaches the calculator unchanged, except that deduction fields and the hold read a blank as 0 |
| MonthlyEntryModal.PreviewHoldIsZero | src/features/subContractor/MonthlyEntryModal.jsx:138-160 | with an empty GST hold the preview holds 0, not the GST |
| MonthlyEntryModal.SavedEntryHoldIsZero | src/features/subContractor/MonthlyEntryModal.jsx:312-334 | with an empty GST hold the submitted payload carries a hold of 0, and the entry the create thunk stores from it holds 0 too |
| MonthlyEntryModal.CalculatedValues | src/features/subContractor/MonthlyEntryModal.jsx:138-176 | the preview's totals as the object the payload spreads, `{}` without a gross amount; stated by the row that follows |
| MonthlyEntryModal.CalculatedValuesKeys | src/features/subContractor/MonthlyEntryModal.jsx:138-176 | the calculated values hold only derived fields, and all of them once the gross amount is filled in |
| MonthlyEntryModal.SubmitMonthly | src/features/subContractor/MonthlyEntryModal.jsx:312-334 | `handleSubmit`'s checks and payload; stated by the two rows that follow |
| MonthlyEntryModal.SubmitMonthlyOrder | src/features/subContractor/MonthlyEntryModal.jsx:315-326 | submit rejects in this order: no vendor, empty gross, empty particular; otherwise it saves |
| MonthlyEntryModal.SubmitMonthlyPayload | src/features/subContractor/MonthlyEntryModal.jsx:328-334 | the payload carries the combined particular and the vendor's own code, and every calculated value overrides the form field of the same name |
| MonthlyEntryModal.MonthlyEntryForm.constructor | src/features/subContractor/MonthlyEntryModal.jsx:59-68 | the form starts with no vendor selected and the vendor map built from the list |
| MonthlyEntryModal.MonthlyEntryForm.HandleVendorKeyDown | src/features/subContractor/MonthlyEntryModal.jsx:185-234 | blank input changes nothing. A found vendor is selected and its work type fetched; for a new entry the particular becomes the work type and the narration is cleared, and when editing the form is untouched. No vendor clears the selection and reports it |
| MonthlyEntryModal.MonthlyEntryForm.ApplyLookup | src/features/subContractor/MonthlyEntryModal.jsx:218-230 | the state changes for each lookup outcome, as above |
| MonthlyEntryModal.MonthlyEntryForm.HandleNumberChange | src/features/subContractor/MonthlyEntryModal.jsx:241-248 | only the field changes, to the number-input reading of the text |
| MonthlyEntryModal.MonthlyEntryForm.HandlePercentChange | src/features/subContractor/MonthlyEntryModal.jsx:250-256 | only the field changes, to the percent parser's reading of the text, "" or a number |
| MonthlyEntryModal.MonthlyEntryForm.HandleParticularChange | src/features/subContractor/MonthlyEntryModal.jsx:264-301 | with a vendor and a work type, the particular is the work type joined with a trimmed narration and always starts with the work type; without, the raw text is stored and narration and work type are cleared; the combined particular equals the stored one |
| MonthlyEntryModal.MonthlyEntryForm.CombinedParticular | src/features/subContractor/MonthlyEntryModal.jsx:304-310 | the `combinedParticular` memo: the work type joined with the trimmed narration when there is a vendor and a work type, else the stored particular; see `MonthlyEntryModal.Joined` |
| MonthlyEntryModal.MonthlyEntryForm.HandleSubmit | src/features/subContractor/MonthlyEntryModal.jsx:312-334 | the outcome is the submit function on the current form; only a missing vendor sets the lookup error |
| PaymentModal.ResolvePayment | src/features/payments/paymentModal.jsx:73-90 | the lookup does nothing exactly when the trimmed input is blank |
| PaymentModal.ResolvePaymentSpec | src/features/payments/paymentModal.jsx:73-90 | with the map built from the list, it finds exactly the last vendor owning the key, and nothing when no vendor owns it |
| PaymentModal.ModalsAgreeOnFound | src/features/payments/paymentModal.jsx:73-90 | whatever the payment modal finds, the monthly modal finds too |
| PaymentModal.AutoFill | src/features/payments/paymentModal.jsx:95-98 | site and requester come from the vendor's site and contact person when those are truthy; every other field is kept |
| PaymentModal.NegativeNetIffConfirm | src/features/payments/paymentModal.jsx:61-65 | with amounts from the number inputs, the net amount is negative exactly when submit asks to confirm the advance |
| PaymentModal.NetAmountExamples | src/features/payments/paymentModal.jsx:61-65 | 20000 − 5000 = 15000 without warning; 20000 − 25000 = −5000 with the warning |
| PaymentModal.PaymentPayload | src/features/payments/paymentModal.jsx:142-150 | the payload has the vendor's id; its code, else the typed code; the amount as a number; advance defaulting to 0; the calculated net amount; status defaulting to 'unpaid'; every other form field as typed |
| PaymentModal.SubmitPayment | src/features/payments/paymentModal.jsx:119-160 | `handleSubmit` of the payment modal: its checks and payload; stated by the rows that follow |
| PaymentModal.SubmitPaymentOrder | src/features/payments/paymentModal.jsx:122-140 | submit rejects in this order: no vendor, empty amount, empty narration, then an unconfirmed advance above the amount |
| PaymentModal.SavedPaymentKeepsNetAmount | src/features/payments/paymentModal.jsx:142-150 | a saved payload reaches the slice with its net amount intact, so the stored net amount is the one shown |
| PaymentModal.PaymentForm.constructor | src/features/payments/paymentModal.jsx:33-59 | the defaults under the initial data; a preset vendor code selects the vendor the map holds for it, or reports none found |
| PaymentModal.PaymentForm.HandleVendorKeyDown | src/features/payments/paymentModal.jsx:73-104 | blank input changes nothing. A found vendor is selected; for a new payment, site and requester are filled from it, and when editing the form is untouched. No vendor clears the selection and reports it |
| PaymentModal.PaymentForm.ApplyLookup | src/features/payments/paymentModal.jsx:92-102 | the state changes for each lookup outcome, as above |
| PaymentModal.PaymentForm.HandleNumberChange | src/features/payments/paymentModal.jsx:108-112 | only the field changes, to the number-input reading of the text |
| PaymentModal.PaymentForm.HandleSubmit | src/features/payments/paymentModal.jsx:119-150 | the outcome is the submit function on the current form, and a saved net amount is the one shown; only a missing vendor sets the lookup error |
| PaymentSlice.NetAmount | src/features/payments/paymentSlice.js:96-101 | actual − advance when both are numbers; an amount that is not a number counts as 0 |
| PaymentSlice.StoredNetAmount | src/features/payments/paymentSlice.js:119-122 | a supplied net amount is read as a number; a null or undefined one becomes actual − advance, each amount read as its number when truthy and as 0 when falsy, and NaN when a truthy amount is not a number |
| PaymentSlice.WithNetAmount | src/features/payments/paymentSlice.js:118-124 | the stored payment adds only `netAmount`, keeps every other field, and its net amount is the stored one |
| PaymentSlice.WithNetAmountIdempotent | src/features/payments/paymentSlice.js:126-134 | filling in the net amount a second time changes nothing |
| PaymentSlice.WithNetAmountKeepsNumber | src/features/payments/paymentSlice.js:118-124 | a payment that already carries a numeric net amount is stored as it is |
| PaymentSlice.NextStatus | src/features/payments/paymentSlice.js:74 | the new status is 'paid' or 'unpaid', and 'unpaid' exactly when it was 'paid' |
| PaymentSlice.StatusOf | src/features/payments/paymentSlice.js:73-74 | undefined when no payment has the id; otherwise the status of a payment with the id that no earlier payment shares |
| PaymentSlice.MarkPaidResult | src/features/payments/paymentSlice.js:68-80 | the result carries the id and the toggled status; a missing payment gets 'paid' |
| PaymentSlice.NextStatusTwice | src/features/payments/paymentSlice.js:74 | toggling twice restores a 'paid' or 'unpaid' status |
| PaymentSlice.MarkStatus | src/features/payments/paymentSlice.js:140-146 | only the first payment with the id changes, and only its status and `updatedAt`; a missing id changes nothing |
| PaymentSlice.MarkPaidTwiceRestores | src/features/payments/paymentSlice.js:68-146 | marking a payment twice, thunk and reducer each time, restores its status and leaves every other payment alone |
| PaymentSlice.CreatedPayment | src/features/payments/paymentSlice.js:23-28 | the new payment has the payment data, the generated id unless the data has one, and both timestamps set |
| PaymentSlice.UpdatedPayment | src/features/payments/paymentSlice.js:43-47 | the updated payment keeps the id and every field, with `updatedAt` set |
| PaymentSlice.PaymentState.constructor | src/features/payments/paymentSlice.js:82-87 | no payments, not loading, no error, net amount 0 |
| PaymentSlice.PaymentState.ClearError | src/features/payments/paymentSlice.js:93-95 | the error is cleared; nothing else changes |
| PaymentSlice.PaymentState.CalculateNetAmount | src/features/payments/paymentSlice.js:96-101 | the net amount becomes actual − advance, each that is not a number counting as 0; nothing else changes |
| PaymentSlice.PaymentState.FetchPending | src/features/payments/paymentSlice.js:105-108 | loading is set and the error cleared; the list is kept |
| PaymentSlice.PaymentState.FetchFulfilled | src/features/payments/paymentSlice.js:109-112 | loading is cleared and the list replaced |
| PaymentSlice.PaymentState.FetchRejected | src/features/payments/paymentSlice.js:113-116 | loading is cleared and the error stored; the list is kept |
| PaymentSlice.PaymentState.CreateFulfilled | src/features/payments/paymentSlice.js:118-124 | the payment, with its net amount filled in, goes to the front |
| PaymentSlice.PaymentState.UpdateFulfilled | src/features/payments/paymentSlice.js:126-134 | only the first payment with the id is replaced, with its net amount filled in; the length is kept |
| PaymentSlice.PaymentState.DeleteFulfilled | src/features/payments/paymentSlice.js:136-138 | every payment with the id goes; the rest stay in order |
| PaymentSlice.PaymentState.MarkPaidFulfilled | src/features/payments/paymentSlice.js:140-146 | the first payment with the id gets the new status and `updatedAt`; nothing else changes |
| VendorSlice.LeadingDigits | src/features/vendorMaster/VendorSlice.js:9 | the longest prefix of digits |
| VendorSlice.LeadingDigitsAll | src/features/vendorMaster/VendorSlice.js:9 | a digit string is its own leading-digit prefix |
| VendorSlice.ParseDigits | src/features/vendorMaster/VendorSlice.js:9 | a number exactly when the text starts with a digit, and never negative |
| VendorSlice.ParseIntOfDigits | src/features/vendorMaster/VendorSlice.js:9 | `parseInt` reads a digit string, signed or not, as the number it spells |
| VendorSlice.ParseNegatedNat | src/features/vendorMaster/VendorSlice.js:9 | "-" followed by the digits of a number reads back as its negative |
| VendorSlice.PadNumber | src/features/vendorMaster/VendorSlice.js:13 | the padded number has at least two characters and no underscore |
| VendorSlice.IntToString | src/features/vendorMaster/VendorSlice.js:13 | the decimal text of a number is never empty and holds no underscore |
| VendorSlice.PadNumberExamples | src/features/vendorMaster/VendorSlice.js:13 | 7 is padded to "07" and 100 stays "100" |
| VendorSlice.ParsePadNumber | src/features/vendorMaster/VendorSlice.js:9-13 | the padded number reads back as the number |
| VendorSlice.ParsePadDigit | src/features/vendorMaster/VendorSlice.js:9-13 | a one-digit number padded with a zero reads back as itself |
| VendorSlice.ParsePadNegative | src/features/vendorMaster/VendorSlice.js:9-13 | a negative number, padded, reads back as itself |
| VendorSlice.SuffixesMembers | src/features/vendorMaster/VendorSlice.js:7-9 | the suffixes are exactly the numeric suffixes of the codes of vendors of the type |
| VendorSlice.SuffixesAppend | src/features/vendorMaster/VendorSlice.js:7-9 | the suffixes of two lists laid end to end are the suffixes of each |
| VendorSlice.NoSuffixesOfType | src/features/vendorMaster/VendorSlice.js:7-9 | without vendors of the type there is no suffix |
| VendorSlice.SuffixesSkipOther | src/features/vendorMaster/VendorSlice.js:8 | a vendor of another type contributes no suffix |
| VendorSlice.MaxOf | src/features/vendorMaster/VendorSlice.js:10-12 | the head of the descending sort: a member of the list no smaller than any other |
| VendorSlice.NextOf | src/features/vendorMaster/VendorSlice.js:10-12 | 1 for no suffixes; otherwise one more than one of them, and above every one |
| VendorSlice.NextNumber | src/features/vendorMaster/VendorSlice.js:7-12 | 1 when the type has no suffix; otherwise one more than the largest suffix, and above every one |
| VendorSlice.GenerateVendorCode | src/features/vendorMaster/VendorSlice.js:13 | the code is the type, "_", and then the padded number |
| VendorSlice.FirstCodeOfType | src/features/vendorMaster/VendorSlice.js:12-13 | without vendors of the type, the code is `TYPE_01` |
| VendorSlice.GeneratedSuffix | src/features/vendorMaster/VendorSlice.js:9-13 | the generated code's suffix reads back as the number it was made from |
| VendorSlice.GeneratedCodeFresh | src/features/vendorMaster/VendorSlice.js:7-13 | no vendor of the type already has the generated code; the source keeps this only while every code of the type has a numeric suffix |
| VendorSlice.OtherTypesIgnored | src/features/vendorMaster/VendorSlice.js:8 | vendors of other types, wherever they sit, do not change the generated code |
| VendorSlice.NewVendorRecord | src/features/vendorMaster/VendorSlice.js:42-46 | the new vendor has the vendor data's fields as given, and the generated id and code only where the data has none |
| VendorSlice.CreatedVendor | src/features/vendorMaster/VendorSlice.js:30-53 | the `createVendor` thunk's record: the generated id and code where the data has none; stated by the row that follows |
| VendorSlice.CreatedVendorCodeFresh | src/features/vendorMaster/VendorSlice.js:30-53 | without a code of its own, a created vendor gets a code no vendor of its type has, as long as every code of the type has a numeric suffix |
| VendorSlice.VendorState.constructor | src/features/vendorMaster/VendorSlice.js:82-86 | no vendors, not loading, no error |
| VendorSlice.VendorState.ClearError | src/features/vendorMaster/VendorSlice.js:92-94 | the error is cleared; nothing else changes |
| VendorSlice.VendorState.Pending | src/features/vendorMaster/VendorSlice.js:99-102 | loading is set and the error cleared; the list is kept |
| VendorSlice.VendorState.Rejected | src/features/vendorMaster/VendorSlice.js:121-124 | loading is cleared and the error stored; the list is kept |
| VendorSlice.VendorState.FetchFulfilled | src/features/vendorMaster/VendorSlice.js:103-106 | loading is cleared and the list replaced |
| VendorSlice.VendorState.CreateFulfilled | src/features/vendorMaster/VendorSlice.js:117-120 | loading is cleared and the vendor goes to the front |
| VendorSlice.VendorState.UpdateFulfilled | src/features/vendorMaster/VendorSlice.js:127-132 | only the first vendor with the id is replaced; the length is kept; nothing else changes |
| VendorSlice.VendorState.DeleteFulfilled | src/features/vendorMaster/VendorSlice.js:135-137 | every vendor with the id goes; the rest stay in order |
| VendorModal.FixedPiece | src/features/vendorMaster/VendorModal.jsx:35 | a piece with a fixed count takes exactly that many characters |
| VendorModal.LastPiece | src/features/vendorMaster/VendorModal.jsx:63 | a last piece matches exactly the strings of its class whose length is in range |
| VendorModal.OptionalThenLast | src/features/vendorMaster/VendorModal.jsx:63 | an optional piece followed by a last piece takes one character of its class or none |
| VendorModal.PanPatternIff | src/features/vendorMaster/VendorModal.jsx:35 | the PAN pattern matches exactly five capital letters, four digits and a capital letter |
| VendorModal.IfscPatternIff | src/features/vendorMaster/VendorModal.jsx:51 | the IFSC pattern matches exactly four capital letters, a literal '0', and six capital letters or digits |
| VendorModal.PhoneClassIff | src/features/vendorMaster/VendorModal.jsx:63 | the phone class holds exactly digits, blanks, '-', '(' and ')' |
| VendorModal.AllInPhone | src/features/vendorMaster/VendorModal.jsx:63 | a string is drawn from the phone class exactly when each character is a phone character |
| VendorModal.PhonePatternIff | src/features/vendorMaster/VendorModal.jsx:63 | the phone pattern matches exactly an optional '+' and then 10 to 15 digits, blanks, hyphens or parentheses |
| VendorModal.Check | src/features/vendorMaster/VendorModal.jsx:34-67 | a validator accepts exactly the empty value and matching values; a rejection carries its message |
| VendorModal.ValidatePanSpec | src/features/vendorMaster/VendorModal.jsx:34-40 | the PAN validator accepts exactly the empty value and PAN-shaped values, and otherwise gives its fixed message |
| VendorModal.ValidateIfscSpec | src/features/vendorMaster/VendorModal.jsx:50-55 | the IFSC validator accepts exactly the empty value and IFSC-shaped values, and otherwise gives its fixed message |
| VendorModal.ValidatePhoneSpec | src/features/vendorMaster/VendorModal.jsx:62-67 | the phone validator accepts exactly the empty value and phone-shaped values, and otherwise gives its fixed message |
| VendorModal.RequiredNames | src/features/vendorMaster/VendorModal.jsx:6-83 | the names listed are exactly those of the required fields |
| VendorModal.NoneRequired | src/features/vendorMaster/VendorModal.jsx:6-83 | fields none of which is required give no required names |
| VendorModal.VendorFieldsDeclared | src/features/vendorMaster/VendorModal.jsx:7-29 | type, vendor name and work type are required, and nothing else; type offers SC and HS |
| VendorModal.ValidateField | src/features/vendorMaster/VendorModal.jsx:6-83 | a field without a validator, and an empty value, are always accepted |

## Left out

- **Floating point.** Amounts are exact reals. The `Number.EPSILON` nudge inside `round2`, binary representation error and `toLocaleString("en-IN")` currency formatting are not modelled. `round2` is `Math.round(v * 100) / 100` on exact reals.
- **Number grammar.** `Number` and `parseFloat` read plain decimal literals only: an optional sign, digits, and an optional fraction. Hexadecimal, exponents, `Infinity` and text with trailing junk read as NaN. JavaScript's `parseFloat` would accept a numeric prefix such as "12abc" as 12. For the same reason, the equivalence of codes such as "HS_Infinity" is not modelled.
- **`parseInt`.** It reads a sign and leading decimal digits only. A `0x` prefix is not modelled.
- **Large code numbers.** A vendor-code number is an unbounded natural, printed in plain decimal. In the source, numbers at or above 2^53 lose precision, and `${num}` prints numbers of 10^21 or more with an exponent.
- **Character classes.** Upper- and lower-case mapping and the `\s` class cover ASCII, the no-break space and the byte-order mark only.
- **Non-string fields.** Vendor fields are read as text, and a field that is not a string reads as "". In the source, a numeric vendor code would be stringified, or would throw when split.
- **Unparseable vendor-code suffixes.** `VendorSlice.Suffixes` skips codes without a numeric suffix. In the source they become NaN, and their place in the sort is left to the engine. When a NaN comes first, the source generates "<type>_NaN". For the vendors `[{type: "SC", vendor_code: "SC_NaN"}]` the source gives "SC_NaN", a code that vendor already has, while the model gives "SC_01".
- VendorSlice.GeneratedCodeFresh and VendorSlice.CreatedVendorCodeFresh hold of the source only when every code of the type has a numeric suffix; the model's freshness is over the codes it skips too.
- **Type names with underscores.** The freshness lemmas require a vendor type without '_'. With one, the suffix would be read from inside the type name.
- **CSV cells.** Cells are strings or missing (null or undefined). Numbers converted with `String(number)` are not modelled.
- **`downloadFile`.** It writes through Blob, URL and a DOM anchor, which are outside the model.
- **Other foreign calls.** `window.confirm` is a parameter (`confirmed`). `alert` becomes an outcome of the submit functions. `console.error` is dropped.
- **Thunk latency.** The thunks' `setTimeout` delay is not modelled.
- **Ids and timestamps.** `Date.now()` ids and ISO timestamps are parameters.
- **The fetch source.** The fetch thunks read dummy data modules that are not part of this model. `EntrySlice.EntriesForPeriod` models their filter over any list. The state methods take the fetched list as a parameter.
- **Monthly modal opening.** The monthly modal's opening effect (`src/features/subContractor/MonthlyEntryModal.jsx:80-135`), which pre-fills the form from the initial data and pre-selects a vendor, is not modelled. `MonthlyEntryModal.MonthlyEntryForm.constructor` takes the form data as given.
- **Payment net-amount effect.** The payment modal's effect that copies `calculatedNetAmount` into the form's `netAmount` is not modelled as a step. The payload's net amount is taken from `calculatedNetAmount` directly, as the source does.
- **Required fields.** `ModalForm`, which enforces the required flags, is not part of this model. Only the declarations are modelled.
- **Thunk failures.** The `updateVendor` thunk returns its argument unchanged, so the update reducers take the record they store as a parameter. The `rejectWithValue` paths of the thunks are modelled by the rejected reducers, which take the message as a parameter.
- **Pages and wiring.** Rendering, table definitions, the subcontractor page component and the reducer wiring in the store are not part of this model.
- PaymentPage.TruncateForDisplay counts characters; JavaScript's `length` and `slice` count UTF-16 code units, so text outside the Basic Multilingual Plane is cut differently.
- **Preview hold.** `MonthlyEntryModal.PreviewHoldIsZero` records the source as written. The live preview turns an empty GST hold into 0 before the calculator runs, so the preview shows a hold of 0. The submitted payload spreads these calculated values, so it carries a hold of 0. The create thunk recomputes from that payload, reads the explicit 0, and stores a hold of 0 as well (`MonthlyEntryModal.SavedEntryHoldIsZero`). Only an entry created without the modal, with an empty hold, holds the GST.
