# Carbon footprint canister: a Dafny model

This project models the emission-tracking canister of CarbonFootprintAssistant
(`src/index.ts`). The canister keeps five stable maps keyed by principal:
user data, user settings, environmental factors, per-activity history and
benchmark data. It offers three operations:

- `calculateEmissions` validates a submission. It derives the key
  activity type, a '-' and the date, and looks up the environmental factor stored
  under it. It scales the submitted emissions by the factor's `factorValue`
  and appends the resulting emission record to the caller's list in the user
  store.
- `getTotalEmissions` folds the caller's record list into a total, seeded at 0.
- `generateReport` computes the same total. It picks a recommendation by the
  strict threshold `total > 1000` and formats the report text.

Layout:

- `records.dfy` (module `Records`): the seven record types of the canister,
  the `Result` the operations return, the three error messages, and the
  factor key derivation.
- `totals.dfy` (module `Totals`): the `reduce` fold the canister runs
  (`Reduce`) and a reference sum (`TotalOf`). It proves that the fold
  computes the sum, and that the sum is additive over appends and
  independent of record order.
- `report.dfy` (module `Report`): the decimal text of a total, the
  recommendation, the report text, and a parser that reads a report back.
- `queries.dfy` (module `Queries`): `getTotalEmissions` and `generateReport`
  as functions of the user store and the caller. It also holds the write a
  successful `calculateEmissions` makes, and the lemmas about totals after
  one or many such writes.
- `canister.dfy` (module `Canister`): class `Canister` with the five stores
  as `map` fields and `CalculateEmissions` as a method that `modifies this`,
  plus a client scenario.

Modelling choices:

- The caller identity that the host supplies (`ic.caller()` inside
  `authenticateUser`) is an explicit `caller` parameter.
- A store's `get` is a membership test and a lookup. Its `insert` is a map
  update.
- `nat64` values are `nat`. At run time they are arbitrary-precision
  integers, so the product at `src/index.ts:127` and the sums at
  `src/index.ts:163,179` do not wrap, and the model uses `nat` for them.
- Error results carry the source's exact message strings.
- `Principal.fromText` is modelled as a principal made from its text. The
  factor key is therefore the joined text itself. The model does not assume
  that joining is injective: `FactorKeyCollides` exhibits a collision, and
  `FactorKeyInjective` states when keys do not collide.
- An emission record's `id` is the factor key. So every caller who records
  the same activity on the same date gets a record with the same `id`. The
  model keeps this behaviour, as the code has it.

## Model

| member | source | states |
|---|---|---|
| Records.FactorKey | src/index.ts:120 | the key text is the activity type, one '-', then the date (the key is built by `Records.FromText`, the model of `Principal.fromText`, which keeps the text) |
| Records.FactorKeyCollides | src/index.ts:120 | the key derivation is not injective: ("a-b","c") and ("a","b-c") give the same key |
| Records.FactorKeyInjective | src/index.ts:120 | when neither activity type contains '-', equal keys imply equal activity types and equal dates |
| Totals.ReduceIsTotal | src/index.ts:163 | `Totals.Reduce`, the model of the `reduce` left fold at :163 and :179, returns its seed `acc` plus the sum of the records' emissions |
| Totals.TotalConcat | src/index.ts:163 | the total of two concatenated lists is the sum of their totals |
| Totals.TotalAppend | src/index.ts:144 | appending one record raises the total by exactly that record's emissions |
| Totals.TotalPermutation | src/index.ts:163 | lists with the same multiset of records have the same total (order does not matter) |
| Report.NatToString | src/index.ts:188 | the decimal text of a total is non-empty and all digits, has no leading zero, and reads back as the total |
| Report.Recommendation | src/index.ts:181-186 | the "reduce" message is chosen exactly when total > 1000, and the "Great job" message exactly when total <= 1000 (so 1000 gives praise) |
| Report.ReportText | src/index.ts:188 | the report is the header "Total emissions: ", the canonical decimal text of the total, the text " kg CO2 equivalent", two line breaks, "Recommendations:" and a line break, then the recommendation for that total; it parses back to exactly that total and recommendation |
| Report.ParseReportInverse | src/index.ts:188 | header, digits, middle text and recommendation read back as the digits' value and that recommendation |
| Report.ReportDeterminesTotal | src/index.ts:188 | two equal reports state equal totals |
| Queries.GetTotalEmissions | src/index.ts:157-168 | with user data, Ok(sum of the caller's record emissions); without it, Err("User not found.") |
| Queries.GenerateReport | src/index.ts:173-194 | fails exactly when `getTotalEmissions` fails, with the same message; otherwise it is the report on that same total, and the report reads back as that total and its recommendation |
| Queries.AppendRecord | src/index.ts:140-145 | the insert keeps the store's key set and every other user's entry; the caller's principal and username stay the same, and their records gain the new record at the end |
| Queries.TotalAfterAppend | src/index.ts:142-145 | after the append, the caller's total is the old total plus the record's emissions, and every other principal's result is unchanged |
| Queries.TotalAfterAppendAll | src/index.ts:142-145 | after N appended records, the caller's total is the old total plus the sum of those records' emissions, in any order |
| Canister.Canister.constructor | src/index.ts:94-106 | a fresh canister has all five stores empty |
| Canister.Canister.CalculateEmissions | src/index.ts:109-155 | an empty text field or zero emissions returns exactly the invalid-input error. Next, a missing factor gives "Environmental factors not found.", even when the user is also missing. Next, a missing user gives "User not found.". It succeeds exactly when all checks pass. A failure writes nothing. Success returns the record (factor key, the inputs, emissions × factorValue) and appends it to the caller's list. Only the user store changes. The caller's total grows by the record's emissions |
| Canister.CommuteScenario | src/index.ts:109-168 | with factor 2 for ("commute","2024-01-01") and an empty user, recording 50 returns a 100 kg record, and the total is Ok(100) |

## Left out

- The host wrappers (`Canister`, `update`, `query`) and Candid typing are not modelled. The caller identity is a parameter.
- The durability of the stable maps and their memory ids (0 to 4) are not modelled. Each store is a `map`.
- `Principal.fromText` is not modelled as a parser. On text that is not a valid principal, such as `commute-2024-01-01`, the real call throws after validation. The model instead builds the key from the text and carries on.
- The `nat64` range is not enforced. A product or total at or above 2^64 would fail in the encoding of a `nat64` value, which the model does not include.
- `crypto.getRandomValues` is not modelled, because it is randomness supplied by the host.
- `userSettingsStorage`, `userActivityHistoryStorage` and `benchmarkDataStorage` have no operation that reads or writes them. They are kept as fields only, so that `CalculateEmissions` can state that they do not change.
- The `ActivityType` record is declared but no store holds it. It is kept as a datatype only.
