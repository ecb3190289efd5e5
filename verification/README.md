# Mediation strategies of a modular query engine, in Dafny

This project models the two actor-selection strategies of the engine's
bus–actor–mediator layer. A bus publishes an action to every registered actor. Each actor's
`test` either accepts with a value (`Pass`) or rejects with a reason (`Fail`).
A mediator then picks one actor from the replies, which arrive in registration order.

- **Numeric extremum mediator** (`MediatorNumber`). It reads a named numeric field from each
  accepted test value. It returns the actor whose value is minimal (`min`) or maximal (`max`). The scan
  is `createIndexPicker`'s left-to-right `reduce`, started from `[NaN, -1]`. An entry replaces the
  current best only when it is strictly better, so ties go to the earliest entry. A `null` field
  is skipped. An absent field (`undefined`) counts as +∞ under `min` and −∞ under `max`.
  With `ignoreFailures`, a rejected reply is replaced by a dummy whose field is `null`,
  and its reason is collected. Without it, `getOrThrow` makes any rejection abort the round.
- **Fixed-weight join-coefficients mediator** (`JoinCoefficients`). Each accepted join actor
  reports `iterations`, `persistedItems`, `blockingItems` and `requestTime`. Its cost is
  `iterations·cpuWeight + persistedItems·memoryWeight + blockingItems·timeWeight + requestTime·ioWeight`.
  When the context carries a limit indicator, some candidates get a penalty. A candidate is penalised when it is
  blocking (`blockingItems > 0`) and needs more iterations than the limit. The penalty is the cost of
  the cheapest accepted non-blocking candidate. The cheapest candidate after adjustment wins,
  ties going to the earliest. Rejected candidates are not scored. If the winner is
  included in logs, the mediator writes one debug record. It holds the message
  `Determined physical join operator '<logicalType>-<physicalName>'` and two tables keyed by
  label: raw coefficients and adjusted costs.

Shared by both (module `Mediators`):
- A round on an empty bus fails with "No actors are able to reply to a message in the bus <name>".
- When no actor can be chosen, the failure is the bus's fail message, then the line
  "    Error messages of failing actors:", then one line per reason indented by eight spaces,
  in registration order.

Numbers are unbounded integers. The numeric mediator adds the two infinities (`Ext`). Field
values are `Null | Undefined | Num(Ext)`. A test value is a map from field names to field
values, and a name that is not a key reads as `undefined`.

Files: `results.dfy` (`TestResult`, `Result`, `Option`, `getOrThrow`), `mediators.dfy`
(replies, the base `mediate`, failure messages), `mediator_number.dfy`,
`mediator_number_examples.dfy`, `join_coefficients.dfy`, and `join_coefficients_scenarios.dfy`.
The last file holds the join mediator's test rounds with their exact numbers.

## Model

| member | source | states |
|---|---|---|
| Results.GetOrThrow | packages/mediator-number/lib/MediatorNumber.ts:76 | unwrapping succeeds exactly on an accepted result, giving its value; a rejected one throws its own reason |
| Results.GetAllOrThrow | packages/mediator-number/lib/MediatorNumber.ts:76 | unwrapping a list succeeds iff every result is accepted, keeping length and values; otherwise it throws the reason of the earliest rejected result |
| Mediators.NoActorsMessage | packages/mediator-join-coefficients-fixed/test/MediatorJoinCoefficientsFixed-test.ts:53-56 | the no-actors failure names the bus (the message ends with the bus name) |
| Mediators.ConstructFailureMessage | packages/mediator-join-coefficients-fixed/test/MediatorJoinCoefficientsFixed-test.ts:58-69 | an aggregate failure starts with the bus fail message, a newline and the "Error messages of failing actors:" header |
| Mediators.ReasonLinesAppend | packages/mediator-join-coefficients-fixed/test/MediatorJoinCoefficientsFixed-test.ts:58-69 | the reason lines of a concatenation are the lines of its parts, so each reason gets its own indented line in list order |
| Mediators.ConstructFailureMessageSnoc | packages/mediator-join-coefficients-fixed/test/MediatorJoinCoefficientsFixed-test.ts:58-69 | with no reasons the message is the fail message and the header; each further reason adds exactly one newline, the eight-space indent and the reason at the end |
| Mediators.FailMessagesAppend | packages/mediator-number/lib/MediatorNumber.ts:62-73 | collecting rejection reasons commutes with concatenation of the replies, i.e. reasons are collected in registration order |
| Mediators.FailMessagesSingle | packages/mediator-number/lib/MediatorNumber.ts:66-70 | one reply contributes its reason exactly when it is rejected, and nothing when it is accepted |
| Mediators.FailMessagesAllRejected | packages/mediator-join-coefficients-fixed/test/MediatorJoinCoefficientsFixed-test.ts:58-69 | when every actor rejects, the k-th collected reason is the k-th actor's reason |
| Mediators.Mediate | packages/mediator-join-coefficients-fixed/test/MediatorJoinCoefficientsFixed-test.ts:53-69 | a round succeeds exactly when the bus has actors and the strategy accepts, and then returns the strategy's actor; a failed round carries either the no-actors message (empty bus) or the strategy's thrown or rejection reason |
| MediatorNumber.Lookup | packages/mediator-number/lib/MediatorNumber.ts:39 | reading a field the test value has yields its stored value, and one it does not have yields `undefined` |
| MediatorNumber.Dummy | packages/mediator-number/lib/MediatorNumber.ts:64-65 | the substitute test value has the mediated field set to `null` |
| MediatorNumber.CreateIndexPicker | packages/mediator-number/lib/MediatorNumber.ts:35-50 | a picker is built iff the type is "min" or "max", giving the matching mode; any other type is an error with the exact message |
| MediatorNumber.GetOrDefault | packages/mediator-number/lib/MediatorNumber.ts:53-56 | `undefined` becomes the given default; the result is never `undefined`, is `null` iff the input is, and a number passes through unchanged |
| MediatorNumber.Reduce | packages/mediator-number/lib/MediatorNumber.ts:38-46 | the reduce keeps its invariant: the best value is NaN iff the index is −1 iff every field is `null`; otherwise the index is the earliest best entry and the best value is that entry's value |
| MediatorNumber.PickIndex | packages/mediator-number/lib/MediatorNumber.ts:38-46 | the picker returns −1 exactly when the list is empty or all `null`; otherwise an index whose value is non-null, not beaten by any non-null value, and strictly better than every earlier one |
| MediatorNumber.FirstBestUnique | packages/mediator-number/lib/MediatorNumber.ts:38-46 | at most one index is the earliest best, so the picker's contract determines its result |
| MediatorNumber.UndefinedIsDefault | packages/mediator-number/lib/MediatorNumber.ts:38-56 | replacing every absent field by +∞ (min) or −∞ (max) does not change the reduce, so absent means infinite |
| MediatorNumber.UndefinedLosesToFinite | packages/mediator-number/lib/MediatorNumber.ts:38-56 | if any entry holds a finite number, the picked entry is not an absent field |
| MediatorNumber.Wrapped | packages/mediator-number/lib/MediatorNumber.ts:63-73 | accepted replies are kept as they are; without ignoring failures nothing changes; with it every result is accepted, and a rejected reply's substitute reads `null` in the mediated field |
| MediatorNumber.PickerInput | packages/mediator-number/lib/MediatorNumber.ts:63-79 | substituting the dummy and then unwrapping every result succeeds iff failures are ignored or every reply is accepted; the picker then sees `null` for each rejected reply and the accepted value's field for the others |
| MediatorNumber.MediateWith | packages/mediator-number/lib/MediatorNumber.ts:58-84 | ignoring failures never throws; without it, the call throws iff some reply is rejected, with the earliest reason; a rejected outcome happens iff all compared fields are `null`, with the collected reasons; an accepted outcome is the actor at the earliest best index, whose reply was accepted |
| MediatorNumber.IgnoredFailuresNeverWin | packages/mediator-number/lib/MediatorNumber.ts:62-83 | with failures ignored, the winner is an accepted actor; the round fails iff every accepted value's field is `null`, and then lists every reason in registration order |
| MediatorNumber.AnyFailureAborts | packages/mediator-number/lib/MediatorNumber.ts:76 | without ignoring failures, the round fails with the earliest rejection's reason, whatever the other replies are |
| MediatorNumber.Mediate | packages/mediator-number/lib/MediatorNumber.ts:58-84 | a round on an empty bus fails with the no-actors message; a successful round returns an accepted actor whose field is the earliest best value |
| MediatorNumberExamples.MinTieGoesToEarliest | packages/mediator-number/lib/MediatorNumber.ts:38-41 | the values 3, 1, 1 under `min` pick index 1 |
| MediatorNumberExamples.MaxTieGoesToEarliest | packages/mediator-number/lib/MediatorNumber.ts:43-46 | the values 1, 3, 3 under `max` pick index 1 |
| MediatorNumberExamples.UndefinedExamples | packages/mediator-number/lib/MediatorNumber.ts:38-56 | an absent field is picked next to `null`, and a finite value beats it in either position |
| MediatorNumberExamples.NothingComparable | packages/mediator-number/lib/MediatorNumber.ts:38-46 | an empty or all-`null` list picks −1 |
| MediatorNumberExamples.UnknownPickerType | packages/mediator-number/lib/MediatorNumber.ts:47-49 | the type "avg" is refused with the exact error text |
| MediatorNumberExamples.IgnoringFailures | packages/mediator-number/lib/MediatorNumber.ts:58-83 | in a round with a rejected first actor, ignoring failures picks the minimum of the rest; without it the round fails with that actor's reason |
| JoinCoefficients.Label | packages/mediator-join-coefficients-fixed/test/MediatorJoinCoefficientsFixed-test.ts:458-473 | an entry's label is its logical type, a hyphen and its physical name, in that order |
| JoinCoefficients.LabelsSeparatePhysicalNames | packages/mediator-join-coefficients-fixed/test/MediatorJoinCoefficientsFixed-test.ts:458-473 | actors of one logical type share a label iff they share a physical name |
| JoinCoefficients.DebugMessage | packages/mediator-join-coefficients-fixed/test/MediatorJoinCoefficientsFixed-test.ts:81-82 | the debug line is the fixed "Determined physical join operator '" text, the winner's label, and a closing quote |
| JoinCoefficients.DebugMessageNamesLabel | packages/mediator-join-coefficients-fixed/test/MediatorJoinCoefficientsFixed-test.ts:81-82 | two debug lines are equal iff they name the same label |
| JoinCoefficients.CostPairing | packages/mediator-join-coefficients-fixed/test/MediatorJoinCoefficientsFixed-test.ts:220-283 | a unit weight on cpu, memory, time or io yields iterations, persisted items, blocking items or request time respectively, and costs add when weights add |
| JoinCoefficients.MinNonBlockingCost | packages/mediator-join-coefficients-fixed/test/MediatorJoinCoefficientsFixed-test.ts:285-340 | the penalty is absent iff no accepted candidate is non-blocking; otherwise it is the cost of one of them and at most the cost of each |
| JoinCoefficients.AdjustedCosts | packages/mediator-join-coefficients-fixed/test/MediatorJoinCoefficientsFixed-test.ts:171-218 | there is one cost per entry, and it is defined exactly for the accepted ones |
| JoinCoefficients.UnadjustedCosts | packages/mediator-join-coefficients-fixed/test/MediatorJoinCoefficientsFixed-test.ts:399-454 | an accepted candidate costs exactly its weighted sum when it is non-blocking, when no limit is set, when its iterations are within the limit, or when no accepted non-blocking alternative exists |
| JoinCoefficients.LimitPenalty | packages/mediator-join-coefficients-fixed/test/MediatorJoinCoefficientsFixed-test.ts:285-340 | with a limit and an accepted non-blocking candidate, a blocking candidate over the limit costs its weighted sum plus the cheapest non-blocking cost |
| JoinCoefficients.MinCostIndex | packages/mediator-join-coefficients-fixed/test/MediatorJoinCoefficientsFixed-test.ts:115-169 | selection returns −1 iff no cost is defined; otherwise an entry with the lowest defined cost that is strictly cheaper than every earlier one |
| JoinCoefficients.CheapestUnique | packages/mediator-join-coefficients-fixed/test/MediatorJoinCoefficientsFixed-test.ts:115-169 | at most one entry is the earliest cheapest, so selection is determined |
| JoinCoefficients.CoefficientsMap | packages/mediator-join-coefficients-fixed/test/MediatorJoinCoefficientsFixed-test.ts:193-217 | the coefficient table's labels are exactly those of the accepted candidates |
| JoinCoefficients.CostsMap | packages/mediator-join-coefficients-fixed/test/MediatorJoinCoefficientsFixed-test.ts:193-217 | the cost table's labels are exactly those of the entries with a defined cost |
| JoinCoefficients.MediateWith | packages/mediator-join-coefficients-fixed/test/MediatorJoinCoefficientsFixed-test.ts:58-218 | the outcome is rejected iff every actor rejects, with every reason and no log; otherwise it is the earliest cheapest accepted actor; a record is logged iff the winner is included in logs and a logger exists, naming the winner and keyed by the accepted labels |
| JoinCoefficients.Mediate | packages/mediator-join-coefficients-fixed/test/MediatorJoinCoefficientsFixed-test.ts:53-56 | an empty bus fails with the no-actors message and logs nothing; a chosen actor is always an accepted one |
| JoinCoefficients.CheapestIsNonBlocking | packages/mediator-join-coefficients-fixed/test/MediatorJoinCoefficientsFixed-test.ts:285-397 | under the same conditions, any entry that is cheapest after the limit adjustment is an accepted non-blocking candidate: blocking candidates over the limit are pushed above the cheapest streaming one |
| JoinCoefficients.StreamingPreferred | packages/mediator-join-coefficients-fixed/test/MediatorJoinCoefficientsFixed-test.ts:285-397 | with non-negative weights, a positive time weight, a limit, an accepted non-blocking candidate, and every accepted blocking candidate over the limit, a non-blocking candidate wins in any registration order |
| JoinCoefficients.LogRecordTables | packages/mediator-join-coefficients-fixed/test/MediatorJoinCoefficientsFixed-test.ts:81-98 | with distinct labels, the record holds each accepted candidate's raw coefficients and adjusted cost under its label |
| JoinCoefficients.CoefficientsMapAt | packages/mediator-join-coefficients-fixed/test/MediatorJoinCoefficientsFixed-test.ts:142-161 | with distinct labels, an accepted candidate's label maps to its raw coefficients |
| JoinCoefficients.CostsMapAt | packages/mediator-join-coefficients-fixed/test/MediatorJoinCoefficientsFixed-test.ts:162-166 | with distinct labels, an entry's label maps to its cost |
| JoinCoefficientsScenarios.NoActorsRegistered | packages/mediator-join-coefficients-fixed/test/MediatorJoinCoefficientsFixed-test.ts:53-56 | a round on the empty bus "bus" fails with "No actors are able to reply to a message in the bus bus" |
| JoinCoefficientsScenarios.AllActorsReject | packages/mediator-join-coefficients-fixed/test/MediatorJoinCoefficientsFixed-test.ts:58-69 | three rejecting actors give the bus fail message, the header and "Actor 1/2/3 fails" on indented lines, with no log |
| JoinCoefficientsScenarios.SingleActor | packages/mediator-join-coefficients-fixed/test/MediatorJoinCoefficientsFixed-test.ts:71-99 | the single actor (10,20,30,50) wins at cost 110, with the exact log record |
| JoinCoefficientsScenarios.SingleActorNotLogged | packages/mediator-join-coefficients-fixed/test/MediatorJoinCoefficientsFixed-test.ts:101-113 | an actor with includeInLogs false wins and nothing is logged |
| JoinCoefficientsScenarios.MultipleActors | packages/mediator-join-coefficients-fixed/test/MediatorJoinCoefficientsFixed-test.ts:115-169 | costs 110, 80 and 1060 select actor 2, with the exact tables |
| JoinCoefficientsScenarios.MultipleActorsOneFailing | packages/mediator-join-coefficients-fixed/test/MediatorJoinCoefficientsFixed-test.ts:171-218 | with actor 2 rejecting, actor 1 (110) beats actor 3 (1060), and actor 2 is absent from both tables |
| JoinCoefficientsScenarios.MultipleActorsModifiedWeights | packages/mediator-join-coefficients-fixed/test/MediatorJoinCoefficientsFixed-test.ts:220-283 | with ioWeight 10000, the costs 500060, 200060 and 101050 select actor 3 |
| JoinCoefficientsScenarios.LimitPrefersNonBlocking | packages/mediator-join-coefficients-fixed/test/MediatorJoinCoefficientsFixed-test.ts:285-340 | with limit 10, the blocking costs become 1230 and 1200, and the non-blocking actor 3 (1030) wins |
| JoinCoefficientsScenarios.LimitPrefersNonBlockingReversed | packages/mediator-join-coefficients-fixed/test/MediatorJoinCoefficientsFixed-test.ts:342-397 | in reverse registration order the costs are 1030, 1200 and 1230, and actor 1 wins |
| JoinCoefficientsScenarios.HighLimitNoAdjustment | packages/mediator-join-coefficients-fixed/test/MediatorJoinCoefficientsFixed-test.ts:399-454 | with limit 200, the costs are the raw sums 200, 170 and 1030, and actor 2 wins |

## Left out

- The bus's concurrent fan-out and `Promise.all` are not modelled. Replies are an already-resolved sequence in registration order.
- The base `Mediator`, `Bus`, `Actor` and `TestResult` classes are not part of this model. Only the behaviour that the two mediators and the tests rely on is modelled.
  - Empty bus and aggregate failure: the messages follow the text the tests expect. The tests match that text as a substring (jest's `toThrow(string)`), so the rendering of an empty reason list is an assumption.
  - `getOrThrow` is modelled as throwing the rejection's own reason.
  - The bus fail message is a plain string parameter. Template substitution is not modelled.
- After mediation, the engine runs the chosen actor, and the tests compare that run's output `{ id }`. The model returns the chosen actor, which carries its `id`.
- NaN, fractional numbers and non-numeric field values are not modelled. Numbers are integers plus ±∞, and field values are `null`, `undefined` or a number.
- Reading the field of an `undefined` test value is not modelled: after `getOrThrow` every value is defined.
- The join mediator's implementation file is not part of this model. Its behaviour comes from the test assertions; where they leave a choice open, the readings below are taken.
  - The penalty is taken to be the cheapest accepted non-blocking candidate's cost. Every test round with a limit indicator (test lines 285-454) has exactly one non-blocking candidate, and its cost 1030 is also the largest accepted cost. So the tests cannot tell this reading from "add the largest accepted cost". The readings differ when a limit is set and every accepted candidate is blocking: the model then applies no penalty (the last case of `UnadjustedCosts`), while the other reading would still penalise the blocking candidates over the limit. No test covers that case.
  - The limit indicator is an optional positive integer. Zero or negative limits are not modelled.
  - Its aggregate failure lists the bare reasons, as the test text shows.
- The `entries` and `variables` parts of the debug record are not modelled: they come from asynchronous entry metadata and an RDF data factory. The logger is modelled as present or absent.
- The dummy actor builds its physical name from its id with string formatting (`PHYSICAL<id>`). That formatting is not modelled: actors carry their logical type and physical name as strings.
- The CLI init actor (`packages/actor-init-query/lib/ActorInitQuery.ts`) and the webpack build configuration are left out. Both are plumbing, with no selection logic.
- With failures ignored, the code does not drop rejected replies: it substitutes a test value whose mediated field is `null` (`Dummy`, `Wrapped`). `PickerInput` proves that the picker sees `null` at every rejected position, and each accepted reply's own field elsewhere. `IgnoredFailuresNeverWin` proves that a rejected actor is never chosen.
