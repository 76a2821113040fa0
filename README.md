# AgentSpeak token benchmark — metrics engine model

This project models the metrics engine inside `benchmarks/run-benchmark.mjs`. That script compares compact "AgentSpeak" messages with their verbose English equivalents, using token counts as the measure. It then reports:

- per-message and overall savings percents and compression ratios;
- a breakdown by message type, keyed by the type with one `_coder` or `_ui` removed;
- a breakdown by agent;
- a cost projection for the tokens saved, at fixed prices and session volumes.

The model and its proofs are split into modules:

- `Wrappers` (`wrappers.dfy`): `Option`.
- `Metrics` (`metrics.dfy`):
  - the message and result records;
  - the savings and ratio formulas;
  - the main loop (`Measure`), which builds `results` and the running totals;
  - the lemma that savings computed from summed tokens is a verbose-weighted mean of the per-message savings.
- `TypeKeys` (`type_key.dfy`): the rewrite `type.replace(/_coder|_ui/, '')`. This is a leftmost-match scan in which `_coder` is tried before `_ui` at each position. Only that one match is removed.
- `Grouping` (`grouping.dfy`):
  - the grouping loop as intended (`GroupBy`, with `AddToGroup` as its body), shared by the per-type and per-agent breakdowns. The loop as the script runs it is in `PrototypeKeys`;
  - the specification functions it is proved against (`GroupMap`, `FirstKeys`, `KeySet`, `Filter`, `SumOver`);
  - the partition lemmas.
- `Costs` (`cost.dfy`): `costStr`'s value and the per-session, per-day and per-month estimates.
- `Benchmark` (`benchmark.dfy`):
  - the two grouping keys;
  - the lines of each breakdown;
  - the whole run (`Run`), which assembles the reported values, with both breakdowns built by the intended `GroupBy`.
- `PrototypeKeys` (`prototype_keys.dfy`): the grouping loops as JavaScript actually runs them on a plain object, where keys inherited from `Object.prototype` behave differently (see "## Findings").

Token counting is the parameter `tokens: string -> nat` of `Measure` and `Run`. Division by zero, which gives `Infinity` or `NaN` in JavaScript, is the value `None`.

Some facts about the script that the model keeps as they are:

- The prices (5 and 25 dollars per million tokens, lines 108-109) and the session volumes (100 a day and 3,000 a month, lines 126-133) are constants of the script.
- The type key loses only its leftmost `_coder` or `_ui` (line 89).
- A zero token count yields `Infinity` or `NaN`, with no sentinel value and no warning.

## Model

| member | source | states |
|---|---|---|
| Metrics.SavingsPercent | benchmarks/run-benchmark.mjs:43 | defined iff verbose > 0; then savings·verbose = 100·(verbose − compact), savings ≤ 100, = 100 iff compact = 0, < 0 iff compact > verbose, = 0 iff equal |
| Metrics.Ratio | benchmarks/run-benchmark.mjs:44 | defined iff compact > 0; then ratio·compact = verbose, ratio ≥ 0, ratio > 1 iff verbose > compact |
| Metrics.SavingsFromRatio | benchmarks/run-benchmark.mjs:43-44 | when both are defined, savings = (1 − 1/ratio)·100 |
| Metrics.MeasureOne | benchmarks/run-benchmark.mjs:41-57 | the pushed record copies id, type and agent, holds the tokenizer's two counts, and its savings and ratio are defined exactly when their divisor is non-zero and then satisfy savings·vb = 100·(vb − as) and ratio·as = vb |
| Metrics.Total | benchmarks/run-benchmark.mjs:46-47 | the accumulated totals of a sequence of results; its count is the number of results |
| Metrics.TotalSnoc | benchmarks/run-benchmark.mjs:46-47 | appending a result adds its counts to the totals, as the two `+=` lines do |
| Metrics.Measure | benchmarks/run-benchmark.mjs:40-57 | one result per message in input order; id, type and agent copied; token counts are the tokenizer's; the returned totals equal the sums of the results' counts |
| Metrics.WeightedIsSavedTokens | benchmarks/run-benchmark.mjs:70 | the sum of per-message savings weighted by verbose tokens is 100·(Σverbose − Σcompact) |
| Metrics.SummedSavingsIsWeightedMean | benchmarks/run-benchmark.mjs:70 | the savings of a total is the verbose-weighted mean of the per-message savings |
| Metrics.SummedSavingsIsNotAverage | benchmarks/run-benchmark.mjs:70 | a two-message example where the total's savings (83.3…) differs from the plain average of 50 and 90 |
| TypeKeys.MatchAt | benchmarks/run-benchmark.mjs:89 | length 6 iff `_coder` occurs at the position, 3 iff `_ui` does, none iff neither |
| TypeKeys.FirstMatch | benchmarks/run-benchmark.mjs:89 | the match found is at or after the start and no position between matches; none found means no position matches |
| TypeKeys.TypeKey | benchmarks/run-benchmark.mjs:89 | the key has length len, len − 3 or len − 6, and equals the type iff neither alternative occurs |
| TypeKeys.TypeKeyRemovesLeftmost | benchmarks/run-benchmark.mjs:89 | the key is the type with exactly its leftmost match cut out |
| TypeKeys.FirstRewrite | benchmarks/run-benchmark.mjs:89 | `status_ui_coder` becomes `status_coder` |
| TypeKeys.SecondRewrite | benchmarks/run-benchmark.mjs:89 | `status_coder` becomes `status` |
| TypeKeys.TypeKeyNotIdempotent | benchmarks/run-benchmark.mjs:89 | a second application can change the key again (no `g` flag) |
| Grouping.KeySetIsImage | benchmarks/run-benchmark.mjs:88-90 | the keys seen are exactly the keys of the results |
| Grouping.FirstIndex | benchmarks/run-benchmark.mjs:88-90 | the first result with a given key, with no earlier one |
| Grouping.FirstKeys | benchmarks/run-benchmark.mjs:90 | the key order holds each key seen exactly once |
| Grouping.FirstKeysInOrder | benchmarks/run-benchmark.mjs:99 | keys are listed in the order of their first occurrence |
| Grouping.FilterMembers | benchmarks/run-benchmark.mjs:88-93 | a group's members are exactly the results carrying its key |
| Grouping.FilterCounts | benchmarks/run-benchmark.mjs:88-93 | each result with the key is kept as many times as it occurs, and no other result is kept |
| Grouping.GroupMapKeys | benchmarks/run-benchmark.mjs:90 | the dictionary has an entry for exactly the keys that occur |
| Grouping.LookupGroupMap | benchmarks/run-benchmark.mjs:90-93 | the entry of a key is the total of the results with that key (zero for an absent key) |
| Grouping.GroupMapIsFilterTotals | benchmarks/run-benchmark.mjs:87-94 | every entry's `as`, `vb` and `count` are the sums over the results with its key |
| Grouping.SumOverBump | benchmarks/run-benchmark.mjs:91-93 | adding to one entry adds to a sum over a duplicate-free key list exactly when it lists that key |
| Grouping.GroupsPartition | benchmarks/run-benchmark.mjs:87-94 | summing the entries in key order gives the totals of all results: nothing lost, nothing counted twice |
| Grouping.AddToGroup | benchmarks/run-benchmark.mjs:90-93 | the key's entry becomes its old value (or zero) plus the result's counts; the key is appended to the order iff it was new |
| Grouping.GroupBy | benchmarks/run-benchmark.mjs:87-94 | the dictionary and key order are GroupMap and FirstKeys; keys are distinct and agree with the entries; the entries sum to the totals (the intended grouping; see `Grouping.GroupBy` under Left out) |
| Benchmark.TypeGroupKey | benchmarks/run-benchmark.mjs:89 | the per-type key is the rewritten `type`: length len, len − 3 or len − 6, unchanged iff neither `_coder` nor `_ui` occurs |
| Benchmark.AgentGroupKey | benchmarks/run-benchmark.mjs:139 | the per-agent key is the raw `agent` label |
| Benchmark.GroupsOfKeys | benchmarks/run-benchmark.mjs:137-143 | the entries are keyed by exactly the keys that occur, and each count is the number of results with that key |
| Benchmark.AgentGroups | benchmarks/run-benchmark.mjs:137-143 | the per-agent breakdown has one entry per distinct agent, counting that agent's messages |
| Benchmark.TypeGroups | benchmarks/run-benchmark.mjs:87-94 | the per-type breakdown has one entry per distinct rewritten type |
| Benchmark.GroupIsFilterTotal | benchmarks/run-benchmark.mjs:137-143 | an existing entry is the total of the results with its key, and there is at least one such result |
| Benchmark.GroupVerbosePositive | benchmarks/run-benchmark.mjs:137-143 | when every result with the key has verbose tokens, the entry's members all do and its verbose sum is positive |
| Benchmark.GroupSavingsIsWeightedMean | benchmarks/run-benchmark.mjs:149 | a group's savings is the verbose-weighted mean of its members' savings, whenever the group's own members have verbose tokens |
| Benchmark.Breakdown | benchmarks/run-benchmark.mjs:99-100 | one line per key in order, with the savings of that key's summed tokens |
| Benchmark.Run | benchmarks/run-benchmark.mjs:40-149 | results as Measure gives them; totals equal the sums and the message count; overall savings and ratio from the totals; both breakdowns are GroupMap/FirstKeys of the intended grouping and sum to the totals; `saved` is the signed difference and has the sign of the overall savings; the cost figures are Project(saved) |
| Costs.Cost | benchmarks/run-benchmark.mjs:113-115 | cost·10⁶ = tokens·price |
| Costs.CostAdditiveInPrice | benchmarks/run-benchmark.mjs:123 | pricing at input + output price is the input cost plus the output cost |
| Costs.CostLinearInVolume | benchmarks/run-benchmark.mjs:126-133 | pricing `saved * n` tokens is n times the per-session cost |
| Costs.CostSign | benchmarks/run-benchmark.mjs:111-115 | at a positive price the cost has the sign of the token count |
| Costs.EstimateFor | benchmarks/run-benchmark.mjs:121-123 | combined = input + output, output = 5 × input, and the input figure has the sign of the tokens |
| Costs.Project | benchmarks/run-benchmark.mjs:121-133 | daily figures are exactly 100×, monthly exactly 3,000× (30× daily) the per-session figures; the combined figure is negative iff fewer tokens were saved than spent |
| PrototypeKeys.OwnResultsMembers | benchmarks/run-benchmark.mjs:90 | the results the loop as written keeps are exactly those whose key is not inherited from `Object.prototype`, each as often as it occurs |
| PrototypeKeys.GroupByAsWritten | benchmarks/run-benchmark.mjs:87-94 | the loop as written builds GroupMap and FirstKeys of only those results, and its entries sum to their totals alone |
| PrototypeKeys.NoInheritedKeysKeepsAll | benchmarks/run-benchmark.mjs:90 | with no inherited key among the results, the loop as written agrees with GroupBy |
| PrototypeKeys.ConstructorAgentIsDropped | benchmarks/run-benchmark.mjs:139 | a message from agent `constructor` produces no entry: the groups count 0 messages out of 1 |

## Left out

- Reading and parsing `real-messages.json` (line 22): file I/O. The messages are the input sequence of `Measure` and `Run`.
- The tiktoken encoder (lines 13-19, 158): a foreign library. It is the parameter `tokens`, assumed deterministic.
- All console output, column padding, truncation and pluralisation (lines 24-38, 59-65, 73-84, 96-104, 117-156): presentation. `Run` returns the values that are printed, with the breakdowns as the intended grouping builds them (see the `Benchmark.Run` line below).
- `toFixed` and `parseFloat` rounding (lines 43-44, 55-56, 70-71, 100, 114, 126-133): IEEE-754 decimal formatting. Every figure is an exact real. The rounded `savings` and `ratio` fields of `results` are exact here, and nothing reads them again.
- `Infinity` and `NaN` from a zero divisor (lines 43-44, 70-71, 100, 149) are all represented by `None`. The model does not say which non-finite value JavaScript prints.
- `Object.entries` lists array-index keys first, in ascending numeric order, before the others. These are the canonical decimal strings from `"0"` to `"4294967294"`; keys such as `"-1"` or `"01"` keep insertion order. `FirstKeys` assumes insertion order for every key.
- Benchmark.Run: both breakdowns are built by the intended `Grouping.GroupBy`, so a result whose key is inherited from `Object.prototype` (for example agent `constructor`) gets an entry and a line here, while the script prints none for it. The loop as the script runs it is `PrototypeKeys.GroupByAsWritten`. The two agree whenever no key is in `InheritedProperties` (`PrototypeKeys.NoInheritedKeysKeepsAll`).
- Grouping.GroupBy: models the grouping loop as intended, so it partitions every result; the script's own loop drops results with inherited keys, as `PrototypeKeys.GroupByAsWritten` states.
- The record field `type` is named `msgType`, because `type` is a reserved word in Dafny.

## Findings

| source | as written | input that shows it | evidently intended | confidence | as-written member | corrected member |
|---|---|---|---|---|---|---|
| benchmarks/run-benchmark.mjs:90 | `if (!typeGroups[group])` (and `!agentGroups[r.agent]` at line 139) reads through `Object.prototype`. For a key such as `constructor`, `toString` or `__proto__` it finds a truthy inherited value, so it creates no entry. The `+=` lines then write into that inherited value, and the message appears in no breakdown line. | a message whose agent is `constructor` (or whose type is `toString`) | every message counted in exactly one group, so the groups sum to the totals | not executed | PrototypeKeys.GroupByAsWritten, PrototypeKeys.ConstructorAgentIsDropped | Grouping.GroupBy, Grouping.GroupsPartition |
