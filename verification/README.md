# interval_map in Dafny

A model of `interval_map<K, V>` from `Interview/interval_map.cpp`. The class
maps every key of `K` to a value of `V`. `m_valBegin` holds below the first
breakpoint. Each breakpoint `(k, v)` stored in `m_map` starts a run of `v`
that lasts until the next stored key. The model covers these operations:

- the constructor;
- `assign(keyBegin, keyEnd, val)`, branch for branch;
- `operator[]`;
- `clear`;
- `to_str`;
- the checks of `IntervalMapTest`.

Keys are `int`. `to_str` is modelled for `V = char`, the instance the tests
use.

Modules, in dependency order:

- `SeqFacts` (seq_facts.dfy): small facts about slicing sequences.
- `Breakpoints` (breakpoints.dfy): `std::map<int, V>` as a sequence of
  entries with strictly increasing keys. Positions stand in for iterators.
  `lower_bound`, `upper_bound`, `insert_or_assign` and `insert` are functions
  on it. `ValueAt` is a left-to-right reference reading of the breakpoints.
- `IntervalMaps` (interval_map.dfy): the class and its operations. `Assign`
  runs the C++ steps in order: `Splice` (lines 31-53), then `StripDefault`
  (lines 55-63) and `MergeLast` (lines 64-70). `AssignShape` restates the
  result in terms of the breakpoints before the call.
- `AssignLemmas` (assign_lemmas.dfy): the value read back at every key after
  `assign`, against the independent reference `AssignedValue`.
- `Intended` (intended.dfy): `assign` as its own comment at lines 20-25
  describes it. Two branches of the code depart from that comment; see
  Findings.
- `Render` (render.dfy): `to_str`, and a parser that reads every rendering
  back.
- `Scenarios` (scenarios.dfy): one lemma per check of `IntervalMapTest`
  (lines 103-277). Each is proved from small facts about literal maps.

## Model

| member | source | states |
|---|---|---|
| IntervalMaps.New | Interview/interval_map.cpp:15-18 | the new map has no breakpoints, and every key reads `val` |
| IntervalMaps.Lookup | Interview/interval_map.cpp:75-83 | the default is read below every stored key; otherwise the value of the greatest stored key at or below the queried key is read |
| IntervalMaps.LookupIsValueAt | Interview/interval_map.cpp:75-83 | `operator[]` agrees with the left-to-right reference reading `ValueAt` of the breakpoints |
| IntervalMaps.Clear | Interview/interval_map.cpp:85-87 | every breakpoint is dropped and the default kept, so every key reads the default |
| IntervalMaps.Assign | Interview/interval_map.cpp:26-72 | an empty or inverted interval changes nothing (lines 28-30); otherwise the default is kept, the keys stay in order and the first breakpoint does not repeat the default |
| IntervalMaps.SettleEnd | Interview/interval_map.cpp:33-52 | end_range lies strictly after keyBegin's position, so the step back at line 42 is valid; everything up to keyBegin is left alone; end_range, unless it is the end, points at a breakpoint stored under keyEnd |
| IntervalMaps.Splice | Interview/interval_map.cpp:31-53 | the entries below keyBegin are kept and (keyBegin, val) follows them; after the erase, the next breakpoint, if any, is stored under keyEnd (the full result is given by SpliceShape) |
| IntervalMaps.SettleEndNone | Interview/interval_map.cpp:33-36 | with no stored key at or above keyEnd, nothing is added at keyEnd |
| IntervalMaps.SettleEndHit | Interview/interval_map.cpp:37-39 | when keyEnd is already stored, nothing is added at keyEnd |
| IntervalMaps.SettleEndPull | Interview/interval_map.cpp:40-47 | when the breakpoint after keyEnd directly follows keyBegin, it is replaced by a breakpoint at keyEnd that carries its value |
| IntervalMaps.SettleEndCarry | Interview/interval_map.cpp:48-51 | when some breakpoint lies between keyBegin and keyEnd, keyEnd is inserted with the value of the breakpoint before it |
| IntervalMaps.SpliceShape | Interview/interval_map.cpp:31-53 | after the insert, the settling at keyEnd and the erase, the breakpoints are those below keyBegin, then (keyBegin, val), then the tail `SpliceTail` reads off the original map |
| IntervalMaps.SpliceSorted | Interview/interval_map.cpp:31-53 | the splice keeps the keys in strictly increasing order |
| IntervalMaps.StripDefault | Interview/interval_map.cpp:55-63 | exactly the longest run of leading breakpoints that carry the default is dropped; the result is a suffix of the input |
| IntervalMaps.MergeLast | Interview/interval_map.cpp:64-70 | the last breakpoint is dropped exactly when there are at least two and the last two carry the same value; nothing else changes |
| IntervalMaps.StripDefaultKeepsValues | Interview/interval_map.cpp:55-63 | dropping the leading default breakpoints changes the value at no key |
| IntervalMaps.MergeLastKeepsValues | Interview/interval_map.cpp:64-70 | dropping a last breakpoint that repeats its predecessor changes the value at no key |
| IntervalMaps.Tidy | Interview/interval_map.cpp:55-70 | after both clean-ups the keys are still in order and the first breakpoint does not carry the default |
| IntervalMaps.TidyKeepsLookup | Interview/interval_map.cpp:55-70 | the clean-ups change no lookup |
| IntervalMaps.AssignShape | Interview/interval_map.cpp:31-70 | a non-empty assign gives the clean-ups of: the breakpoints below keyBegin, then (keyBegin, val), then `SpliceTail`; that sequence is in key order |
| Breakpoints.LowerBound | Interview/interval_map.cpp:33 | `std::map::lower_bound`: every key before the result is below `k`, and every key from the result on is at least `k` |
| Breakpoints.UpperBound | Interview/interval_map.cpp:76 | `std::map::upper_bound`: every key before the result is at most `k`, and every key from the result on is above `k` |
| Breakpoints.InsertOrAssign | Interview/interval_map.cpp:31 | `insert_or_assign` stores `(k, v)` at the lower bound of `k`, replacing any entry under `k`; the keys stay in order |
| Breakpoints.Insert | Interview/interval_map.cpp:45-50 | `insert` leaves the map alone when `k` is stored, and otherwise places `(k, v)` at the lower bound; the keys stay in order |
| AssignLemmas.AssignLookup | Interview/interval_map.cpp:26-72 | after assign, every key reads `AssignedValue`, an independent per-key description from the map before the call that includes the two departures listed in Findings |
| AssignLemmas.AssignInside | Interview/interval_map.cpp:20-23 | every key in [keyBegin, keyEnd) reads `val` afterwards |
| AssignLemmas.AssignBelow | Interview/interval_map.cpp:20-23 | every key below keyBegin keeps its value |
| AssignLemmas.AssignPastStoredKey | Interview/interval_map.cpp:37-53 | from the first stored key at or above keyEnd upward, every key keeps its value |
| AssignLemmas.AssignCarriesValue | Interview/interval_map.cpp:48-53 | when some key lies strictly inside the interval and some key is stored at or above keyEnd, every key from keyEnd on keeps its value |
| AssignLemmas.NoKeyBetweenAfterAssign | Interview/interval_map.cpp:31-53 | after a non-empty assign, no key strictly between keyBegin and keyEnd is stored |
| AssignLemmas.AssignRunsToEnd | Interview/interval_map.cpp:33-36 | with no stored key at or above keyEnd, every key from keyBegin upward reads `val`, keyEnd and beyond included |
| AssignLemmas.AssignPullsNextBack | Interview/interval_map.cpp:40-47 | with nothing stored in (keyBegin, keyEnd] and a next key above keyEnd, every key from keyEnd to that next key reads the next key's value |
| Intended.AssignIntended | Interview/interval_map.cpp:20-25 | the corrected assign: an empty interval changes nothing; otherwise the keys stay in order and the first breakpoint does not repeat the default |
| Intended.AssignIntendedLookup | Interview/interval_map.cpp:20-25 | after the corrected assign, every key in [keyBegin, keyEnd) reads `val` and every other key keeps its old value |
| Intended.RunsToEndCounterexample | Interview/interval_map.cpp:34-36 | on an empty map with default 'A', assign(5, 9, 'C') makes key 9 read 'C', while the corrected assign leaves it at 'A' |
| Intended.PullsNextBackCounterexample | Interview/interval_map.cpp:43-47 | on {5: 'C', 10: 'B'}, assign(6, 7, 'D') makes key 7 read 'B' where it read 'C'; the corrected assign keeps 'C' |
| Render.NatToDec | Interview/interval_map.cpp:92 | a non-negative key is written as a non-empty run of decimal digits with no leading zero |
| Render.IntToDec | Interview/interval_map.cpp:92 | a key is written with a leading minus sign exactly when it is negative |
| Render.EntryLine | Interview/interval_map.cpp:92 | one breakpoint's line ends with its value and a newline |
| Render.RenderEntries | Interview/interval_map.cpp:91-93 | each breakpoint adds a line of at least five characters; ParseRender reads the text back to exactly these breakpoints, in order |
| Render.RenderEntriesConcat | Interview/interval_map.cpp:91-93 | the text of two runs of breakpoints, one after the other, is the first run's text followed by the second's, so the lines appear in the order of the breakpoints |
| Render.ToStr | Interview/interval_map.cpp:89-95 | the text is empty exactly when no breakpoint is stored |
| Render.ParseRender | Interview/interval_map.cpp:89-95 | parsing the text reads back exactly the breakpoints it was written from, in order |
| Render.ToStrInjective | Interview/interval_map.cpp:89-95 | two maps with the same text store the same breakpoints; only the default is not written |
| Scenarios.TestEmptyAssign5To5C | Interview/interval_map.cpp:106-109 | on a cleared map with default 'A', assign(5, 5, 'C') leaves to_str empty |
| Scenarios.TestEmptyAssign5To6A | Interview/interval_map.cpp:111-113 | on a cleared map with default 'A', assign(5, 6, 'A') leaves to_str empty |
| Scenarios.TestEmptyAssign5To6C | Interview/interval_map.cpp:115-117 | on a cleared map with default 'A', assign(5, 6, 'C') leaves to_str `"5->C\n"` |
| Scenarios.TestEmptyAssign5To7A | Interview/interval_map.cpp:119-121 | on a cleared map with default 'A', assign(5, 7, 'A') leaves to_str empty |
| Scenarios.TestEmptyAssign5To9C | Interview/interval_map.cpp:123-125 | on a cleared map with default 'A', assign(5, 9, 'C') leaves to_str `"5->C\n"` |
| Scenarios.TestC5Assign4To6A | Interview/interval_map.cpp:127-130 | on a cleared map with default 'A', assign(5, 7, 'C'), assign(4, 6, 'A') leaves to_str empty |
| Scenarios.TestC5Assign4To6B | Interview/interval_map.cpp:132-135 | on a cleared map with default 'A', assign(5, 7, 'C'), assign(4, 6, 'B') leaves to_str `"4->B\n"` |
| Scenarios.TestC5Assign1To4B | Interview/interval_map.cpp:137-140 | on a cleared map with default 'A', assign(5, 7, 'C'), assign(1, 4, 'B') leaves to_str `"1->B\n4->C\n"` |
| Scenarios.TestC5Assign1To1B | Interview/interval_map.cpp:142-145 | on a cleared map with default 'A', assign(5, 7, 'C'), assign(1, 1, 'B') leaves to_str `"5->C\n"` |
| Scenarios.TestC5Assign1To2B | Interview/interval_map.cpp:147-150 | on a cleared map with default 'A', assign(5, 7, 'C'), assign(1, 2, 'B') leaves to_str `"1->B\n2->C\n"` |
| Scenarios.TestC5Assign6To6B | Interview/interval_map.cpp:152-155 | on a cleared map with default 'A', assign(5, 10, 'C'), assign(6, 6, 'B') leaves to_str `"5->C\n"` |
| Scenarios.TestC5Assign6To7B | Interview/interval_map.cpp:157-160 | on a cleared map with default 'A', assign(5, 10, 'C'), assign(6, 7, 'B') leaves to_str `"5->C\n6->B\n"` |
| Scenarios.TestC5Assign5To7B | Interview/interval_map.cpp:162-165 | on a cleared map with default 'A', assign(5, 10, 'C'), assign(5, 7, 'B') leaves to_str `"5->B\n"` |
| Scenarios.TestC5Assign10To15B | Interview/interval_map.cpp:167-170 | on a cleared map with default 'A', assign(5, 10, 'C'), assign(10, 15, 'B') leaves to_str `"5->C\n10->B\n"` |
| Scenarios.TestC5B10Assign6To7D | Interview/interval_map.cpp:172-176 | on a cleared map with default 'A', assign(5, 10, 'C'), assign(10, 15, 'B'), assign(6, 7, 'D') leaves to_str `"5->C\n6->D\n7->B\n"` |
| Scenarios.TestC5B10Assign6To15D | Interview/interval_map.cpp:178-182 | on a cleared map with default 'A', assign(5, 10, 'C'), assign(10, 15, 'B'), assign(6, 15, 'D') leaves to_str `"5->C\n6->D\n"` |
| Scenarios.TestC5B10Assign6To10D | Interview/interval_map.cpp:184-188 | on a cleared map with default 'A', assign(5, 10, 'C'), assign(10, 15, 'B'), assign(6, 10, 'D') leaves to_str `"5->C\n6->D\n10->B\n"` |
| Scenarios.TestC5B10Assign6To11D | Interview/interval_map.cpp:190-194 | on a cleared map with default 'A', assign(5, 10, 'C'), assign(10, 15, 'B'), assign(6, 11, 'D') leaves to_str `"5->C\n6->D\n"` |
| Scenarios.TestC5B10Assign5To10D | Interview/interval_map.cpp:196-200 | on a cleared map with default 'A', assign(5, 10, 'C'), assign(10, 15, 'B'), assign(5, 10, 'D') leaves to_str `"5->D\n10->B\n"` |
| Scenarios.TestC5B10Assign5To11D | Interview/interval_map.cpp:202-206 | on a cleared map with default 'A', assign(5, 10, 'C'), assign(10, 15, 'B'), assign(5, 11, 'D') leaves to_str `"5->D\n"` |
| Scenarios.TestC5B10Assign10To11D | Interview/interval_map.cpp:208-212 | on a cleared map with default 'A', assign(5, 10, 'C'), assign(10, 15, 'B'), assign(10, 11, 'D') leaves to_str `"5->C\n10->D\n"` |
| Scenarios.TestC5B10Assign11To11D | Interview/interval_map.cpp:214-218 | on a cleared map with default 'A', assign(5, 10, 'C'), assign(10, 15, 'B'), assign(11, 11, 'D') leaves to_str `"5->C\n10->B\n"` |
| Scenarios.TestC5B10Assign11To15B | Interview/interval_map.cpp:220-224 | on a cleared map with default 'A', assign(5, 10, 'C'), assign(10, 15, 'B'), assign(11, 15, 'B') leaves to_str `"5->C\n10->B\n"` |
| Scenarios.TestC5B10Assign11To15D | Interview/interval_map.cpp:226-230 | on a cleared map with default 'A', assign(5, 10, 'C'), assign(10, 15, 'B'), assign(11, 15, 'D') leaves to_str `"5->C\n10->B\n11->D\n"` |
| Scenarios.TestC5B10Assign4To5D | Interview/interval_map.cpp:232-236 | on a cleared map with default 'A', assign(5, 10, 'C'), assign(10, 15, 'B'), assign(4, 5, 'D') leaves to_str `"4->D\n5->C\n10->B\n"` |
| Scenarios.TestC5B10Assign1To4D | Interview/interval_map.cpp:238-242 | on a cleared map with default 'A', assign(5, 10, 'C'), assign(10, 15, 'B'), assign(1, 4, 'D') leaves to_str `"1->D\n4->C\n10->B\n"` |
| Scenarios.TestC5B10D15Assign4To20E | Interview/interval_map.cpp:244-249 | on a cleared map with default 'A', assign(5, 10, 'C'), assign(10, 15, 'B'), assign(15, 20, 'D'), assign(4, 20, 'E') leaves to_str `"4->E\n"` |
| Scenarios.TestC5B10D15Assign4To15E | Interview/interval_map.cpp:251-256 | on a cleared map with default 'A', assign(5, 10, 'C'), assign(10, 15, 'B'), assign(15, 20, 'D'), assign(4, 15, 'E') leaves to_str `"4->E\n15->D\n"` |
| Scenarios.TestC5B10D15Assign4To16E | Interview/interval_map.cpp:258-263 | on a cleared map with default 'A', assign(5, 10, 'C'), assign(10, 15, 'B'), assign(15, 20, 'D'), assign(4, 16, 'E') leaves to_str `"4->E\n"` |
| Scenarios.TestC5B10D15Assign4To10E | Interview/interval_map.cpp:265-270 | on a cleared map with default 'A', assign(5, 10, 'C'), assign(10, 15, 'B'), assign(15, 20, 'D'), assign(4, 10, 'E') leaves to_str `"4->E\n10->B\n15->D\n"` |
| Scenarios.TestC5B10D15Assign4To11E | Interview/interval_map.cpp:272-277 | on a cleared map with default 'A', assign(5, 10, 'C'), assign(10, 15, 'B'), assign(15, 20, 'D'), assign(4, 11, 'E') leaves to_str `"4->E\n11->B\n15->D\n"` |

## Left out

- Keys are fixed to `int`. The model needs only the strict order of `K`, but
  fixing the type keeps the decimal writing of `to_str` concrete.
- `to_str` is modelled only for `V = char`. `ss << v` for other value types
  is not part of this model.
- Dafny's `char` is a Unicode scalar value, while C++'s `char` is a byte.
  The tests use only ASCII letters, for which the two agree.
- `std::map` is modelled as a sequence of entries in strictly increasing key
  order, and positions in it stand in for iterators. Tree balancing,
  allocation and the logarithmic cost of its operations are not modelled.
- `std::stringstream` is modelled only for what line 92 writes: the decimal
  form of an `int` and a single `char`.
- `main`, the `friend` declaration and the C `assert` calls of the test
  function are left out. Each check in the test becomes a lemma that states
  the text the check compares against.
- `operator[]` returns a reference. The model returns the value.
- Canonical form is not asserted, because the code does not keep it.
  Canonical form here means that no two adjacent breakpoints carry equal
  values. The clean-ups at lines 55-70 look only at the leading breakpoints
  and the last two. So on `{5: 'C', 10: 'B'}`, `assign(6, 7, 'C')` leaves
  `{5: 'C', 6: 'C', 7: 'B'}`.
- Idempotence of `assign` is not asserted, because the code does not have it. On
  `{3: 'B', 10: 'A', 20: 'C'}` with default 'A', one `assign(3, 10, 'A')`
  leaves `{20: 'C'}`. A second identical call leaves `{10: 'C'}`.
- The promise of the comment at lines 20-23, that `assign` overwrites only
  `[keyBegin, keyEnd)`, does not hold for this code; see Findings. The model
  follows the code, and the tests at lines 103-277 expect the code's
  results. `AssignLookup` states exactly what the code does at every key.
  `AssignIntendedLookup` proves the promise for the corrected `assign`.

## Findings

| source | as written | input that shows it | evidently intended | confidence | as-written member | corrected member |
|---|---|---|---|---|---|---|
| Interview/interval_map.cpp:34-36 | when no key at or above keyEnd is stored, no breakpoint is placed at keyEnd, so `val` runs on past keyEnd to every larger key | empty map with default 'A', `assign(5, 9, 'C')`: key 9 reads 'C' (the test at lines 123-125 expects exactly `5->C`) | keys at or above keyEnd keep their value, so a breakpoint (9, 'A') is added | high (proved in the model; not executed) | AssignLemmas.AssignRunsToEnd, Intended.RunsToEndCounterexample | Intended.AssignIntended, Intended.AssignIntendedLookup |
| Interview/interval_map.cpp:43-47 | when nothing is stored in (keyBegin, keyEnd] and a key above keyEnd is, that next breakpoint's value is moved back to keyEnd, so keys from keyEnd up to it change value | `{5: 'C', 10: 'B'}` with default 'A', `assign(6, 7, 'D')`: key 7 read 'C' before and reads 'B' after (the test at lines 172-176 expects `5->C 6->D 7->B`) | keyEnd takes the value in force just before it, which is 'C', and the breakpoint at 10 stays | high (proved in the model; not executed) | AssignLemmas.AssignPullsNextBack, Intended.PullsNextBackCounterexample | Intended.AssignIntended, Intended.AssignIntendedLookup |

The tests in the file fix the as-written behaviour. `Assign` therefore
remains the model of `assign`, and the `Scenarios` lemmas use it.
`AssignIntended` is the corrected definition, and its lookup lemma proves
the half-open interval promise of lines 20-25.
