/**
 assign as its own comment describes it (lines 20-25 of interval_map.cpp):
 [keyBegin, keyEnd) reads `val` afterwards and every other key keeps its
 value. The C++ code departs from this in two branches (see README.md,
 Findings); AssignIntended is the corrected definition, and the two
 counterexample lemmas exhibit each departure of Assign on a concrete map.
 */
module Intended {
  import opened Breakpoints
  import opened IntervalMaps
  import opened AssignLemmas
  import opened SeqFacts

  /**
   What follows (keyBegin, val) after the corrected splice: from keyEnd on the
   original breakpoints, behind a breakpoint at keyEnd carrying `endVal` when
   keyEnd is not stored yet.
   */
  function IntendedTail<V>(s: seq<Entry<V>>, keyEnd: int, endVal: V): (r: seq<Entry<V>>)
    requires Sorted(s)
    ensures Sorted(r)
    ensures forall i | 0 <= i < |r| :: keyEnd <= r[i].key
    ensures |r| > 0 && r[0].key == keyEnd
  {
    var j := LowerBound(s, keyEnd);
    SortedFrom(s, j, Entry(keyEnd, endVal));
    if j < |s| && s[j].key == keyEnd then
      s[j..]
    else
      UpperBoundAfterLowerBound(s, keyEnd);
      [Entry(keyEnd, endVal)] + s[j..]
  }

  /**
   The corrected lines 31-53: place keyBegin with insert_or_assign, then
   insert keyEnd with the value `endVal` read at keyEnd BEFORE the call (a
   no-op when keyEnd is stored), then erase everything strictly between.
   */
  function SpliceIntended<V>(s: seq<Entry<V>>, keyBegin: int, keyEnd: int, val: V, endVal: V): seq<Entry<V>>
    requires Sorted(s)
    requires keyBegin < keyEnd
  {
    var placed := InsertOrAssign(s, keyBegin, val);
    FindEnd(s, keyBegin, keyEnd, val);
    var ended := Insert(placed.0, keyEnd, endVal);
    ended.0[..placed.1 + 1] + ended.0[ended.1..]
  }

  /** The corrected splice, read off the original breakpoints. */
  lemma SpliceIntendedShape<V>(s: seq<Entry<V>>, keyBegin: int, keyEnd: int, val: V, endVal: V)
    requires Sorted(s)
    requires keyBegin < keyEnd
    ensures SpliceIntended(s, keyBegin, keyEnd, val, endVal)
            == s[..LowerBound(s, keyBegin)] + [Entry(keyBegin, val)] + IntendedTail(s, keyEnd, endVal)
  {
    var p := LowerBound(s, keyBegin);
    var placed := InsertOrAssign(s, keyBegin, val).0;
    EndedFacts(s, keyBegin, keyEnd, val, endVal, placed, p, UpperBound(s, keyBegin), LowerBound(s, keyEnd));
    var ended := Insert(placed, keyEnd, endVal);
    Reassemble(SpliceIntended(s, keyBegin, keyEnd, val, endVal), ended.0, s, p, ended.1, 0,
               Entry(keyBegin, val), IntendedTail(s, keyEnd, endVal));
  }

  /** After the insert at keyEnd: the part up to keyBegin, and the part from keyEnd on. */
  lemma EndedFacts<V>(s: seq<Entry<V>>, keyBegin: int, keyEnd: int, val: V, endVal: V,
                      placed: seq<Entry<V>>, p: nat, a: nat, j: nat)
    requires Sorted(s)
    requires keyBegin < keyEnd
    requires placed == InsertOrAssign(s, keyBegin, val).0
    requires p == LowerBound(s, keyBegin) && a == UpperBound(s, keyBegin) && j == LowerBound(s, keyEnd)
    ensures var ended := Insert(placed, keyEnd, endVal);
            && p < ended.1 <= |ended.0|
            && ended.0[..p + 1] == s[..p] + [Entry(keyBegin, val)]
            && ended.0[ended.1..] == IntendedTail(s, keyEnd, endVal)
  {
    var e := p + 1 + (j - a);
    PlacedFacts(s, keyBegin, keyEnd, val, placed, p, a, j, e);
    HasKeyAtLowerBound(placed, keyEnd);
    var ended := Insert(placed, keyEnd, endVal);
    if j < |s| && s[j].key == keyEnd {
      assert placed[e] == placed[e..][0] == s[j];
    } else {
      assert e < |placed| ==> placed[e] == placed[e..][0] == s[j];
      AroundPlaced(ended.0, placed, e, Entry(keyEnd, endVal), placed[e..], p);
    }
  }

  /** The corrected splice keeps the breakpoints in key order. */
  lemma SpliceIntendedSorted<V>(s: seq<Entry<V>>, keyBegin: int, keyEnd: int, val: V, endVal: V)
    requires Sorted(s)
    requires keyBegin < keyEnd
    ensures Sorted(SpliceIntended(s, keyBegin, keyEnd, val, endVal))
  {
    var p := LowerBound(s, keyBegin);
    SpliceIntendedShape(s, keyBegin, keyEnd, val, endVal);
    BelowLowerBound(s, keyBegin);
    SortedPrefix(s, p);
    SortedJoin(s[..p], Entry(keyBegin, val), IntendedTail(s, keyEnd, endVal));
  }

  /** Corrected assign: the interval reads `val`, every other key keeps its value. */
  function AssignIntended<V(==)>(m: IntervalMap<V>, keyBegin: int, keyEnd: int, val: V): (r: IntervalMap<V>)
    requires Sorted(m.entries)
    ensures Valid(r) || (!(keyBegin < keyEnd) && r == m)
    ensures r.valBegin == m.valBegin && Sorted(r.entries)
    ensures !(keyBegin < keyEnd) ==> r == m
  {
    if !(keyBegin < keyEnd) then
      m
    else
      SpliceIntendedSorted(m.entries, keyBegin, keyEnd, val, Lookup(m, keyEnd));
      var t := SpliceIntended(m.entries, keyBegin, keyEnd, val, Lookup(m, keyEnd));
      IntervalMap(m.valBegin, Tidy(t, m.valBegin))
  }

  /** The half-open interval promise of lines 20-25, for the corrected assign. */
  lemma AssignIntendedLookup<V>(m: IntervalMap<V>, keyBegin: int, keyEnd: int, val: V, k: int)
    requires Sorted(m.entries)
    ensures Lookup(AssignIntended(m, keyBegin, keyEnd, val), k)
            == if keyBegin <= k < keyEnd then val else Lookup(m, k)
  {
    if keyBegin < keyEnd {
      var endVal := Lookup(m, keyEnd);
      var t := SpliceIntended(m.entries, keyBegin, keyEnd, val, endVal);
      SpliceIntendedSorted(m.entries, keyBegin, keyEnd, val, endVal);
      TidyKeepsLookup(t, m.valBegin, k);
      LookupIsValueAt(IntervalMap(m.valBegin, t), k);
      SpliceIntendedValue(m, keyBegin, keyEnd, val, k);
    }
  }

  /** The corrected splice, read with the default, at every key. */
  lemma SpliceIntendedValue<V>(m: IntervalMap<V>, keyBegin: int, keyEnd: int, val: V, k: int)
    requires Sorted(m.entries)
    requires keyBegin < keyEnd
    ensures ValueAt(SpliceIntended(m.entries, keyBegin, keyEnd, val, Lookup(m, keyEnd)), m.valBegin, k)
            == if keyBegin <= k < keyEnd then val else Lookup(m, k)
  {
    var s := m.entries;
    var d := m.valBegin;
    var endVal := Lookup(m, keyEnd);
    var p := LowerBound(s, keyBegin);
    var tail := IntendedTail(s, keyEnd, endVal);
    SpliceIntendedShape(s, keyBegin, keyEnd, val, endVal);
    BelowLowerBound(s, keyBegin);
    LookupIsValueAt(m, k);
    ShapeValue(s[..p], Entry(keyBegin, val), tail, d, k);
    if k < keyBegin {
      ValueAtCut(s, p, d, k);
    } else if k < keyEnd {
      ValueAtAllAbove(tail, val, k);
    } else {
      IntendedTailValue(m, keyEnd, k);
    }
  }

  /** At or above keyEnd the corrected tail reads as the original map. */
  lemma IntendedTailValue<V>(m: IntervalMap<V>, keyEnd: int, k: int)
    requires Sorted(m.entries)
    requires keyEnd <= k
    ensures ValueAt(IntendedTail(m.entries, keyEnd, Lookup(m, keyEnd)), Lookup(m, keyEnd), k) == Lookup(m, k)
  {
    var s := m.entries;
    var d := m.valBegin;
    var endVal := Lookup(m, keyEnd);
    var tail := IntendedTail(s, keyEnd, endVal);
    var j := LowerBound(s, keyEnd);
    LookupIsValueAt(m, k);
    ValueAtSplit(s, j, d, k);
    var w := ValueAt(s[..j], d, k);
    if j < |s| && s[j].key == keyEnd {
      assert s[j..][0] == s[j];
      ValueAtFirstPassed(s[j..], endVal, w, k);
    } else {
      assert tail[1..] == s[j..];
      ValueAtFirstPassed(tail, endVal, endVal, k);
      ValueBeforeEnd(m, keyEnd, k, j);
    }
  }

  /**
   When keyEnd is not stored, the value read at keyEnd is the value the
   entries below keyEnd leave in force at any key at or above keyEnd.
   */
  lemma ValueBeforeEnd<V>(m: IntervalMap<V>, keyEnd: int, k: int, j: nat)
    requires Sorted(m.entries)
    requires keyEnd <= k
    requires j == LowerBound(m.entries, keyEnd) && !(j < |m.entries| && m.entries[j].key == keyEnd)
    ensures Lookup(m, keyEnd) == ValueAt(m.entries[..j], m.valBegin, k)
  {
    var s := m.entries;
    LookupIsValueAt(m, keyEnd);
    ValueAtCut(s, j, m.valBegin, keyEnd);
    forall i | 0 <= i < |s[..j]| ensures s[..j][i].key <= keyEnd && s[..j][i].key <= k {
      assert s[..j][i] == s[i];
    }
    ValueAtPastAll(s[..j], m.valBegin, keyEnd, k);
  }

  /**
   The value leak of lines 34-36, shown on the test at lines 124-125: on an
   empty map with default 'A', assign(5, 9, 'C') also gives 'C' to key 9,
   which lies outside [5, 9); the corrected assign leaves it at 'A'.
   */
  lemma RunsToEndCounterexample()
    ensures Lookup(Assign(New('A'), 5, 9, 'C'), 9) == 'C'
    ensures Lookup(AssignIntended(New('A'), 5, 9, 'C'), 9) == 'A'
  {
    AssignRunsToEnd(New('A'), 5, 9, 'C', 9);
    AssignIntendedLookup(New('A'), 5, 9, 'C', 9);
  }

  /**
   The pull-back of lines 43-47, shown on the test at lines 172-176: with
   breakpoints {5: 'C', 10: 'B'}, assign(6, 7, 'D') makes key 7 read 'B',
   the value that starts at 10, where it read 'C' before; the corrected
   assign keeps 'C'.
   */
  lemma PullsNextBackCounterexample()
    ensures var m := IntervalMap('A', [Entry(5, 'C'), Entry(10, 'B')]);
            Lookup(m, 7) == 'C'
            && Lookup(Assign(m, 6, 7, 'D'), 7) == 'B'
            && Lookup(AssignIntended(m, 6, 7, 'D'), 7) == 'C'
  {
    var m := IntervalMap('A', [Entry(5, 'C'), Entry(10, 'B')]);
    AssignPullsNextBack(m, 6, 7, 'D', 1, 7);
    AssignIntendedLookup(m, 6, 7, 'D', 7);
  }
}
