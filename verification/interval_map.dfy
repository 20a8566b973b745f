/**
 interval_map<int, V>: a default value that holds below the first breakpoint,
 and the ordered breakpoints themselves. `Assign` follows the branches of the
 C++ assign one for one; `Lookup` is operator[].
 */
module IntervalMaps {
  import opened Breakpoints
  import opened SeqFacts

  /** m_valBegin and m_map. */
  datatype IntervalMap<V> = IntervalMap(valBegin: V, entries: seq<Entry<V>>)

  /**
   What the public operations keep: the map's key order, and a first breakpoint
   whose value is not the default (the leading clean-up of assign ensures it).
   */
  predicate Valid<V(==)>(m: IntervalMap<V>) {
    Sorted(m.entries) && (|m.entries| > 0 ==> m.entries[0].val != m.valBegin)
  }

  /** The constructor: the whole key range carries `val`. */
  function New<V(==)>(val: V): (m: IntervalMap<V>)
    ensures Valid(m) && m.valBegin == val
    ensures forall k :: Lookup(m, k) == val
  {
    IntervalMap(val, [])
  }

  /**
   operator[]: step back from the upper bound of `key`; at the first position
   the default answers.
   */
  function Lookup<V>(m: IntervalMap<V>, key: int): (r: V)
    requires Sorted(m.entries)
    ensures (forall i | 0 <= i < |m.entries| :: key < m.entries[i].key) ==> r == m.valBegin
    ensures forall i | 0 <= i < |m.entries| && m.entries[i].key <= key
                       && (i + 1 == |m.entries| || key < m.entries[i + 1].key) ::
              r == m.entries[i].val
  {
    var u := UpperBound(m.entries, key);
    if u == 0 then m.valBegin else m.entries[u - 1].val
  }

  /** operator[] agrees with the left-to-right reading of the breakpoints. */
  lemma LookupIsValueAt<V>(m: IntervalMap<V>, k: int)
    requires Sorted(m.entries)
    ensures Lookup(m, k) == ValueAt(m.entries, m.valBegin, k)
  {
    var u := UpperBound(m.entries, k);
    if u > 0 {
      ValueAtGreatest(m.entries, m.valBegin, k, u - 1);
    }
  }

  /** clear: drops every breakpoint and keeps the default. */
  function Clear<V(==)>(m: IntervalMap<V>): (r: IntervalMap<V>)
    ensures Valid(r) && r.valBegin == m.valBegin
    ensures forall k :: Lookup(r, k) == m.valBegin
  {
    IntervalMap(m.valBegin, [])
  }

  /**
   Lines 33-52 of assign: with keyBegin stored at position `b` of `placed`,
   settle the breakpoint at keyEnd. Returns the map and the position of
   end_range, which lies after b (so the step back at line 42 is valid).
   Everything up to keyBegin is left alone, and end_range, unless it is the
   end, points at a breakpoint stored under keyEnd.
   */
  function SettleEnd<V>(placed: seq<Entry<V>>, b: nat, keyBegin: int, keyEnd: int): (r: (seq<Entry<V>>, nat))
    requires Sorted(placed)
    requires b < |placed| && placed[b].key == keyBegin < keyEnd
    ensures b < r.1 <= |r.0|
    ensures r.0[..b + 1] == placed[..b + 1]
    ensures r.1 < |r.0| ==> r.0[r.1].key == keyEnd
  {
    var e := LowerBound(placed, keyEnd);
    if e == |placed| then
      (placed, e)
    else if placed[e].key == keyEnd then
      (placed, e)
    else if placed[e - 1].key == keyBegin then
      // keyEnd takes the value of the breakpoint after it, which is then erased
      var inserted := Insert(placed, keyEnd, placed[e].val);
      (inserted.0[..inserted.1 + 1] + inserted.0[inserted.1 + 2..], inserted.1)
    else
      // keyEnd takes the value of the breakpoint before it
      Insert(placed, keyEnd, placed[e - 1].val)
  }

  /**
   Lines 31-53 of assign, for keyBegin < keyEnd: insert_or_assign at keyBegin,
   settle keyEnd, then erase everything strictly between the two. The entries
   below keyBegin are kept, (keyBegin, val) follows them, and after it comes
   keyEnd or nothing.
   */
  function Splice<V>(s: seq<Entry<V>>, keyBegin: int, keyEnd: int, val: V): (r: seq<Entry<V>>)
    requires Sorted(s)
    requires keyBegin < keyEnd
    ensures var p := LowerBound(s, keyBegin);
            && p < |r| && r[..p] == s[..p] && r[p] == Entry(keyBegin, val)
            && (p + 1 < |r| ==> r[p + 1].key == keyEnd)
  {
    var placed := InsertOrAssign(s, keyBegin, val);
    var settled := SettleEnd(placed.0, placed.1, keyBegin, keyEnd);
    assert placed.0[..placed.1 + 1] == s[..placed.1] + [Entry(keyBegin, val)];
    settled.0[..placed.1 + 1] + settled.0[settled.1..]
  }

  /** Lines 33-36: SettleEnd leaves the breakpoints alone when no key at or above keyEnd is stored. */
  lemma SettleEndNone<V>(placed: seq<Entry<V>>, b: nat, keyBegin: int, keyEnd: int)
    requires Sorted(placed)
    requires b < |placed| && placed[b].key == keyBegin < keyEnd
    requires LowerBound(placed, keyEnd) == |placed|
    ensures SettleEnd(placed, b, keyBegin, keyEnd) == (placed, |placed|)
  {
  }

  /**
   Lines 43-47: keyEnd is not stored and the breakpoint after it directly
   follows keyBegin; that breakpoint is replaced by one at keyEnd with its value.
   */
  lemma SettleEndPull<V>(placed: seq<Entry<V>>, b: nat, keyBegin: int, keyEnd: int)
    requires Sorted(placed)
    requires b < |placed| && placed[b].key == keyBegin < keyEnd
    requires var e := LowerBound(placed, keyEnd); e == b + 1 && e < |placed| && keyEnd < placed[e].key
    ensures SettleEnd(placed, b, keyBegin, keyEnd)
            == (placed[..b + 1] + [Entry(keyEnd, placed[b + 1].val)] + placed[b + 2..], b + 1)
  {
    var e := b + 1;
    assert !HasKey(placed, keyEnd);
    InsertThenEraseNext(placed, e, Entry(keyEnd, placed[e].val));
  }

  /**
   Lines 48-51: keyEnd is not stored and some breakpoint lies between keyBegin
   and it; keyEnd is inserted with the value of the breakpoint before it.
   */
  lemma SettleEndCarry<V>(placed: seq<Entry<V>>, b: nat, keyBegin: int, keyEnd: int)
    requires Sorted(placed)
    requires b < |placed| && placed[b].key == keyBegin < keyEnd
    requires var e := LowerBound(placed, keyEnd); b + 1 < e < |placed| && keyEnd < placed[e].key
    ensures var e := LowerBound(placed, keyEnd);
            SettleEnd(placed, b, keyBegin, keyEnd) == (placed[..e] + [Entry(keyEnd, placed[e - 1].val)] + placed[e..], e)
  {
    var e := LowerBound(placed, keyEnd);
    assert !HasKey(placed, keyEnd);
    assert placed[e - 1].key != keyBegin;
  }

  /** SettleEnd leaves the breakpoints alone when keyEnd is already stored. */
  lemma SettleEndHit<V>(placed: seq<Entry<V>>, b: nat, keyBegin: int, keyEnd: int, e: nat)
    requires Sorted(placed)
    requires b < |placed| && placed[b].key == keyBegin < keyEnd
    requires e == LowerBound(placed, keyEnd) && e < |placed| && placed[e].key == keyEnd
    ensures SettleEnd(placed, b, keyBegin, keyEnd) == (placed, e)
  {
  }

  /**
   After keyBegin has been placed, lower_bound(keyEnd) lands just past the
   stored keys strictly between keyBegin and keyEnd.
   */
  lemma FindEnd<V>(s: seq<Entry<V>>, keyBegin: int, keyEnd: int, val: V)
    requires Sorted(s)
    requires keyBegin < keyEnd
    ensures var p := LowerBound(s, keyBegin); var a := UpperBound(s, keyBegin);
            var j := LowerBound(s, keyEnd);
            && p <= a <= j
            && LowerBound(InsertOrAssign(s, keyBegin, val).0, keyEnd) == p + 1 + (j - a)
  {
    var p := LowerBound(s, keyBegin);
    var a := UpperBound(s, keyBegin);
    var j := LowerBound(s, keyEnd);
    UpperBoundAfterLowerBound(s, keyBegin);
    BoundsOrdered(s, keyBegin, keyEnd);
    var placed := InsertOrAssign(s, keyBegin, val).0;
    var e := p + 1 + (j - a);
    forall i | 0 <= i < e
      ensures placed[i].key < keyEnd
    {
      if i < p {
        assert placed[i] == s[i];
      } else if p < i {
        assert placed[i] == s[a + (i - p - 1)];
      }
    }
    forall i | e <= i < |placed|
      ensures keyEnd <= placed[i].key
    {
      assert placed[i] == s[a + (i - p - 1)];
    }
    LowerBoundUnique(placed, keyEnd, e);
  }

  /**
   What follows (keyBegin, val) once Splice is done, read off the original
   breakpoints `s`, by the first stored key at or above keyEnd: nothing when
   there is none; the untouched rest when it is keyEnd itself; otherwise a
   breakpoint at keyEnd that carries the value in force just before keyEnd
   when some key lies strictly between keyBegin and keyEnd, and the value of
   that next breakpoint, which it replaces, when none does.
   */
  function SpliceTail<V>(s: seq<Entry<V>>, keyBegin: int, keyEnd: int): (r: seq<Entry<V>>)
    requires Sorted(s)
    requires keyBegin < keyEnd
    ensures Sorted(r)
    ensures forall i | 0 <= i < |r| :: keyEnd <= r[i].key
  {
    var j := LowerBound(s, keyEnd);
    BoundsOrdered(s, keyBegin, keyEnd);
    if j == |s| then
      []
    else if s[j].key == keyEnd then
      SortedFrom(s, j, Entry(keyEnd, s[j].val));
      s[j..]
    else if UpperBound(s, keyBegin) == j then
      SortedFrom(s, j + 1, Entry(keyEnd, s[j].val));
      [Entry(keyEnd, s[j].val)] + s[j + 1..]
    else
      SortedFrom(s, j, Entry(keyEnd, s[j - 1].val));
      [Entry(keyEnd, s[j - 1].val)] + s[j..]
  }

  /**
   Splice, step by step as the C++ code does it, agrees with the shape read off
   the original breakpoints: the entries below keyBegin, (keyBegin, val), then
   the tail.
   */
  lemma SpliceShape<V>(s: seq<Entry<V>>, keyBegin: int, keyEnd: int, val: V)
    requires Sorted(s)
    requires keyBegin < keyEnd
    ensures Splice(s, keyBegin, keyEnd, val)
            == s[..LowerBound(s, keyBegin)] + [Entry(keyBegin, val)] + SpliceTail(s, keyBegin, keyEnd)
  {
    var a := UpperBound(s, keyBegin);
    var j := LowerBound(s, keyEnd);
    BoundsOrdered(s, keyBegin, keyEnd);
    if j == |s| {
      SpliceNoEnd(s, keyBegin, keyEnd, val);
    } else if s[j].key == keyEnd {
      SpliceHitEnd(s, keyBegin, keyEnd, val);
    } else if a == j {
      SplicePullBack(s, keyBegin, keyEnd, val);
    } else {
      SpliceCarry(s, keyBegin, keyEnd, val);
    }
  }

  /** Splice keeps the breakpoints in key order. */
  lemma SpliceSorted<V>(s: seq<Entry<V>>, keyBegin: int, keyEnd: int, val: V)
    requires Sorted(s)
    requires keyBegin < keyEnd
    ensures Sorted(Splice(s, keyBegin, keyEnd, val))
  {
    SpliceShape(s, keyBegin, keyEnd, val);
    var p := LowerBound(s, keyBegin);
    SortedJoin(s[..p], Entry(keyBegin, val), SpliceTail(s, keyBegin, keyEnd));
  }

  /**
   The breakpoints after insert_or_assign at keyBegin, read against the
   original ones: the same up to keyBegin, and from the lower bound `e` of
   keyEnd on, the same as from the lower bound `j` of keyEnd in `s`.
   */
  lemma PlacedFacts<V>(s: seq<Entry<V>>, keyBegin: int, keyEnd: int, val: V,
                       placed: seq<Entry<V>>, p: nat, a: nat, j: nat, e: nat)
    requires Sorted(s)
    requires keyBegin < keyEnd
    requires placed == InsertOrAssign(s, keyBegin, val).0
    requires p == LowerBound(s, keyBegin) && a == UpperBound(s, keyBegin) && j == LowerBound(s, keyEnd)
    requires e == p + 1 + (j - a)
    ensures Sorted(placed) && p < |placed| && placed[p].key == keyBegin
    ensures p <= a <= j && e <= |placed| && |placed| - e == |s| - j
    ensures LowerBound(placed, keyEnd) == e
    ensures placed[..p + 1] == s[..p] + [Entry(keyBegin, val)]
    ensures placed[e..] == s[j..]
    ensures a < j ==> placed[e - 1] == s[j - 1]
  {
    FindEnd(s, keyBegin, keyEnd, val);
    Replaced(placed, s, p, Entry(keyBegin, val), a, e, j);
  }

  /**
   Line 53's erase, once SettleEnd is known to leave (keyBegin, val) at `p`
   after the untouched entries below keyBegin, and `tail` from end_range on.
   */
  lemma SpliceFrom<V>(s: seq<Entry<V>>, keyBegin: int, keyEnd: int, val: V, p: nat, tail: seq<Entry<V>>)
    requires Sorted(s)
    requires keyBegin < keyEnd
    requires p == LowerBound(s, keyBegin)
    requires var settled := SettleEnd(InsertOrAssign(s, keyBegin, val).0, p, keyBegin, keyEnd);
             && settled.0[..p + 1] == s[..p] + [Entry(keyBegin, val)]
             && settled.0[settled.1..] == tail
    ensures Splice(s, keyBegin, keyEnd, val) == s[..p] + [Entry(keyBegin, val)] + tail
  {
    var settled := SettleEnd(InsertOrAssign(s, keyBegin, val).0, p, keyBegin, keyEnd);
    SpliceUnfold(s, keyBegin, keyEnd, val);
    Reassemble(Splice(s, keyBegin, keyEnd, val), settled.0, s, p, settled.1, 0, Entry(keyBegin, val), tail);
  }

  /** Line 34: no stored key at or above keyEnd. */
  lemma SpliceNoEnd<V>(s: seq<Entry<V>>, keyBegin: int, keyEnd: int, val: V)
    requires Sorted(s)
    requires keyBegin < keyEnd
    requires LowerBound(s, keyEnd) == |s|
    ensures Splice(s, keyBegin, keyEnd, val) == s[..LowerBound(s, keyBegin)] + [Entry(keyBegin, val)] + []
  {
    var p := LowerBound(s, keyBegin);
    var a := UpperBound(s, keyBegin);
    var e := p + 1 + (|s| - a);
    var placed := InsertOrAssign(s, keyBegin, val).0;
    PlacedFacts(s, keyBegin, keyEnd, val, placed, p, a, |s|, e);
    SettleEndNone(placed, p, keyBegin, keyEnd);
    SpliceFrom(s, keyBegin, keyEnd, val, p, []);
  }

  /** Line 37: keyEnd is already stored. */
  lemma SpliceHitEnd<V>(s: seq<Entry<V>>, keyBegin: int, keyEnd: int, val: V)
    requires Sorted(s)
    requires keyBegin < keyEnd
    requires var j := LowerBound(s, keyEnd); j < |s| && s[j].key == keyEnd
    ensures var j := LowerBound(s, keyEnd);
            Splice(s, keyBegin, keyEnd, val) == s[..LowerBound(s, keyBegin)] + [Entry(keyBegin, val)] + s[j..]
  {
    var p := LowerBound(s, keyBegin);
    var j := LowerBound(s, keyEnd);
    var a := UpperBound(s, keyBegin);
    var e := p + 1 + (j - a);
    var placed := InsertOrAssign(s, keyBegin, val).0;
    PlacedFacts(s, keyBegin, keyEnd, val, placed, p, a, j, e);
    assert placed[e] == placed[e..][0] == s[j..][0] == s[j];
    SettleEndHit(placed, p, keyBegin, keyEnd, e);
    SpliceFrom(s, keyBegin, keyEnd, val, p, s[j..]);
  }

  /** Lines 43-47: nothing stored strictly between keyBegin and keyEnd, a key above keyEnd. */
  lemma SplicePullBack<V>(s: seq<Entry<V>>, keyBegin: int, keyEnd: int, val: V)
    requires Sorted(s)
    requires keyBegin < keyEnd
    requires var j := LowerBound(s, keyEnd); j < |s| && keyEnd < s[j].key
    requires UpperBound(s, keyBegin) == LowerBound(s, keyEnd)
    ensures var j := LowerBound(s, keyEnd);
            Splice(s, keyBegin, keyEnd, val) == s[..LowerBound(s, keyBegin)] + [Entry(keyBegin, val)] + ([Entry(keyEnd, s[j].val)] + s[j + 1..])
  {
    var p := LowerBound(s, keyBegin);
    var j := LowerBound(s, keyEnd);
    SettledPullBack(s, keyBegin, keyEnd, val, InsertOrAssign(s, keyBegin, val).0, p, j);
    SpliceFrom(s, keyBegin, keyEnd, val, p, [Entry(keyEnd, s[j].val)] + s[j + 1..]);
  }

  /** SettleEnd in the case of SplicePullBack, against the original breakpoints. */
  lemma SettledPullBack<V>(s: seq<Entry<V>>, keyBegin: int, keyEnd: int, val: V, placed: seq<Entry<V>>, p: nat, j: nat)
    requires Sorted(s)
    requires keyBegin < keyEnd
    requires placed == InsertOrAssign(s, keyBegin, val).0
    requires p == LowerBound(s, keyBegin) && j == LowerBound(s, keyEnd)
    requires j < |s| && keyEnd < s[j].key
    requires UpperBound(s, keyBegin) == j
    ensures var settled := SettleEnd(placed, p, keyBegin, keyEnd);
            && settled.0[..p + 1] == s[..p] + [Entry(keyBegin, val)]
            && settled.0[settled.1..] == [Entry(keyEnd, s[j].val)] + s[j + 1..]
  {
    var e := p + 1;
    PlacedFacts(s, keyBegin, keyEnd, val, placed, p, j, j, e);
    assert placed[e] == placed[e..][0];
    assert placed[e + 1..] == placed[e..][1..];
    SettleEndPull(placed, p, keyBegin, keyEnd);
    var settled := SettleEnd(placed, p, keyBegin, keyEnd);
    AroundPlaced(settled.0, placed, e, Entry(keyEnd, s[j].val), s[j + 1..], p);
  }

  /** Lines 48-51: some key stored strictly between keyBegin and keyEnd, a key above keyEnd. */
  lemma SpliceCarry<V>(s: seq<Entry<V>>, keyBegin: int, keyEnd: int, val: V)
    requires Sorted(s)
    requires keyBegin < keyEnd
    requires var j := LowerBound(s, keyEnd); j < |s| && keyEnd < s[j].key
    requires UpperBound(s, keyBegin) < LowerBound(s, keyEnd)
    ensures var j := LowerBound(s, keyEnd);
            Splice(s, keyBegin, keyEnd, val) == s[..LowerBound(s, keyBegin)] + [Entry(keyBegin, val)] + ([Entry(keyEnd, s[j - 1].val)] + s[j..])
  {
    var p := LowerBound(s, keyBegin);
    var j := LowerBound(s, keyEnd);
    SettledCarry(s, keyBegin, keyEnd, val, InsertOrAssign(s, keyBegin, val).0, p, UpperBound(s, keyBegin), j);
    SpliceFrom(s, keyBegin, keyEnd, val, p, [Entry(keyEnd, s[j - 1].val)] + s[j..]);
  }

  /** SettleEnd in the case of SpliceCarry, against the original breakpoints. */
  lemma SettledCarry<V>(s: seq<Entry<V>>, keyBegin: int, keyEnd: int, val: V, placed: seq<Entry<V>>, p: nat, a: nat, j: nat)
    requires Sorted(s)
    requires keyBegin < keyEnd
    requires placed == InsertOrAssign(s, keyBegin, val).0
    requires p == LowerBound(s, keyBegin) && a == UpperBound(s, keyBegin) && j == LowerBound(s, keyEnd)
    requires j < |s| && keyEnd < s[j].key
    requires a < j
    ensures var settled := SettleEnd(placed, p, keyBegin, keyEnd);
            && settled.0[..p + 1] == s[..p] + [Entry(keyBegin, val)]
            && settled.0[settled.1..] == [Entry(keyEnd, s[j - 1].val)] + s[j..]
  {
    var e := p + 1 + (j - a);
    PlacedFacts(s, keyBegin, keyEnd, val, placed, p, a, j, e);
    assert placed[e] == placed[e..][0];
    SettleEndCarry(placed, p, keyBegin, keyEnd);
    var settled := SettleEnd(placed, p, keyBegin, keyEnd);
    AroundPlaced(settled.0, placed, e, Entry(keyEnd, s[j - 1].val), s[j..], p);
  }

  /** Splice is line 53's erase applied to what SettleEnd returns. */
  lemma SpliceUnfold<V>(s: seq<Entry<V>>, keyBegin: int, keyEnd: int, val: V)
    requires Sorted(s)
    requires keyBegin < keyEnd
    ensures var p := LowerBound(s, keyBegin); var placed := InsertOrAssign(s, keyBegin, val).0;
            var settled := SettleEnd(placed, p, keyBegin, keyEnd);
            Splice(s, keyBegin, keyEnd, val) == settled.0[..p + 1] + settled.0[settled.1..]
  {
  }

  /**
   Lines 55-63: erase leading breakpoints while they carry the default `d`.
   The result is what is left after the longest run of such breakpoints.
   */
  function StripDefault<V(==)>(s: seq<Entry<V>>, d: V): (r: seq<Entry<V>>)
    ensures |r| <= |s| && r == s[|s| - |r|..]
    ensures forall i | 0 <= i < |s| - |r| :: s[i].val == d
    ensures |r| > 0 ==> r[0].val != d
    decreases |s|
  {
    if |s| > 0 && s[0].val == d then StripDefault(s[1..], d) else s
  }

  /**
   Lines 64-70: when the last two breakpoints carry the same value, erase the
   last one (once).
   */
  function MergeLast<V(==)>(s: seq<Entry<V>>): (r: seq<Entry<V>>)
    ensures |r| == if |s| >= 2 && s[|s| - 2].val == s[|s| - 1].val then |s| - 1 else |s|
    ensures r == s[..|r|]
  {
    if |s| >= 2 && s[|s| - 2].val == s[|s| - 1].val then s[..|s| - 1] else s
  }

  /** Dropping leading breakpoints that repeat the default changes no lookup. */
  lemma {:induction false} StripDefaultKeepsValues<V>(s: seq<Entry<V>>, d: V, k: int)
    requires Sorted(s)
    ensures ValueAt(StripDefault(s, d), d, k) == ValueAt(s, d, k)
    decreases |s|
  {
    if |s| > 0 && s[0].val == d {
      StripDefaultKeepsValues(s[1..], d, k);
      if k < s[0].key && |s| > 1 {
        assert k < s[1].key;
      }
    }
  }

  /** Dropping a last breakpoint that repeats its predecessor changes no lookup. */
  lemma MergeLastKeepsValues<V>(s: seq<Entry<V>>, d: V, k: int)
    requires Sorted(s)
    ensures ValueAt(MergeLast(s), d, k) == ValueAt(s, d, k)
  {
    var n := |s|;
    if n >= 2 && s[n - 2].val == s[n - 1].val {
      PrefixBelow(s, n - 2);
      LastTwo(s);
      DropRepeatKeepsValues(s[..n - 2], s[n - 2], s[n - 1], d, k);
    }
  }

  /** Core of MergeLastKeepsValues, free of the ordering of the whole sequence. */
  lemma DropRepeatKeepsValues<V>(a: seq<Entry<V>>, x: Entry<V>, y: Entry<V>, d: V, k: int)
    requires forall i | 0 <= i < |a| :: a[i].key < x.key
    requires x.key < y.key && x.val == y.val
    ensures ValueAt(a + [x, y], d, k) == ValueAt(a + [x], d, k)
  {
    if k < x.key {
      ValueAtIgnoresLater(a, [x, y], d, k);
      ValueAtIgnoresLater(a, [x], d, k);
    } else {
      ValueAtConcat(a, [x, y], d, k);
      ValueAtConcat(a, [x], d, k);
      var v := ValueAt(a, d, k);
      ValueAtLast([x], v, k);
      if k < y.key {
        ValueAtIgnoresLater([x], [y], v, k);
        assert [x] + [y] == [x, y];
      } else {
        ValueAtLast([x, y], v, k);
      }
    }
  }

  /**
   Lines 55-70: both clean-ups of assign, in order. What is left is still in
   key order, and its first breakpoint does not repeat the default `d`.
   */
  function Tidy<V(==)>(t: seq<Entry<V>>, d: V): (r: seq<Entry<V>>)
    requires Sorted(t)
    ensures Sorted(r)
    ensures |r| > 0 ==> r[0].val != d
  {
    var stripped := StripDefault(t, d);
    SortedSuffix(t, |t| - |stripped|);
    var merged := MergeLast(stripped);
    SortedPrefix(stripped, |merged|);
    merged
  }

  /**
   assign for keyBegin < keyEnd, read off the breakpoints before the call:
   the clean-ups applied to the entries below keyBegin, (keyBegin, val) and
   the tail that SpliceTail describes.
   */
  lemma AssignShape<V>(m: IntervalMap<V>, keyBegin: int, keyEnd: int, val: V)
    requires Sorted(m.entries)
    requires keyBegin < keyEnd
    ensures var t := m.entries[..LowerBound(m.entries, keyBegin)] + [Entry(keyBegin, val)]
                     + SpliceTail(m.entries, keyBegin, keyEnd);
            Sorted(t) && Assign(m, keyBegin, keyEnd, val).entries == Tidy(t, m.valBegin)
  {
    SpliceShape(m.entries, keyBegin, keyEnd, val);
    SpliceSorted(m.entries, keyBegin, keyEnd, val);
  }

  /** Neither clean-up changes any lookup. */
  lemma TidyKeepsLookup<V>(t: seq<Entry<V>>, d: V, k: int)
    requires Sorted(t)
    ensures Lookup(IntervalMap(d, Tidy(t, d)), k) == Lookup(IntervalMap(d, t), k)
  {
    var stripped := StripDefault(t, d);
    SortedSuffix(t, |t| - |stripped|);
    StripDefaultKeepsValues(t, d, k);
    MergeLastKeepsValues(stripped, d, k);
    LookupIsValueAt(IntervalMap(d, Tidy(t, d)), k);
    LookupIsValueAt(IntervalMap(d, t), k);
  }

  /**
   assign(keyBegin, keyEnd, val). An empty or inverted interval changes
   nothing; otherwise Splice, then the two clean-ups.
   */
  function Assign<V(==)>(m: IntervalMap<V>, keyBegin: int, keyEnd: int, val: V): (r: IntervalMap<V>)
    requires Sorted(m.entries)
    ensures Valid(r) || (!(keyBegin < keyEnd) && r == m)
    ensures r.valBegin == m.valBegin && Sorted(r.entries)
    ensures !(keyBegin < keyEnd) ==> r == m
  {
    if !(keyBegin < keyEnd) then
      m
    else
      SpliceSorted(m.entries, keyBegin, keyEnd, val);
      IntervalMap(m.valBegin, Tidy(Splice(m.entries, keyBegin, keyEnd, val), m.valBegin))
  }
}
