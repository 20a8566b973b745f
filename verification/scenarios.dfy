/**
 The checks of IntervalMapTest (Interview/interval_map.cpp, lines 103-277),
 one lemma per check: a map built as the test builds it, then to_str of the
 result. Every map in the test has default 'A' and is cleared first.

 Each check is put together from small facts about literal maps, each proved
 on its own: where assign places the new breakpoints (the argument of the
 clean-ups in AssignShape), what the clean-ups leave, and the text of the
 result.
 */
module Scenarios {
  import opened Breakpoints
  import opened IntervalMaps
  import opened Render

  /**
   One assign step from the facts it takes to evaluate AssignShape: the
   breakpoints before the clean-ups are `t`, and the clean-ups leave `r`
   (`t` is in key order by AssignShape, so only that case is asked for).
   */
  lemma AssignByShape(m: IntervalMap<char>, keyBegin: int, keyEnd: int, val: char,
                      t: seq<Entry<char>>, r: seq<Entry<char>>)
    requires Sorted(m.entries) && keyBegin < keyEnd
    requires m.entries[..LowerBound(m.entries, keyBegin)] + [Entry(keyBegin, val)]
             + SpliceTail(m.entries, keyBegin, keyEnd) == t
    requires Sorted(t) ==> Tidy(t, m.valBegin) == r
    ensures Assign(m, keyBegin, keyEnd, val) == IntervalMap(m.valBegin, r)
  {
    AssignShape(m, keyBegin, keyEnd, val);
  }

  // The maps the checks assign into, named by their breakpoints.
  const Empty: IntervalMap<char> := IntervalMap('A', [])
  const C5: IntervalMap<char> := IntervalMap('A', [Entry(5, 'C')])
  const C5B10: IntervalMap<char> := IntervalMap('A', [Entry(5, 'C'), Entry(10, 'B')])
  const C5B10D15: IntervalMap<char> := IntervalMap('A', [Entry(5, 'C'), Entry(10, 'B'), Entry(15, 'D')])

  // Where each assign step of the checks places its breakpoints.

  lemma PlacedEmptyAssign5To6A()
    ensures Empty.entries[..LowerBound(Empty.entries, 5)] + [Entry(5, 'A')]
            + SpliceTail(Empty.entries, 5, 6) == [Entry(5, 'A')]
  {
  }

  lemma PlacedEmptyAssign5To6C()
    ensures Empty.entries[..LowerBound(Empty.entries, 5)] + [Entry(5, 'C')]
            + SpliceTail(Empty.entries, 5, 6) == [Entry(5, 'C')]
  {
  }

  lemma PlacedEmptyAssign5To7A()
    ensures Empty.entries[..LowerBound(Empty.entries, 5)] + [Entry(5, 'A')]
            + SpliceTail(Empty.entries, 5, 7) == [Entry(5, 'A')]
  {
  }

  lemma PlacedEmptyAssign5To9C()
    ensures Empty.entries[..LowerBound(Empty.entries, 5)] + [Entry(5, 'C')]
            + SpliceTail(Empty.entries, 5, 9) == [Entry(5, 'C')]
  {
  }

  lemma PlacedEmptyAssign5To7C()
    ensures Empty.entries[..LowerBound(Empty.entries, 5)] + [Entry(5, 'C')]
            + SpliceTail(Empty.entries, 5, 7) == [Entry(5, 'C')]
  {
  }

  lemma PlacedC5Assign4To6A()
    ensures C5.entries[..LowerBound(C5.entries, 4)] + [Entry(4, 'A')]
            + SpliceTail(C5.entries, 4, 6) == [Entry(4, 'A')]
  {
  }

  lemma PlacedC5Assign4To6B()
    ensures C5.entries[..LowerBound(C5.entries, 4)] + [Entry(4, 'B')]
            + SpliceTail(C5.entries, 4, 6) == [Entry(4, 'B')]
  {
  }

  lemma PlacedC5Assign1To4B()
    ensures C5.entries[..LowerBound(C5.entries, 1)] + [Entry(1, 'B')]
            + SpliceTail(C5.entries, 1, 4) == [Entry(1, 'B'), Entry(4, 'C')]
  {
  }

  lemma PlacedC5Assign1To2B()
    ensures C5.entries[..LowerBound(C5.entries, 1)] + [Entry(1, 'B')]
            + SpliceTail(C5.entries, 1, 2) == [Entry(1, 'B'), Entry(2, 'C')]
  {
  }

  lemma PlacedEmptyAssign5To10C()
    ensures Empty.entries[..LowerBound(Empty.entries, 5)] + [Entry(5, 'C')]
            + SpliceTail(Empty.entries, 5, 10) == [Entry(5, 'C')]
  {
  }

  lemma PlacedC5Assign6To7B()
    ensures C5.entries[..LowerBound(C5.entries, 6)] + [Entry(6, 'B')]
            + SpliceTail(C5.entries, 6, 7) == [Entry(5, 'C'), Entry(6, 'B')]
  {
  }

  lemma PlacedC5Assign5To7B()
    ensures C5.entries[..LowerBound(C5.entries, 5)] + [Entry(5, 'B')]
            + SpliceTail(C5.entries, 5, 7) == [Entry(5, 'B')]
  {
  }

  lemma PlacedC5Assign10To15B()
    ensures C5.entries[..LowerBound(C5.entries, 10)] + [Entry(10, 'B')]
            + SpliceTail(C5.entries, 10, 15) == [Entry(5, 'C'), Entry(10, 'B')]
  {
  }

  lemma PlacedC5B10Assign6To7D()
    ensures C5B10.entries[..LowerBound(C5B10.entries, 6)] + [Entry(6, 'D')]
            + SpliceTail(C5B10.entries, 6, 7) == [Entry(5, 'C'), Entry(6, 'D'), Entry(7, 'B')]
  {
  }

  lemma PlacedC5B10Assign6To15D()
    ensures C5B10.entries[..LowerBound(C5B10.entries, 6)] + [Entry(6, 'D')]
            + SpliceTail(C5B10.entries, 6, 15) == [Entry(5, 'C'), Entry(6, 'D')]
  {
  }

  lemma PlacedC5B10Assign6To10D()
    ensures C5B10.entries[..LowerBound(C5B10.entries, 6)] + [Entry(6, 'D')]
            + SpliceTail(C5B10.entries, 6, 10) == [Entry(5, 'C'), Entry(6, 'D'), Entry(10, 'B')]
  {
  }

  lemma PlacedC5B10Assign6To11D()
    ensures C5B10.entries[..LowerBound(C5B10.entries, 6)] + [Entry(6, 'D')]
            + SpliceTail(C5B10.entries, 6, 11) == [Entry(5, 'C'), Entry(6, 'D')]
  {
  }

  lemma PlacedC5B10Assign5To10D()
    ensures C5B10.entries[..LowerBound(C5B10.entries, 5)] + [Entry(5, 'D')]
            + SpliceTail(C5B10.entries, 5, 10) == [Entry(5, 'D'), Entry(10, 'B')]
  {
  }

  lemma PlacedC5B10Assign5To11D()
    ensures C5B10.entries[..LowerBound(C5B10.entries, 5)] + [Entry(5, 'D')]
            + SpliceTail(C5B10.entries, 5, 11) == [Entry(5, 'D')]
  {
  }

  lemma PlacedC5B10Assign10To11D()
    ensures C5B10.entries[..LowerBound(C5B10.entries, 10)] + [Entry(10, 'D')]
            + SpliceTail(C5B10.entries, 10, 11) == [Entry(5, 'C'), Entry(10, 'D')]
  {
  }

  lemma PlacedC5B10Assign11To15B()
    ensures C5B10.entries[..LowerBound(C5B10.entries, 11)] + [Entry(11, 'B')]
            + SpliceTail(C5B10.entries, 11, 15) == [Entry(5, 'C'), Entry(10, 'B'), Entry(11, 'B')]
  {
  }

  lemma PlacedC5B10Assign11To15D()
    ensures C5B10.entries[..LowerBound(C5B10.entries, 11)] + [Entry(11, 'D')]
            + SpliceTail(C5B10.entries, 11, 15) == [Entry(5, 'C'), Entry(10, 'B'), Entry(11, 'D')]
  {
  }

  lemma PlacedC5B10Assign4To5D()
    ensures C5B10.entries[..LowerBound(C5B10.entries, 4)] + [Entry(4, 'D')]
            + SpliceTail(C5B10.entries, 4, 5) == [Entry(4, 'D'), Entry(5, 'C'), Entry(10, 'B')]
  {
  }

  lemma PlacedC5B10Assign1To4D()
    ensures C5B10.entries[..LowerBound(C5B10.entries, 1)] + [Entry(1, 'D')]
            + SpliceTail(C5B10.entries, 1, 4) == [Entry(1, 'D'), Entry(4, 'C'), Entry(10, 'B')]
  {
  }

  lemma PlacedC5B10Assign15To20D()
    ensures C5B10.entries[..LowerBound(C5B10.entries, 15)] + [Entry(15, 'D')]
            + SpliceTail(C5B10.entries, 15, 20) == [Entry(5, 'C'), Entry(10, 'B'), Entry(15, 'D')]
  {
  }

  lemma PlacedC5B10D15Assign4To20E()
    ensures C5B10D15.entries[..LowerBound(C5B10D15.entries, 4)] + [Entry(4, 'E')]
            + SpliceTail(C5B10D15.entries, 4, 20) == [Entry(4, 'E')]
  {
  }

  lemma PlacedC5B10D15Assign4To15E()
    ensures C5B10D15.entries[..LowerBound(C5B10D15.entries, 4)] + [Entry(4, 'E')]
            + SpliceTail(C5B10D15.entries, 4, 15) == [Entry(4, 'E'), Entry(15, 'D')]
  {
  }

  lemma PlacedC5B10D15Assign4To16E()
    ensures C5B10D15.entries[..LowerBound(C5B10D15.entries, 4)] + [Entry(4, 'E')]
            + SpliceTail(C5B10D15.entries, 4, 16) == [Entry(4, 'E')]
  {
  }

  lemma PlacedC5B10D15Assign4To10E()
    ensures C5B10D15.entries[..LowerBound(C5B10D15.entries, 4)] + [Entry(4, 'E')]
            + SpliceTail(C5B10D15.entries, 4, 10) == [Entry(4, 'E'), Entry(10, 'B'), Entry(15, 'D')]
  {
  }

  lemma PlacedC5B10D15Assign4To11E()
    ensures C5B10D15.entries[..LowerBound(C5B10D15.entries, 4)] + [Entry(4, 'E')]
            + SpliceTail(C5B10D15.entries, 4, 11) == [Entry(4, 'E'), Entry(11, 'B'), Entry(15, 'D')]
  {
  }

  // What the clean-ups leave of those placements.

  lemma TidyA5()
    ensures Tidy([Entry(5, 'A')], 'A') == []
  {
  }

  lemma TidyC5()
    ensures Tidy([Entry(5, 'C')], 'A') == [Entry(5, 'C')]
  {
  }

  lemma TidyA4()
    ensures Tidy([Entry(4, 'A')], 'A') == []
  {
  }

  lemma TidyB4()
    ensures Tidy([Entry(4, 'B')], 'A') == [Entry(4, 'B')]
  {
  }

  lemma TidyB1C4()
    ensures Tidy([Entry(1, 'B'), Entry(4, 'C')], 'A') == [Entry(1, 'B'), Entry(4, 'C')]
  {
    var s := [Entry(1, 'B'), Entry(4, 'C')];
    assert StripDefault(s, 'A') == s;
    assert MergeLast(s) == s[..2];
    assert s[..2] == [Entry(1, 'B'), Entry(4, 'C')];
  }

  lemma TidyB1C2()
    ensures Tidy([Entry(1, 'B'), Entry(2, 'C')], 'A') == [Entry(1, 'B'), Entry(2, 'C')]
  {
    var s := [Entry(1, 'B'), Entry(2, 'C')];
    assert StripDefault(s, 'A') == s;
    assert MergeLast(s) == s[..2];
    assert s[..2] == [Entry(1, 'B'), Entry(2, 'C')];
  }

  lemma TidyC5B6()
    ensures Tidy([Entry(5, 'C'), Entry(6, 'B')], 'A') == [Entry(5, 'C'), Entry(6, 'B')]
  {
    var s := [Entry(5, 'C'), Entry(6, 'B')];
    assert StripDefault(s, 'A') == s;
    assert MergeLast(s) == s[..2];
    assert s[..2] == [Entry(5, 'C'), Entry(6, 'B')];
  }

  lemma TidyB5()
    ensures Tidy([Entry(5, 'B')], 'A') == [Entry(5, 'B')]
  {
  }

  lemma TidyC5B10()
    ensures Tidy([Entry(5, 'C'), Entry(10, 'B')], 'A') == [Entry(5, 'C'), Entry(10, 'B')]
  {
    var s := [Entry(5, 'C'), Entry(10, 'B')];
    assert StripDefault(s, 'A') == s;
    assert MergeLast(s) == s[..2];
    assert s[..2] == [Entry(5, 'C'), Entry(10, 'B')];
  }

  lemma TidyC5D6B7()
    ensures Tidy([Entry(5, 'C'), Entry(6, 'D'), Entry(7, 'B')], 'A') == [Entry(5, 'C'), Entry(6, 'D'), Entry(7, 'B')]
  {
    var s := [Entry(5, 'C'), Entry(6, 'D'), Entry(7, 'B')];
    assert StripDefault(s, 'A') == s;
    assert MergeLast(s) == s[..3];
    assert s[..3] == [Entry(5, 'C'), Entry(6, 'D'), Entry(7, 'B')];
  }

  lemma TidyC5D6()
    ensures Tidy([Entry(5, 'C'), Entry(6, 'D')], 'A') == [Entry(5, 'C'), Entry(6, 'D')]
  {
    var s := [Entry(5, 'C'), Entry(6, 'D')];
    assert StripDefault(s, 'A') == s;
    assert MergeLast(s) == s[..2];
    assert s[..2] == [Entry(5, 'C'), Entry(6, 'D')];
  }

  lemma TidyC5D6B10()
    ensures Tidy([Entry(5, 'C'), Entry(6, 'D'), Entry(10, 'B')], 'A') == [Entry(5, 'C'), Entry(6, 'D'), Entry(10, 'B')]
  {
    var s := [Entry(5, 'C'), Entry(6, 'D'), Entry(10, 'B')];
    assert StripDefault(s, 'A') == s;
    assert MergeLast(s) == s[..3];
    assert s[..3] == [Entry(5, 'C'), Entry(6, 'D'), Entry(10, 'B')];
  }

  lemma TidyD5B10()
    ensures Tidy([Entry(5, 'D'), Entry(10, 'B')], 'A') == [Entry(5, 'D'), Entry(10, 'B')]
  {
    var s := [Entry(5, 'D'), Entry(10, 'B')];
    assert StripDefault(s, 'A') == s;
    assert MergeLast(s) == s[..2];
    assert s[..2] == [Entry(5, 'D'), Entry(10, 'B')];
  }

  lemma TidyD5()
    ensures Tidy([Entry(5, 'D')], 'A') == [Entry(5, 'D')]
  {
  }

  lemma TidyC5D10()
    ensures Tidy([Entry(5, 'C'), Entry(10, 'D')], 'A') == [Entry(5, 'C'), Entry(10, 'D')]
  {
    var s := [Entry(5, 'C'), Entry(10, 'D')];
    assert StripDefault(s, 'A') == s;
    assert MergeLast(s) == s[..2];
    assert s[..2] == [Entry(5, 'C'), Entry(10, 'D')];
  }

  lemma TidyC5B10B11()
    ensures Tidy([Entry(5, 'C'), Entry(10, 'B'), Entry(11, 'B')], 'A') == [Entry(5, 'C'), Entry(10, 'B')]
  {
    var s := [Entry(5, 'C'), Entry(10, 'B'), Entry(11, 'B')];
    assert StripDefault(s, 'A') == s;
    assert MergeLast(s) == s[..2];
    assert s[..2] == [Entry(5, 'C'), Entry(10, 'B')];
  }

  lemma TidyC5B10D11()
    ensures Tidy([Entry(5, 'C'), Entry(10, 'B'), Entry(11, 'D')], 'A') == [Entry(5, 'C'), Entry(10, 'B'), Entry(11, 'D')]
  {
    var s := [Entry(5, 'C'), Entry(10, 'B'), Entry(11, 'D')];
    assert StripDefault(s, 'A') == s;
    assert MergeLast(s) == s[..3];
    assert s[..3] == [Entry(5, 'C'), Entry(10, 'B'), Entry(11, 'D')];
  }

  lemma TidyD4C5B10()
    ensures Tidy([Entry(4, 'D'), Entry(5, 'C'), Entry(10, 'B')], 'A') == [Entry(4, 'D'), Entry(5, 'C'), Entry(10, 'B')]
  {
    var s := [Entry(4, 'D'), Entry(5, 'C'), Entry(10, 'B')];
    assert StripDefault(s, 'A') == s;
    assert MergeLast(s) == s[..3];
    assert s[..3] == [Entry(4, 'D'), Entry(5, 'C'), Entry(10, 'B')];
  }

  lemma TidyD1C4B10()
    ensures Tidy([Entry(1, 'D'), Entry(4, 'C'), Entry(10, 'B')], 'A') == [Entry(1, 'D'), Entry(4, 'C'), Entry(10, 'B')]
  {
    var s := [Entry(1, 'D'), Entry(4, 'C'), Entry(10, 'B')];
    assert StripDefault(s, 'A') == s;
    assert MergeLast(s) == s[..3];
    assert s[..3] == [Entry(1, 'D'), Entry(4, 'C'), Entry(10, 'B')];
  }

  lemma TidyC5B10D15()
    ensures Tidy([Entry(5, 'C'), Entry(10, 'B'), Entry(15, 'D')], 'A') == [Entry(5, 'C'), Entry(10, 'B'), Entry(15, 'D')]
  {
    var s := [Entry(5, 'C'), Entry(10, 'B'), Entry(15, 'D')];
    assert StripDefault(s, 'A') == s;
    assert MergeLast(s) == s[..3];
    assert s[..3] == [Entry(5, 'C'), Entry(10, 'B'), Entry(15, 'D')];
  }

  lemma TidyE4()
    ensures Tidy([Entry(4, 'E')], 'A') == [Entry(4, 'E')]
  {
  }

  lemma TidyE4D15()
    ensures Tidy([Entry(4, 'E'), Entry(15, 'D')], 'A') == [Entry(4, 'E'), Entry(15, 'D')]
  {
    var s := [Entry(4, 'E'), Entry(15, 'D')];
    assert StripDefault(s, 'A') == s;
    assert MergeLast(s) == s[..2];
    assert s[..2] == [Entry(4, 'E'), Entry(15, 'D')];
  }

  lemma TidyE4B10D15()
    ensures Tidy([Entry(4, 'E'), Entry(10, 'B'), Entry(15, 'D')], 'A') == [Entry(4, 'E'), Entry(10, 'B'), Entry(15, 'D')]
  {
    var s := [Entry(4, 'E'), Entry(10, 'B'), Entry(15, 'D')];
    assert StripDefault(s, 'A') == s;
    assert MergeLast(s) == s[..3];
    assert s[..3] == [Entry(4, 'E'), Entry(10, 'B'), Entry(15, 'D')];
  }

  lemma TidyE4B11D15()
    ensures Tidy([Entry(4, 'E'), Entry(11, 'B'), Entry(15, 'D')], 'A') == [Entry(4, 'E'), Entry(11, 'B'), Entry(15, 'D')]
  {
    var s := [Entry(4, 'E'), Entry(11, 'B'), Entry(15, 'D')];
    assert StripDefault(s, 'A') == s;
    assert MergeLast(s) == s[..3];
    assert s[..3] == [Entry(4, 'E'), Entry(11, 'B'), Entry(15, 'D')];
  }

  // to_str of one, two and three breakpoints, line by line.

  lemma RenderOne(a: Entry<char>)
    ensures RenderEntries([a]) == EntryLine(a)
  {
    assert [a][1..] == [];
    assert EntryLine(a) + "" == EntryLine(a);
  }

  lemma RenderTwo(a: Entry<char>, b: Entry<char>)
    ensures RenderEntries([a, b]) == EntryLine(a) + EntryLine(b)
  {
    assert [a, b][1..] == [b];
    RenderOne(b);
  }

  lemma RenderThree(a: Entry<char>, b: Entry<char>, c: Entry<char>)
    ensures RenderEntries([a, b, c]) == EntryLine(a) + EntryLine(b) + EntryLine(c)
  {
    assert [a, b, c][1..] == [b, c];
    RenderTwo(b, c);
  }

  // The line to_str writes for each breakpoint of those results.

  lemma LineC5()
    ensures EntryLine(Entry(5, 'C')) == "5->C\n"
  {
  }

  lemma LineB4()
    ensures EntryLine(Entry(4, 'B')) == "4->B\n"
  {
  }

  lemma LineB1()
    ensures EntryLine(Entry(1, 'B')) == "1->B\n"
  {
  }

  lemma LineC4()
    ensures EntryLine(Entry(4, 'C')) == "4->C\n"
  {
  }

  lemma LineC2()
    ensures EntryLine(Entry(2, 'C')) == "2->C\n"
  {
  }

  lemma LineB6()
    ensures EntryLine(Entry(6, 'B')) == "6->B\n"
  {
  }

  lemma LineB5()
    ensures EntryLine(Entry(5, 'B')) == "5->B\n"
  {
  }

  lemma LineB10()
    ensures EntryLine(Entry(10, 'B')) == "10->B\n"
  {
  }

  lemma LineD6()
    ensures EntryLine(Entry(6, 'D')) == "6->D\n"
  {
  }

  lemma LineB7()
    ensures EntryLine(Entry(7, 'B')) == "7->B\n"
  {
  }

  lemma LineD5()
    ensures EntryLine(Entry(5, 'D')) == "5->D\n"
  {
  }

  lemma LineD10()
    ensures EntryLine(Entry(10, 'D')) == "10->D\n"
  {
  }

  lemma LineD11()
    ensures EntryLine(Entry(11, 'D')) == "11->D\n"
  {
  }

  lemma LineD4()
    ensures EntryLine(Entry(4, 'D')) == "4->D\n"
  {
  }

  lemma LineD1()
    ensures EntryLine(Entry(1, 'D')) == "1->D\n"
  {
  }

  lemma LineE4()
    ensures EntryLine(Entry(4, 'E')) == "4->E\n"
  {
  }

  lemma LineD15()
    ensures EntryLine(Entry(15, 'D')) == "15->D\n"
  {
  }

  lemma LineB11()
    ensures EntryLine(Entry(11, 'B')) == "11->B\n"
  {
  }

  // The text to_str writes for each result the checks compare.

  lemma TextEmpty()
    ensures ToStr(IntervalMap('A', [])) == ""
  {
  }

  lemma TextC5()
    ensures ToStr(IntervalMap('A', [Entry(5, 'C')])) == "5->C\n"
  {
    RenderOne(Entry(5, 'C'));
    LineC5();
  }

  lemma TextB4()
    ensures ToStr(IntervalMap('A', [Entry(4, 'B')])) == "4->B\n"
  {
    RenderOne(Entry(4, 'B'));
    LineB4();
  }

  lemma TextB1C4()
    ensures ToStr(IntervalMap('A', [Entry(1, 'B'), Entry(4, 'C')])) == "1->B\n4->C\n"
  {
    RenderTwo(Entry(1, 'B'), Entry(4, 'C'));
    LineB1();
    LineC4();
  }

  lemma TextB1C2()
    ensures ToStr(IntervalMap('A', [Entry(1, 'B'), Entry(2, 'C')])) == "1->B\n2->C\n"
  {
    RenderTwo(Entry(1, 'B'), Entry(2, 'C'));
    LineB1();
    LineC2();
  }

  lemma TextC5B6()
    ensures ToStr(IntervalMap('A', [Entry(5, 'C'), Entry(6, 'B')])) == "5->C\n6->B\n"
  {
    RenderTwo(Entry(5, 'C'), Entry(6, 'B'));
    LineC5();
    LineB6();
  }

  lemma TextB5()
    ensures ToStr(IntervalMap('A', [Entry(5, 'B')])) == "5->B\n"
  {
    RenderOne(Entry(5, 'B'));
    LineB5();
  }

  lemma TextC5B10()
    ensures ToStr(IntervalMap('A', [Entry(5, 'C'), Entry(10, 'B')])) == "5->C\n10->B\n"
  {
    RenderTwo(Entry(5, 'C'), Entry(10, 'B'));
    LineC5();
    LineB10();
  }

  lemma TextC5D6B7()
    ensures ToStr(IntervalMap('A', [Entry(5, 'C'), Entry(6, 'D'), Entry(7, 'B')])) == "5->C\n6->D\n7->B\n"
  {
    RenderThree(Entry(5, 'C'), Entry(6, 'D'), Entry(7, 'B'));
    LineC5();
    LineD6();
    LineB7();
  }

  lemma TextC5D6()
    ensures ToStr(IntervalMap('A', [Entry(5, 'C'), Entry(6, 'D')])) == "5->C\n6->D\n"
  {
    RenderTwo(Entry(5, 'C'), Entry(6, 'D'));
    LineC5();
    LineD6();
  }

  lemma TextC5D6B10()
    ensures ToStr(IntervalMap('A', [Entry(5, 'C'), Entry(6, 'D'), Entry(10, 'B')])) == "5->C\n6->D\n10->B\n"
  {
    RenderThree(Entry(5, 'C'), Entry(6, 'D'), Entry(10, 'B'));
    LineC5();
    LineD6();
    LineB10();
  }

  lemma TextD5B10()
    ensures ToStr(IntervalMap('A', [Entry(5, 'D'), Entry(10, 'B')])) == "5->D\n10->B\n"
  {
    RenderTwo(Entry(5, 'D'), Entry(10, 'B'));
    LineD5();
    LineB10();
  }

  lemma TextD5()
    ensures ToStr(IntervalMap('A', [Entry(5, 'D')])) == "5->D\n"
  {
    RenderOne(Entry(5, 'D'));
    LineD5();
  }

  lemma TextC5D10()
    ensures ToStr(IntervalMap('A', [Entry(5, 'C'), Entry(10, 'D')])) == "5->C\n10->D\n"
  {
    RenderTwo(Entry(5, 'C'), Entry(10, 'D'));
    LineC5();
    LineD10();
  }

  lemma TextC5B10D11()
    ensures ToStr(IntervalMap('A', [Entry(5, 'C'), Entry(10, 'B'), Entry(11, 'D')])) == "5->C\n10->B\n11->D\n"
  {
    RenderThree(Entry(5, 'C'), Entry(10, 'B'), Entry(11, 'D'));
    LineC5();
    LineB10();
    LineD11();
  }

  lemma TextD4C5B10()
    ensures ToStr(IntervalMap('A', [Entry(4, 'D'), Entry(5, 'C'), Entry(10, 'B')])) == "4->D\n5->C\n10->B\n"
  {
    RenderThree(Entry(4, 'D'), Entry(5, 'C'), Entry(10, 'B'));
    LineD4();
    LineC5();
    LineB10();
  }

  lemma TextD1C4B10()
    ensures ToStr(IntervalMap('A', [Entry(1, 'D'), Entry(4, 'C'), Entry(10, 'B')])) == "1->D\n4->C\n10->B\n"
  {
    RenderThree(Entry(1, 'D'), Entry(4, 'C'), Entry(10, 'B'));
    LineD1();
    LineC4();
    LineB10();
  }

  lemma TextE4()
    ensures ToStr(IntervalMap('A', [Entry(4, 'E')])) == "4->E\n"
  {
    RenderOne(Entry(4, 'E'));
    LineE4();
  }

  lemma TextE4D15()
    ensures ToStr(IntervalMap('A', [Entry(4, 'E'), Entry(15, 'D')])) == "4->E\n15->D\n"
  {
    RenderTwo(Entry(4, 'E'), Entry(15, 'D'));
    LineE4();
    LineD15();
  }

  lemma TextE4B10D15()
    ensures ToStr(IntervalMap('A', [Entry(4, 'E'), Entry(10, 'B'), Entry(15, 'D')])) == "4->E\n10->B\n15->D\n"
  {
    RenderThree(Entry(4, 'E'), Entry(10, 'B'), Entry(15, 'D'));
    LineE4();
    LineB10();
    LineD15();
  }

  lemma TextE4B11D15()
    ensures ToStr(IntervalMap('A', [Entry(4, 'E'), Entry(11, 'B'), Entry(15, 'D')])) == "4->E\n11->B\n15->D\n"
  {
    RenderThree(Entry(4, 'E'), Entry(11, 'B'), Entry(15, 'D'));
    LineE4();
    LineB11();
    LineD15();
  }

  // The maps the checks build before their last assign.

  lemma BuiltC5By5To7C()
    ensures Assign(Clear(New('A')), 5, 7, 'C') == C5
  {
    PlacedEmptyAssign5To7C();
    TidyC5();
    AssignByShape(Empty, 5, 7, 'C', [Entry(5, 'C')], [Entry(5, 'C')]);
  }

  lemma BuiltC5By5To10C()
    ensures Assign(Clear(New('A')), 5, 10, 'C') == C5
  {
    PlacedEmptyAssign5To10C();
    TidyC5();
    AssignByShape(Empty, 5, 10, 'C', [Entry(5, 'C')], [Entry(5, 'C')]);
  }

  lemma BuiltC5B10By10To15B()
    ensures Assign(Assign(Clear(New('A')), 5, 10, 'C'), 10, 15, 'B') == C5B10
  {
    BuiltC5By5To10C();
    PlacedC5Assign10To15B();
    TidyC5B10();
    AssignByShape(C5, 10, 15, 'B', [Entry(5, 'C'), Entry(10, 'B')], [Entry(5, 'C'), Entry(10, 'B')]);
  }

  lemma BuiltC5B10D15By15To20D()
    ensures Assign(Assign(Assign(Clear(New('A')), 5, 10, 'C'), 10, 15, 'B'), 15, 20, 'D') == C5B10D15
  {
    BuiltC5B10By10To15B();
    PlacedC5B10Assign15To20D();
    TidyC5B10D15();
    AssignByShape(C5B10, 15, 20, 'D', [Entry(5, 'C'), Entry(10, 'B'), Entry(15, 'D')], [Entry(5, 'C'), Entry(10, 'B'), Entry(15, 'D')]);
  }

  /** Lines 106-109. */
  lemma TestEmptyAssign5To5C()
    ensures ToStr(Assign(Clear(New('A')), 5, 5, 'C'))
            == ""
  {
    TextEmpty();
  }

  /** Lines 111-113. */
  lemma TestEmptyAssign5To6A()
    ensures ToStr(Assign(Clear(New('A')), 5, 6, 'A'))
            == ""
  {
    PlacedEmptyAssign5To6A();
    TidyA5();
    AssignByShape(Empty, 5, 6, 'A', [Entry(5, 'A')], []);
    TextEmpty();
  }

  /** Lines 115-117. */
  lemma TestEmptyAssign5To6C()
    ensures ToStr(Assign(Clear(New('A')), 5, 6, 'C'))
            == "5->C\n"
  {
    PlacedEmptyAssign5To6C();
    TidyC5();
    AssignByShape(Empty, 5, 6, 'C', [Entry(5, 'C')], [Entry(5, 'C')]);
    TextC5();
  }

  /** Lines 119-121. */
  lemma TestEmptyAssign5To7A()
    ensures ToStr(Assign(Clear(New('A')), 5, 7, 'A'))
            == ""
  {
    PlacedEmptyAssign5To7A();
    TidyA5();
    AssignByShape(Empty, 5, 7, 'A', [Entry(5, 'A')], []);
    TextEmpty();
  }

  /** Lines 123-125. */
  lemma TestEmptyAssign5To9C()
    ensures ToStr(Assign(Clear(New('A')), 5, 9, 'C'))
            == "5->C\n"
  {
    PlacedEmptyAssign5To9C();
    TidyC5();
    AssignByShape(Empty, 5, 9, 'C', [Entry(5, 'C')], [Entry(5, 'C')]);
    TextC5();
  }

  /** Lines 127-130. */
  lemma TestC5Assign4To6A()
    ensures ToStr(Assign(Assign(Clear(New('A')), 5, 7, 'C'), 4, 6, 'A'))
            == ""
  {
    BuiltC5By5To7C();
    PlacedC5Assign4To6A();
    TidyA4();
    AssignByShape(C5, 4, 6, 'A', [Entry(4, 'A')], []);
    TextEmpty();
  }

  /** Lines 132-135. */
  lemma TestC5Assign4To6B()
    ensures ToStr(Assign(Assign(Clear(New('A')), 5, 7, 'C'), 4, 6, 'B'))
            == "4->B\n"
  {
    BuiltC5By5To7C();
    PlacedC5Assign4To6B();
    TidyB4();
    AssignByShape(C5, 4, 6, 'B', [Entry(4, 'B')], [Entry(4, 'B')]);
    TextB4();
  }

  /** Lines 137-140. */
  lemma TestC5Assign1To4B()
    ensures ToStr(Assign(Assign(Clear(New('A')), 5, 7, 'C'), 1, 4, 'B'))
            == "1->B\n4->C\n"
  {
    BuiltC5By5To7C();
    PlacedC5Assign1To4B();
    TidyB1C4();
    AssignByShape(C5, 1, 4, 'B', [Entry(1, 'B'), Entry(4, 'C')], [Entry(1, 'B'), Entry(4, 'C')]);
    TextB1C4();
  }

  /** Lines 142-145. */
  lemma TestC5Assign1To1B()
    ensures ToStr(Assign(Assign(Clear(New('A')), 5, 7, 'C'), 1, 1, 'B'))
            == "5->C\n"
  {
    BuiltC5By5To7C();
    TextC5();
  }

  /** Lines 147-150. */
  lemma TestC5Assign1To2B()
    ensures ToStr(Assign(Assign(Clear(New('A')), 5, 7, 'C'), 1, 2, 'B'))
            == "1->B\n2->C\n"
  {
    BuiltC5By5To7C();
    PlacedC5Assign1To2B();
    TidyB1C2();
    AssignByShape(C5, 1, 2, 'B', [Entry(1, 'B'), Entry(2, 'C')], [Entry(1, 'B'), Entry(2, 'C')]);
    TextB1C2();
  }

  /** Lines 152-155. */
  lemma TestC5Assign6To6B()
    ensures ToStr(Assign(Assign(Clear(New('A')), 5, 10, 'C'), 6, 6, 'B'))
            == "5->C\n"
  {
    BuiltC5By5To10C();
    TextC5();
  }

  /** Lines 157-160. */
  lemma TestC5Assign6To7B()
    ensures ToStr(Assign(Assign(Clear(New('A')), 5, 10, 'C'), 6, 7, 'B'))
            == "5->C\n6->B\n"
  {
    BuiltC5By5To10C();
    PlacedC5Assign6To7B();
    TidyC5B6();
    AssignByShape(C5, 6, 7, 'B', [Entry(5, 'C'), Entry(6, 'B')], [Entry(5, 'C'), Entry(6, 'B')]);
    TextC5B6();
  }

  /** Lines 162-165. */
  lemma TestC5Assign5To7B()
    ensures ToStr(Assign(Assign(Clear(New('A')), 5, 10, 'C'), 5, 7, 'B'))
            == "5->B\n"
  {
    BuiltC5By5To10C();
    PlacedC5Assign5To7B();
    TidyB5();
    AssignByShape(C5, 5, 7, 'B', [Entry(5, 'B')], [Entry(5, 'B')]);
    TextB5();
  }

  /** Lines 167-170. */
  lemma TestC5Assign10To15B()
    ensures ToStr(Assign(Assign(Clear(New('A')), 5, 10, 'C'), 10, 15, 'B'))
            == "5->C\n10->B\n"
  {
    BuiltC5By5To10C();
    PlacedC5Assign10To15B();
    TidyC5B10();
    AssignByShape(C5, 10, 15, 'B', [Entry(5, 'C'), Entry(10, 'B')], [Entry(5, 'C'), Entry(10, 'B')]);
    TextC5B10();
  }

  /** Lines 172-176. */
  lemma TestC5B10Assign6To7D()
    ensures ToStr(Assign(Assign(Assign(Clear(New('A')), 5, 10, 'C'), 10, 15, 'B'), 6, 7, 'D'))
            == "5->C\n6->D\n7->B\n"
  {
    BuiltC5B10By10To15B();
    PlacedC5B10Assign6To7D();
    TidyC5D6B7();
    AssignByShape(C5B10, 6, 7, 'D', [Entry(5, 'C'), Entry(6, 'D'), Entry(7, 'B')], [Entry(5, 'C'), Entry(6, 'D'), Entry(7, 'B')]);
    TextC5D6B7();
  }

  /** Lines 178-182. */
  lemma TestC5B10Assign6To15D()
    ensures ToStr(Assign(Assign(Assign(Clear(New('A')), 5, 10, 'C'), 10, 15, 'B'), 6, 15, 'D'))
            == "5->C\n6->D\n"
  {
    BuiltC5B10By10To15B();
    PlacedC5B10Assign6To15D();
    TidyC5D6();
    AssignByShape(C5B10, 6, 15, 'D', [Entry(5, 'C'), Entry(6, 'D')], [Entry(5, 'C'), Entry(6, 'D')]);
    TextC5D6();
  }

  /** Lines 184-188. */
  lemma TestC5B10Assign6To10D()
    ensures ToStr(Assign(Assign(Assign(Clear(New('A')), 5, 10, 'C'), 10, 15, 'B'), 6, 10, 'D'))
            == "5->C\n6->D\n10->B\n"
  {
    BuiltC5B10By10To15B();
    PlacedC5B10Assign6To10D();
    TidyC5D6B10();
    AssignByShape(C5B10, 6, 10, 'D', [Entry(5, 'C'), Entry(6, 'D'), Entry(10, 'B')], [Entry(5, 'C'), Entry(6, 'D'), Entry(10, 'B')]);
    TextC5D6B10();
  }

  /** Lines 190-194. */
  lemma TestC5B10Assign6To11D()
    ensures ToStr(Assign(Assign(Assign(Clear(New('A')), 5, 10, 'C'), 10, 15, 'B'), 6, 11, 'D'))
            == "5->C\n6->D\n"
  {
    BuiltC5B10By10To15B();
    PlacedC5B10Assign6To11D();
    TidyC5D6();
    AssignByShape(C5B10, 6, 11, 'D', [Entry(5, 'C'), Entry(6, 'D')], [Entry(5, 'C'), Entry(6, 'D')]);
    TextC5D6();
  }

  /** Lines 196-200. */
  lemma TestC5B10Assign5To10D()
    ensures ToStr(Assign(Assign(Assign(Clear(New('A')), 5, 10, 'C'), 10, 15, 'B'), 5, 10, 'D'))
            == "5->D\n10->B\n"
  {
    BuiltC5B10By10To15B();
    PlacedC5B10Assign5To10D();
    TidyD5B10();
    AssignByShape(C5B10, 5, 10, 'D', [Entry(5, 'D'), Entry(10, 'B')], [Entry(5, 'D'), Entry(10, 'B')]);
    TextD5B10();
  }

  /** Lines 202-206. */
  lemma TestC5B10Assign5To11D()
    ensures ToStr(Assign(Assign(Assign(Clear(New('A')), 5, 10, 'C'), 10, 15, 'B'), 5, 11, 'D'))
            == "5->D\n"
  {
    BuiltC5B10By10To15B();
    PlacedC5B10Assign5To11D();
    TidyD5();
    AssignByShape(C5B10, 5, 11, 'D', [Entry(5, 'D')], [Entry(5, 'D')]);
    TextD5();
  }

  /** Lines 208-212. */
  lemma TestC5B10Assign10To11D()
    ensures ToStr(Assign(Assign(Assign(Clear(New('A')), 5, 10, 'C'), 10, 15, 'B'), 10, 11, 'D'))
            == "5->C\n10->D\n"
  {
    BuiltC5B10By10To15B();
    PlacedC5B10Assign10To11D();
    TidyC5D10();
    AssignByShape(C5B10, 10, 11, 'D', [Entry(5, 'C'), Entry(10, 'D')], [Entry(5, 'C'), Entry(10, 'D')]);
    TextC5D10();
  }

  /** Lines 214-218. */
  lemma TestC5B10Assign11To11D()
    ensures ToStr(Assign(Assign(Assign(Clear(New('A')), 5, 10, 'C'), 10, 15, 'B'), 11, 11, 'D'))
            == "5->C\n10->B\n"
  {
    BuiltC5B10By10To15B();
    TextC5B10();
  }

  /** Lines 220-224. */
  lemma TestC5B10Assign11To15B()
    ensures ToStr(Assign(Assign(Assign(Clear(New('A')), 5, 10, 'C'), 10, 15, 'B'), 11, 15, 'B'))
            == "5->C\n10->B\n"
  {
    BuiltC5B10By10To15B();
    PlacedC5B10Assign11To15B();
    TidyC5B10B11();
    AssignByShape(C5B10, 11, 15, 'B', [Entry(5, 'C'), Entry(10, 'B'), Entry(11, 'B')], [Entry(5, 'C'), Entry(10, 'B')]);
    TextC5B10();
  }

  /** Lines 226-230. */
  lemma TestC5B10Assign11To15D()
    ensures ToStr(Assign(Assign(Assign(Clear(New('A')), 5, 10, 'C'), 10, 15, 'B'), 11, 15, 'D'))
            == "5->C\n10->B\n11->D\n"
  {
    BuiltC5B10By10To15B();
    PlacedC5B10Assign11To15D();
    TidyC5B10D11();
    AssignByShape(C5B10, 11, 15, 'D', [Entry(5, 'C'), Entry(10, 'B'), Entry(11, 'D')], [Entry(5, 'C'), Entry(10, 'B'), Entry(11, 'D')]);
    TextC5B10D11();
  }

  /** Lines 232-236. */
  lemma TestC5B10Assign4To5D()
    ensures ToStr(Assign(Assign(Assign(Clear(New('A')), 5, 10, 'C'), 10, 15, 'B'), 4, 5, 'D'))
            == "4->D\n5->C\n10->B\n"
  {
    BuiltC5B10By10To15B();
    PlacedC5B10Assign4To5D();
    TidyD4C5B10();
    AssignByShape(C5B10, 4, 5, 'D', [Entry(4, 'D'), Entry(5, 'C'), Entry(10, 'B')], [Entry(4, 'D'), Entry(5, 'C'), Entry(10, 'B')]);
    TextD4C5B10();
  }

  /** Lines 238-242. */
  lemma TestC5B10Assign1To4D()
    ensures ToStr(Assign(Assign(Assign(Clear(New('A')), 5, 10, 'C'), 10, 15, 'B'), 1, 4, 'D'))
            == "1->D\n4->C\n10->B\n"
  {
    BuiltC5B10By10To15B();
    PlacedC5B10Assign1To4D();
    TidyD1C4B10();
    AssignByShape(C5B10, 1, 4, 'D', [Entry(1, 'D'), Entry(4, 'C'), Entry(10, 'B')], [Entry(1, 'D'), Entry(4, 'C'), Entry(10, 'B')]);
    TextD1C4B10();
  }

  /** Lines 244-249. */
  lemma TestC5B10D15Assign4To20E()
    ensures ToStr(Assign(Assign(Assign(Assign(Clear(New('A')), 5, 10, 'C'), 10, 15, 'B'), 15, 20, 'D'), 4, 20, 'E'))
            == "4->E\n"
  {
    BuiltC5B10D15By15To20D();
    PlacedC5B10D15Assign4To20E();
    TidyE4();
    AssignByShape(C5B10D15, 4, 20, 'E', [Entry(4, 'E')], [Entry(4, 'E')]);
    TextE4();
  }

  /** Lines 251-256. */
  lemma TestC5B10D15Assign4To15E()
    ensures ToStr(Assign(Assign(Assign(Assign(Clear(New('A')), 5, 10, 'C'), 10, 15, 'B'), 15, 20, 'D'), 4, 15, 'E'))
            == "4->E\n15->D\n"
  {
    BuiltC5B10D15By15To20D();
    PlacedC5B10D15Assign4To15E();
    TidyE4D15();
    AssignByShape(C5B10D15, 4, 15, 'E', [Entry(4, 'E'), Entry(15, 'D')], [Entry(4, 'E'), Entry(15, 'D')]);
    TextE4D15();
  }

  /** Lines 258-263. */
  lemma TestC5B10D15Assign4To16E()
    ensures ToStr(Assign(Assign(Assign(Assign(Clear(New('A')), 5, 10, 'C'), 10, 15, 'B'), 15, 20, 'D'), 4, 16, 'E'))
            == "4->E\n"
  {
    BuiltC5B10D15By15To20D();
    PlacedC5B10D15Assign4To16E();
    TidyE4();
    AssignByShape(C5B10D15, 4, 16, 'E', [Entry(4, 'E')], [Entry(4, 'E')]);
    TextE4();
  }

  /** Lines 265-270. */
  lemma TestC5B10D15Assign4To10E()
    ensures ToStr(Assign(Assign(Assign(Assign(Clear(New('A')), 5, 10, 'C'), 10, 15, 'B'), 15, 20, 'D'), 4, 10, 'E'))
            == "4->E\n10->B\n15->D\n"
  {
    BuiltC5B10D15By15To20D();
    PlacedC5B10D15Assign4To10E();
    TidyE4B10D15();
    AssignByShape(C5B10D15, 4, 10, 'E', [Entry(4, 'E'), Entry(10, 'B'), Entry(15, 'D')], [Entry(4, 'E'), Entry(10, 'B'), Entry(15, 'D')]);
    TextE4B10D15();
  }

  /** Lines 272-277. */
  lemma TestC5B10D15Assign4To11E()
    ensures ToStr(Assign(Assign(Assign(Assign(Clear(New('A')), 5, 10, 'C'), 10, 15, 'B'), 15, 20, 'D'), 4, 11, 'E'))
            == "4->E\n11->B\n15->D\n"
  {
    BuiltC5B10D15By15To20D();
    PlacedC5B10D15Assign4To11E();
    TidyE4B11D15();
    AssignByShape(C5B10D15, 4, 11, 'E', [Entry(4, 'E'), Entry(11, 'B'), Entry(15, 'D')], [Entry(4, 'E'), Entry(11, 'B'), Entry(15, 'D')]);
    TextE4B11D15();
  }
}
