/** Worked examples: small input files and what a run of the parser makes
    of them. The example lines are parameters pinned to literal values by
    `requires` rather than literals in the `ensures`: this keeps each
    literal out of the solver's context until the lemma that needs it. */
module Scenarios {
  import opened Strings
  import opened Tallying
  import opened HuluParsing

  /** A line without '#' cannot contain the divider. */
  lemma {:induction false} NoHashNoDivider(line: string)
    requires '#' !in line
    ensures !Contains(line, Divider)
  {
    forall i: nat | i <= |line|
      ensures !OccursAt(line, Divider, i)
    {
      if i + |Divider| <= |line| {
        assert line[i..i + |Divider|][0] == line[i];
      }
    }
  }

  /** The word sets of the three data lines of the first example. */
  lemma {:induction false} ExampleWordSets(l0: string, l1: string, l2: string)
    requires l0 == "a,b,c" && l1 == "a,x" && l2 == "b,a,c,d"
    ensures WordSetOf(l0) == {"a", "b", "c"}
    ensures WordSetOf(l1) == {"a", "x"}
    ensures WordSetOf(l2) == {"a", "b", "c", "d"}
  {
    FirstLineWords(l0);
    SecondLineWords(l1);
    ThirdLineWords(l2);
  }

  lemma {:induction false} FirstLineWords(l: string)
    requires l == "a,b,c"
    ensures WordSetOf(l) == {"a", "b", "c"}
  {
    ThreeWords(l, "a", "b", "c");
  }

  lemma {:induction false} SecondLineWords(l: string)
    requires l == "a,x"
    ensures WordSetOf(l) == {"a", "x"}
  {
    TwoWords(l, "a", "x");
  }

  lemma {:induction false} ThirdLineWords(l: string)
    requires l == "b,a,c,d"
    ensures WordSetOf(l) == {"a", "b", "c", "d"}
  {
    FourWords(l, "b", "a", "c", "d");
  }

  /** The splits of lines of two, three and four comma-free tokens. */
  lemma {:induction false} TwoWords(line: string, x: string, y: string)
    requires ',' !in x && ',' !in y
    requires line == x + [','] + y
    ensures SplitOn(line, ',') == [x, y]
  {
    SplitOnFirst(x, ',', y);
    SplitOnNoSeparator(y, ',');
  }

  lemma {:induction false} ThreeWords(line: string, x: string, y: string, z: string)
    requires ',' !in x && ',' !in y && ',' !in z
    requires line == x + [','] + y + [','] + z
    ensures SplitOn(line, ',') == [x, y, z]
  {
    var rest := y + [','] + z;
    assert line == x + [','] + rest;
    SplitOnFirst(x, ',', rest);
    TwoWords(rest, y, z);
  }

  lemma {:induction false} FourWords(line: string, x: string, y: string, z: string, u: string)
    requires ',' !in x && ',' !in y && ',' !in z && ',' !in u
    requires line == x + [','] + y + [','] + z + [','] + u
    ensures SplitOn(line, ',') == [x, y, z, u]
  {
    var rest := y + [','] + z + [','] + u;
    assert line == x + [','] + rest;
    SplitOnFirst(x, ',', rest);
    ThreeWords(rest, y, z, u);
  }

  /** Over those lines, {a, b} is contained in the first and third line. */
  lemma {:induction false} ExampleHits(l0: string, l1: string, l2: string, w: Word)
    requires l0 == "a,b,c" && l1 == "a,x" && l2 == "b,a,c,d"
    ensures Hits([l0, l1, l2], {"a", "b"}, w) == (if w == "c" then 2 else if w == "d" then 1 else 0)
  {
    ExampleWordSets(l0, l1, l2);
    HitsOfThreeLines([l0, l1, l2], {"a", "b"}, w, {"a", "b", "c"}, {"a", "x"}, {"a", "b", "c", "d"});
  }

  /** `Hits` over three lines, given their word sets. */
  lemma {:induction false} HitsOfThreeLines(lines: seq<string>, s: WordSet, w: Word, l0: WordSet, l1: WordSet, l2: WordSet)
    requires |lines| == 3
    requires WordSetOf(lines[0]) == l0 && WordSetOf(lines[1]) == l1 && WordSetOf(lines[2]) == l2
    ensures Hits(lines, s, w) == (if s <= l0 && w in l0 - s then 1 else 0) +
                                 (if s <= l1 && w in l1 - s then 1 else 0) +
                                 (if s <= l2 && w in l2 - s then 1 else 0)
  {
    var p2, p1 := lines[..2], lines[..1];
    assert p2[..1] == p1 && p2[1] == lines[1] && p1[0] == lines[0];
    assert p1[..0] == [];
    assert Hits(p1, s, w) == (if s <= l0 && w in l0 - s then 1 else 0);
    assert Hits(p2, s, w) == Hits(p1, s, w) + (if s <= l1 && w in l1 - s then 1 else 0);
  }

  /** A run with a single search set that some line contains writes one
      line, counting each other word by the lines it shares with the set. */
  lemma {:induction false} SingleSearchSet(text: string, s: WordSet)
    requires SearchSets(text) == [s] && Matched(Body(text), s)
    ensures Pipeline(text).Ok? && |Pipeline(text).value| == 1
    ensures forall w :: Get(Pipeline(text).value[0], w) == Hits(Body(text), s, w)
    ensures forall w :: w in Pipeline(text).value[0] ==> Pipeline(text).value[0][w] >= 1
  {
    PipelineSpec(text);
    var sets, body, r := SearchSets(text), Body(text), Pipeline(text);
    assert Occ(sets, sets[0]) == 1 by {
      assert sets[..0] == [];
    }
    forall w
      ensures Get(r.value[0], w) == Hits(body, s, w)
    {
      OnceTimes(Occ(sets, sets[0]), Hits(body, s, w));
    }
  }

  lemma OnceTimes(a: nat, b: nat)
    requires a == 1
    ensures a * b == b
  {
  }

  /** A run with a single search set that no line contains raises
      `KeyError` for that set: there is no empty-object fallback. */
  lemma {:induction false} SingleUnmatchedSearchSet(text: string, s: WordSet)
    requires SearchSets(text) == [s] && !Matched(Body(text), s)
    ensures Pipeline(text) == KeyError(s)
  {
    PipelineSpec(text);
  }

  /** The first example file: three data lines, the divider and the one
      search line "a,b". */
  lemma {:induction false} ExampleFile(l0: string, l1: string, l2: string, q: string)
    requires l0 == "a,b,c" && l1 == "a,x" && l2 == "b,a,c,d" && q == "a,b"
    ensures Body(Layout([l0, l1, l2], [q])) == [l0, l1, l2]
    ensures SearchSets(Layout([l0, l1, l2], [q])) == [{"a", "b"}]
  {
    assert DataLines([l0, l1, l2]) by {
      NoHashNoDivider(l0);
      NoHashNoDivider(l1);
      NoHashNoDivider(l2);
    }
    assert HeaderSets([q]) == [{"a", "b"}] by {
      TwoWords(q, "a", "b");
      assert WordSetOf(q) == {"a", "b"};
      HeaderSetsOfNonEmptyLines([q]);
    }
    LayoutRoundTrip([l0, l1, l2], [q]);
  }

  /** Search set {a, b} over the lines "a,b,c", "a,x" and "b,a,c,d": the
      second line lacks "b", the others add their extra words, so the one
      output line holds c: 2 and d: 1. */
  lemma {:induction false} TwoMatchingLines(l0: string, l1: string, l2: string, q: string)
    requires l0 == "a,b,c" && l1 == "a,x" && l2 == "b,a,c,d" && q == "a,b"
    ensures Pipeline(Layout([l0, l1, l2], [q])) == Ok([map["c" := 2, "d" := 1]])
  {
    var s: WordSet := {"a", "b"};
    var text := Layout([l0, l1, l2], [q]);
    ExampleFile(l0, l1, l2, q);
    ExampleWordSets(l0, l1, l2);
    assert Matched(Body(text), s) by {
      assert [l0, l1, l2][0] == l0 && s <= WordSetOf(l0);
    }
    SingleSearchSet(text, s);
    var value := Pipeline(text).value;
    ExampleRow(l0, l1, l2, value[0]);
    assert value == [value[0]];
  }

  /** The counter whose counts are those of the example is c: 2, d: 1. */
  lemma {:induction false} ExampleRow(l0: string, l1: string, l2: string, row: Counter)
    requires l0 == "a,b,c" && l1 == "a,x" && l2 == "b,a,c,d"
    requires forall w :: Get(row, w) == Hits([l0, l1, l2], {"a", "b"}, w)
    requires forall w :: w in row ==> row[w] >= 1
    ensures row == map["c" := 2, "d" := 1]
  {
    var expected := map["c" := 2, "d" := 1];
    forall w | w in row
      ensures w in expected && row[w] == expected[w]
    {
      ExampleHits(l0, l1, l2, w);
    }
    forall w | w in expected
      ensures w in row
    {
      ExampleHits(l0, l1, l2, w);
    }
    assert row.Keys == expected.Keys;
  }

  /** The file with the one data line "a,b" and the one search line "z". */
  lemma {:induction false} UnmatchedFile(l: string, q: string)
    requires l == "a,b" && q == "z"
    ensures Body(Layout([l], [q])) == [l]
    ensures SearchSets(Layout([l], [q])) == [{"z"}]
  {
    assert DataLines([l]) by {
      NoHashNoDivider(l);
    }
    assert HeaderSets([q]) == [{"z"}] by {
      SplitOnNoSeparator(q, ',');
      assert WordSetOf(q) == {"z"};
      HeaderSetsOfNonEmptyLines([q]);
    }
    LayoutRoundTrip([l], [q]);
  }

  /** The line "a,b" does not contain the search set {z}: the run raises
      `KeyError` for it. */
  lemma {:induction false} UnmatchedSearchSet(l: string, q: string)
    requires l == "a,b" && q == "z"
    ensures Pipeline(Layout([l], [q])) == KeyError({"z"})
  {
    assert !Matched([l], {"z"}) by {
      TwoWords(l, "a", "b");
      assert [l][0] == l && !({"z"} <= WordSetOf(l));
    }
    UnmatchedFile(l, q);
    SingleUnmatchedSearchSet(Layout([l], [q]), {"z"});
  }
}
