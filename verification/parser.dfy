/** `HuluParser` of hulu/pycon2014/hulu_parser.py. The input file is the
    string `contents` with a read position `cursor`; the search sets and the
    tallies are fields that the methods update in place, as the class does.
    In the file the parser reads, the data lines come first, then a line
    holding the divider "####", then the search-word lines. */
module HuluParsing {
  import opened Strings
  import opened Tallying

  /** `_word_divider` */
  const Divider: string := "####"

  /** What `write_out_results` produces: one tally per search set, or the
      `KeyError` raised by the first search set that has no tally. */
  datatype Result<T> = Ok(value: T) | KeyError(key: WordSet)

  /** `_validate_line`'s test `line.find(divider) > -1`: the line contains
      the divider somewhere. */
  function IsDividerLine(line: string): (b: bool)
    ensures b <==> Contains(line, Divider)
  {
    Find(line, Divider) > -1
  }

  /** The offset `_seek_to_search_words` seeks to: one character (the line
      break) past the first divider, or 4 when the text has no divider. */
  function SearchOffset(text: string): (r: nat)
    ensures r == 4 <==> !Contains(text, Divider)
    ensures r != 4 ==> r >= 5 && OccursAt(text, Divider, r - 5)
    ensures r != 4 ==> forall i: nat :: i < r - 5 ==> !OccursAt(text, Divider, i)
  {
    Find(text, Divider) + |Divider| + 1
  }

  /** The search sets the loop of `parse_search_words` appends, in order:
      one per non-empty line. */
  function HeaderSets(lines: seq<string>): seq<WordSet>
  {
    if |lines| == 0 then []
    else
      var last := lines[|lines| - 1];
      HeaderSets(lines[..|lines| - 1]) + (if last != "" then [WordSetOf(last)] else [])
  }

  /** The lines `process_lines` aggregates: those before the first line that
      contains the divider, or all of them when none does. */
  function BodyLines(lines: seq<string>): (r: seq<string>)
    ensures |r| <= |lines| && r == lines[..|r|]
    ensures forall k :: 0 <= k < |r| ==> !IsDividerLine(r[k])
    ensures |r| < |lines| ==> IsDividerLine(lines[|r|])
  {
    if |lines| == 0 then []
    else if IsDividerLine(lines[0]) then []
    else [lines[0]] + BodyLines(lines[1..])
  }

  /** The search sets a fresh parser loads from `text`. */
  function SearchSets(text: string): seq<WordSet>
  {
    HeaderSets(SplitLines(Rest(text, SearchOffset(text))))
  }

  /** The lines a parser aggregates from `text`. */
  function Body(text: string): seq<string>
  {
    BodyLines(SplitOn(text, '\n'))
  }

  /** `write_out_results`: the tallies of the search sets in declaration
      order, or a `KeyError` naming the first search set without a tally. */
  function Results(sets: seq<WordSet>, tallies: Tallies): (r: Result<seq<Counter>>)
    ensures r.Ok? <==> forall k :: 0 <= k < |sets| ==> sets[k] in tallies
    ensures r.Ok? ==> |r.value| == |sets|
    ensures r.Ok? ==> forall k :: 0 <= k < |sets| ==> sets[k] in tallies && r.value[k] == tallies[sets[k]]
    ensures r.KeyError? ==> exists k :: 0 <= k < |sets| && sets[k] == r.key && r.key !in tallies &&
                                        forall j :: 0 <= j < k ==> sets[j] in tallies
  {
    if |sets| == 0 then Ok([])
    else if sets[0] !in tallies then KeyError(sets[0])
    else
      match Results(sets[1..], tallies)
      case Ok(rows) => Ok([tallies[sets[0]]] + rows)
      case KeyError(s) =>
        assert forall j :: 1 <= j < |sets| ==> sets[j] == sets[1..][j - 1];
        KeyError(s)
  }

  /** `main`: load, aggregate and write, on a fresh parser. */
  function Pipeline(text: string): Result<seq<Counter>>
  {
    var sets := SearchSets(text);
    Results(sets, AddLines(map[], Body(text), sets))
  }

  class HuluParser {
    /** The text of the input file. */
    const contents: string
    /** The position of the file object. */
    var cursor: nat
    /** `_search_sets` */
    var searchSets: seq<WordSet>
    /** `_cumulative_sets` */
    var cumulativeSets: Tallies

    /** `__init__`: the file is opened at its start; the search sets and the
        tallies start empty for this run. */
    constructor (contents: string)
      ensures this.contents == contents
      ensures cursor == 0 && searchSets == [] && cumulativeSets == map[]
    {
      this.contents := contents;
      cursor := 0;
      searchSets := [];
      cumulativeSets := map[];
    }

    /** `_seek_to_search_words`: read from the current position, look for
        the divider, and seek one character past it. */
    method SeekToSearchWords()
      modifies this`cursor
      ensures cursor == SearchOffset(Rest(contents, old(cursor)))
    {
      var start := Find(Rest(contents, cursor), Divider);
      cursor := start + |Divider| + 1;
    }

    /** `parse_search_words`: every non-empty line after the divider becomes
        a search set, appended in file order. */
    method ParseSearchWords()
      modifies this`cursor, this`searchSets
      ensures cursor >= |contents|
      ensures searchSets ==
              old(searchSets) + HeaderSets(SplitLines(Rest(contents, SearchOffset(Rest(contents, old(cursor))))))
    {
      SeekToSearchWords();
      var text := Rest(contents, cursor);
      if cursor < |contents| {
        cursor := |contents|;
      }
      var lines := SplitLines(text);
      var i := 0;
      while i < |lines|
        invariant 0 <= i <= |lines|
        invariant searchSets == old(searchSets) + HeaderSets(lines[..i])
        modifies this`searchSets
      {
        ghost var added: seq<WordSet> := if lines[i] != "" then [WordSetOf(lines[i])] else [];
        if lines[i] != "" {
          searchSets := searchSets + [WordSetOf(lines[i])];
        }
        HeaderSetsSnoc(lines, i);
        ConcatAssoc(old(searchSets), HeaderSets(lines[..i]), added);
        i := i + 1;
      }
      assert lines[..i] == lines;
    }

    /** `process_lines`: from the start of the file, each line before the
        first divider line visits every search set in list order. */
    method ProcessLines()
      modifies this`cursor, this`cumulativeSets
      ensures cursor == |contents|
      ensures cumulativeSets == AddLines(old(cumulativeSets), Body(contents), searchSets)
    {
      cursor := 0;
      var text := Rest(contents, cursor);
      assert text == contents;
      cursor := |contents|;
      var lines := SplitOn(text, '\n');
      ghost var bodyLength := |BodyLines(lines)|;
      var i := 0;
      while i < |lines|
        invariant 0 <= i <= |lines|
        invariant i <= bodyLength
        invariant cumulativeSets == AddLines(old(cumulativeSets), lines[..i], searchSets)
        modifies this`cumulativeSets
      {
        if IsDividerLine(lines[i]) {
          break;
        }
        BodyContinues(lines, i);
        VisitSearchSets(WordSetOf(lines[i]));
        AddLinesSnoc(old(cumulativeSets), lines, searchSets, i);
        i := i + 1;
      }
      BodyEnds(lines, i);
    }

    /** The inner loop of `process_lines` for one line: every search set
        whose words all occur in the line, in list order, adds the line's
        other words to its counter, creating the counter on its first match. */
    method VisitSearchSets(lineSet: WordSet)
      modifies this`cumulativeSets
      ensures cumulativeSets == AddLine(old(cumulativeSets), lineSet, searchSets)
    {
      var j := 0;
      while j < |searchSets|
        invariant 0 <= j <= |searchSets|
        invariant cumulativeSets == AddLine(old(cumulativeSets), lineSet, searchSets[..j])
      {
        var wordSet := searchSets[j];
        var common := lineSet * wordSet;
        ghost var before := cumulativeSets;
        if |common| == |wordSet| {
          var unique := lineSet - wordSet;
          if wordSet in cumulativeSets {
            cumulativeSets := cumulativeSets[wordSet := Update(cumulativeSets[wordSet], unique)];
          } else {
            cumulativeSets := cumulativeSets[wordSet := NewCounter(unique)];
          }
        }
        assert cumulativeSets == Visit(before, lineSet, wordSet);
        AddLineSnoc(old(cumulativeSets), lineSet, searchSets, j);
        j := j + 1;
      }
      assert searchSets[..j] == searchSets;
    }

    /** `write_out_results`: the tallies in the order of the search sets;
        the first search set without a tally raises `KeyError`. */
    method WriteOutResults() returns (r: Result<seq<Counter>>)
      ensures r == Results(searchSets, cumulativeSets)
    {
      var sets, tallies := searchSets, cumulativeSets;
      var rows: seq<Counter> := [];
      var i := 0;
      while i < |sets|
        invariant 0 <= i <= |sets|
        invariant forall k :: 0 <= k < i ==> sets[k] in tallies
        invariant |rows| == i && forall k :: 0 <= k < i ==> rows[k] == tallies[sets[k]]
      {
        if sets[i] !in tallies {
          ghost var expected := Results(sets, tallies);
          ghost var k :| 0 <= k < |sets| && sets[k] == expected.key && expected.key !in tallies &&
                         forall j :: 0 <= j < k ==> sets[j] in tallies;
          assert !(k < i) && !(i < k);
          return KeyError(sets[i]);
        }
        rows := rows + [tallies[sets[i]]];
        i := i + 1;
      }
      ghost var expected := Results(sets, tallies);
      assert expected.Ok? && |expected.value| == |rows|;
      assert rows == expected.value;
      return Ok(rows);
    }
  }

  /** `main`: a fresh parser loads the search sets, aggregates the lines and
      writes the results. */
  method Run(contents: string) returns (r: Result<seq<Counter>>)
    ensures r == Pipeline(contents)
  {
    var parser := new HuluParser(contents);
    assert Rest(contents, 0) == contents;
    parser.ParseSearchWords();
    assert parser.searchSets == SearchSets(contents);
    parser.ProcessLines();
    assert parser.cumulativeSets == AddLines(map[], Body(contents), SearchSets(contents));
    r := parser.WriteOutResults();
  }

  /** A line of the body that is not a divider line is followed by more body. */
  lemma {:induction false} BodyContinues(lines: seq<string>, i: nat)
    requires i < |lines| && i <= |BodyLines(lines)|
    requires !IsDividerLine(lines[i])
    ensures i < |BodyLines(lines)|
  {
  }

  /** The loop of `process_lines` stops exactly where `BodyLines` ends. */
  lemma {:induction false} BodyEnds(lines: seq<string>, i: nat)
    requires i <= |lines| && i <= |BodyLines(lines)|
    requires i == |lines| || IsDividerLine(lines[i])
    ensures BodyLines(lines) == lines[..i]
  {
    var r := BodyLines(lines);
    if i < |r| {
      assert false;
    }
  }

  /** The lines before the first divider line are aggregated, whatever follows. */
  lemma {:induction false} BodyLinesAt(lines: seq<string>, i: nat)
    requires i <= |lines|
    requires forall k :: 0 <= k < i ==> !IsDividerLine(lines[k])
    requires i == |lines| || IsDividerLine(lines[i])
    ensures BodyLines(lines) == lines[..i]
  {
    var r := BodyLines(lines);
    if |r| < i {
      assert false;
    } else if |r| > i {
      assert false;
    }
  }

  /** One more line adds its word set, unless it is empty. */
  lemma HeaderSetsSnoc(lines: seq<string>, i: nat)
    requires i < |lines|
    ensures HeaderSets(lines[..i + 1]) ==
            HeaderSets(lines[..i]) + (if lines[i] != "" then [WordSetOf(lines[i])] else [])
  {
    assert lines[..i + 1][..i] == lines[..i];
  }

  /** The search sets of two runs of lines are those of each, in order. */
  lemma {:induction false} HeaderSetsAppend(a: seq<string>, b: seq<string>)
    ensures HeaderSets(a + b) == HeaderSets(a) + HeaderSets(b)
  {
    if |b| == 0 {
      assert a + b == a;
    } else {
      var pre := b[..|b| - 1];
      HeaderSetsAppend(a, pre);
      assert (a + b)[..|a + b| - 1] == a + pre;
      assert (a + b)[|a + b| - 1] == b[|b| - 1];
    }
  }

  /** Empty lines among the search-word lines contribute nothing. */
  lemma {:induction false} HeaderSetsSkipEmptyLines(a: seq<string>, b: seq<string>)
    ensures HeaderSets(a + [""] + b) == HeaderSets(a + b)
  {
    HeaderSetsAppend(a + [""], b);
    HeaderSetsAppend(a, [""]);
    HeaderSetsAppend(a, b);
    assert [""][..0] == [];
  }

  /** Without empty lines, the k-th search set is the word set of the k-th line. */
  lemma {:induction false} HeaderSetsOfNonEmptyLines(lines: seq<string>)
    requires forall k :: 0 <= k < |lines| ==> lines[k] != ""
    ensures |HeaderSets(lines)| == |lines|
    ensures forall k :: 0 <= k < |lines| ==> HeaderSets(lines)[k] == WordSetOf(lines[k])
  {
    if |lines| > 0 {
      var pre := lines[..|lines| - 1];
      HeaderSetsOfNonEmptyLines(pre);
    }
  }

  /** The file layout the parser expects: the data lines, the divider line,
      then the search-word lines, each line ended by '\n'. */
  function Layout(data: seq<string>, search: seq<string>): string
  {
    LinesText(data + [Divider] + search)
  }

  /** Data lines neither break lines nor contain the divider. */
  predicate DataLines(data: seq<string>)
  {
    forall k :: 0 <= k < |data| ==> '\n' !in data[k] && !Contains(data[k], Divider)
  }

  /** Search-word lines do not break lines. */
  predicate SearchLines(search: seq<string>)
  {
    forall k :: 0 <= k < |search| ==> '\n' !in search[k]
  }

  /** Aggregation stops at the first line containing the divider: that line
      and all later lines contribute to no tally. */
  lemma {:induction false} BodyStopsAtDivider(data: seq<string>, d: string, more: seq<string>)
    requires DataLines(data) && SearchLines(more)
    requires '\n' !in d && Contains(d, Divider)
    ensures Body(LinesText(data + [d] + more)) == data
  {
    var lines := data + [d] + more;
    assert LinesText(lines) + "" == LinesText(lines);
    SplitLinesText(lines, "");
    var all := lines + [""];
    assert SplitOn("", '\n') == [""];
    assert SplitOn(LinesText(lines), '\n') == all;
    assert all[|data|] == d;
    assert forall k :: 0 <= k < |data| ==> all[k] == data[k];
    BodyLinesAt(all, |data|);
    assert all[..|data|] == data;
  }

  /** A well-formed file gives back its data lines as the body and the
      word sets of its non-empty search lines as the search sets. */
  lemma {:induction false} LayoutRoundTrip(data: seq<string>, search: seq<string>)
    requires DataLines(data) && SearchLines(search)
    ensures Body(Layout(data, search)) == data
    ensures SearchSets(Layout(data, search)) == HeaderSets(search)
  {
    var text := Layout(data, search);
    assert Body(text) == data by {
      assert OccursAt(Divider, Divider, 0);
      BodyStopsAtDivider(data, Divider, search);
    }
    var n := |LinesText(data)|;
    var tail := "\n" + LinesText(search);
    assert text == LinesText(data) + Divider + tail by {
      assert data + [Divider] + search == data + ([Divider] + search);
      LinesTextAppend(data, [Divider] + search);
      assert LinesText([Divider] + search) == Divider + "\n" + LinesText(search);
    }
    assert SearchOffset(text) == n + 5 by {
      FindAfterLines(data, Divider, tail);
    }
    assert Rest(text, n + 5) == LinesText(search);
    SplitLinesOfLinesText(search);
  }

  /** Without a divider, nothing fails: the search words are read from
      offset 4 on and every line of the file is aggregated. */
  lemma {:induction false} MissingDivider(text: string)
    requires !Contains(text, Divider)
    ensures SearchOffset(text) == 4
    ensures Body(text) == SplitOn(text, '\n')
  {
    var lines := SplitOn(text, '\n');
    JoinSplit(text, '\n');
    forall k | 0 <= k < |lines|
      ensures !IsDividerLine(lines[k])
    {
      if Contains(lines[k], Divider) {
        ContainsJoin(lines, '\n', Divider, k);
      }
    }
    BodyLinesAt(lines, |lines|);
  }

  /** What a run writes: the run fails exactly when some search set matches
      no body line, naming such a set; otherwise the k-th tally counts each
      non-search word by the matching lines it occurs on, times the number
      of times its search set is listed, and never counts a search word. */
  lemma {:induction false} PipelineSpec(text: string)
    ensures Pipeline(text).Ok? <==>
            forall k :: 0 <= k < |SearchSets(text)| ==> Matched(Body(text), SearchSets(text)[k])
    ensures Pipeline(text).KeyError? ==>
            Pipeline(text).key in SearchSets(text) && !Matched(Body(text), Pipeline(text).key)
    ensures Pipeline(text).Ok? ==> |Pipeline(text).value| == |SearchSets(text)|
    ensures Pipeline(text).Ok? ==>
            forall k, w :: 0 <= k < |SearchSets(text)| ==>
              Get(Pipeline(text).value[k], w) ==
              Occ(SearchSets(text), SearchSets(text)[k]) * Hits(Body(text), SearchSets(text)[k], w)
    ensures Pipeline(text).Ok? ==>
            forall k, w :: 0 <= k < |SearchSets(text)| && w in Pipeline(text).value[k] ==>
              Pipeline(text).value[k][w] >= 1 && w !in SearchSets(text)[k]
  {
    var sets, body := SearchSets(text), Body(text);
    var tallies := AddLines(map[], body, sets);
    AddLinesEffect(map[], body, sets);
    assert forall s :: s in tallies <==> s in sets && Matched(body, s);
    assert forall s, w :: Count(tallies, s, w) == Occ(sets, s) * Hits(body, s, w);
    ResultsOfTallies(sets, body, tallies);
  }

  /** `Results` over tallies that have the closed form of a fresh run. */
  lemma ResultsOfTallies(sets: seq<WordSet>, body: seq<string>, tallies: Tallies)
    requires Positive(tallies)
    requires forall s :: s in tallies <==> s in sets && Matched(body, s)
    requires forall s, w :: Count(tallies, s, w) == Occ(sets, s) * Hits(body, s, w)
    ensures Results(sets, tallies).Ok? <==> forall k :: 0 <= k < |sets| ==> Matched(body, sets[k])
    ensures Results(sets, tallies).KeyError? ==>
            Results(sets, tallies).key in sets && !Matched(body, Results(sets, tallies).key)
    ensures Results(sets, tallies).Ok? ==> |Results(sets, tallies).value| == |sets|
    ensures Results(sets, tallies).Ok? ==>
            forall k, w :: 0 <= k < |sets| ==>
              Get(Results(sets, tallies).value[k], w) == Occ(sets, sets[k]) * Hits(body, sets[k], w)
    ensures Results(sets, tallies).Ok? ==>
            forall k, w :: 0 <= k < |sets| && w in Results(sets, tallies).value[k] ==>
              Results(sets, tallies).value[k][w] >= 1 && w !in sets[k]
  {
    var r := Results(sets, tallies);
    assert forall k :: 0 <= k < |sets| ==> sets[k] in sets;
    if r.Ok? {
      forall k, w | 0 <= k < |sets| && w in sets[k]
        ensures w !in r.value[k]
      {
        HitsOfSearchWord(body, sets[k], w);
        assert Count(tallies, sets[k], w) == 0;
      }
    }
  }
}
