/** The aggregation performed by `HuluParser.process_lines`: a line becomes
    a set of words, and every search set contained in that set adds one to
    the count of each of the line's other words, in a counter kept per
    search set. The folds below follow the loops of the source; the lemmas
    give their closed form. */
module Tallying {
  import opened Strings

  type Word = string
  type WordSet = set<Word>
  /** Python's `Counter`, restricted to what the parser does with it. */
  type Counter = map<Word, nat>
  /** `_cumulative_sets`: one counter per search set that has matched. */
  type Tallies = map<WordSet, Counter>

  /** `set(line.split(','))`: the distinct comma-separated tokens of a line.
      A line always yields at least one token, "" for an empty line. */
  function WordSetOf(line: string): (ws: WordSet)
    ensures ws != {}
    ensures forall w :: w in ws ==> ',' !in w
  {
    var parts := SplitOn(line, ',');
    SplitOnPieces(line, ',');
    var ws := set w | w in parts;
    assert parts[0] in ws;
    ws
  }

  /** `Counter(words)`: every word counted once. */
  function NewCounter(words: WordSet): (r: Counter)
    ensures r.Keys == words
    ensures forall w :: Get(r, w) == (if w in words then 1 else 0)
  {
    map w | w in words :: 1
  }

  /** The count of `w` in `c`, 0 when absent (a `Counter` lookup). */
  function Get(c: Counter, w: Word): nat
  {
    if w in c then c[w] else 0
  }

  /** `c.update(words)`: every word of `words` gains one, a word not yet
      counted entering with one; no other count changes. */
  function Update(c: Counter, words: WordSet): (r: Counter)
    ensures r.Keys == c.Keys + words
    ensures forall w :: Get(r, w) == Get(c, w) + (if w in words then 1 else 0)
    ensures (forall w :: w in c ==> c[w] >= 1) ==> forall w :: w in r ==> r[w] >= 1
  {
    map w | w in c.Keys + words :: Get(c, w) + (if w in words then 1 else 0)
  }

  /** The test of the source, "as many common words as search words". */
  predicate AllFound(line: WordSet, s: WordSet)
  {
    |line * s| == |s|
  }

  /** One visit of search set `s` for a line: on a match, the words of the
      line that are not search words are added to `s`'s counter, which is
      created on the first match. */
  function Visit(acc: Tallies, line: WordSet, s: WordSet): Tallies
  {
    if AllFound(line, s) then
      var unique := line - s;
      if s in acc then acc[s := Update(acc[s], unique)]
      else acc[s := NewCounter(unique)]
    else acc
  }

  /** The inner loop over the search sets, in list order, for one line. */
  function AddLine(acc: Tallies, line: WordSet, sets: seq<WordSet>): Tallies
  {
    if |sets| == 0 then acc
    else Visit(AddLine(acc, line, sets[..|sets| - 1]), line, sets[|sets| - 1])
  }

  /** The outer loop over the lines, in file order. */
  function AddLines(acc: Tallies, lines: seq<string>, sets: seq<WordSet>): Tallies
  {
    if |lines| == 0 then acc
    else AddLine(AddLines(acc, lines[..|lines| - 1], sets), WordSetOf(lines[|lines| - 1]), sets)
  }

  /** One more search set or one more line extends the folds by one step. */
  lemma AddLineSnoc(acc: Tallies, line: WordSet, sets: seq<WordSet>, j: nat)
    requires j < |sets|
    ensures AddLine(acc, line, sets[..j + 1]) == Visit(AddLine(acc, line, sets[..j]), line, sets[j])
  {
    assert sets[..j + 1][..j] == sets[..j];
  }

  lemma AddLinesSnoc(acc: Tallies, lines: seq<string>, sets: seq<WordSet>, i: nat)
    requires i < |lines|
    ensures AddLines(acc, lines[..i + 1], sets) == AddLine(AddLines(acc, lines[..i], sets), WordSetOf(lines[i]), sets)
  {
    assert lines[..i + 1][..i] == lines[..i];
  }

  // Reference definitions for the closed form of the aggregation.

  /** The count of word `w` in the tally of search set `s`, 0 when either is absent. */
  function Count(acc: Tallies, s: WordSet, w: Word): nat
  {
    if s in acc then Get(acc[s], w) else 0
  }

  /** How many times `s` is listed among the search sets. */
  function Occ(sets: seq<WordSet>, s: WordSet): nat
  {
    if |sets| == 0 then 0
    else Occ(sets[..|sets| - 1], s) + (if sets[|sets| - 1] == s then 1 else 0)
  }

  /** How many of the lines contain all of `s` and also the non-search word `w`. */
  function Hits(lines: seq<string>, s: WordSet, w: Word): nat
  {
    if |lines| == 0 then 0
    else
      var l := WordSetOf(lines[|lines| - 1]);
      Hits(lines[..|lines| - 1], s, w) + (if s <= l && w in l - s then 1 else 0)
  }

  /** Some line contains all of `s`. */
  predicate Matched(lines: seq<string>, s: WordSet)
  {
    exists i :: 0 <= i < |lines| && s <= WordSetOf(lines[i])
  }

  /** Every count that is stored is at least one. */
  predicate Positive(acc: Tallies)
  {
    forall s, w :: s in acc && w in acc[s] ==> acc[s][w] >= 1
  }

  /** The source's cardinality test is exactly the subset test. */
  lemma {:induction false} AllFoundIsSubset(line: WordSet, s: WordSet)
    ensures AllFound(line, s) <==> s <= line
  {
    var common := line * s;
    if s <= line {
      assert common == s;
    } else {
      var missing := s - line;
      assert s == common + missing;
      assert common !! missing;
      assert |s| == |common| + |missing|;
      assert |missing| > 0;
    }
  }

  /** A search set listed at all is listed a positive number of times. */
  lemma {:induction false} OccPositive(sets: seq<WordSet>, s: WordSet)
    ensures Occ(sets, s) > 0 <==> s in sets
  {
    if |sets| > 0 {
      var pre := sets[..|sets| - 1];
      OccPositive(pre, s);
      assert sets == pre + [sets[|sets| - 1]];
    }
  }

  lemma {:induction false} VisitEffect(acc: Tallies, line: WordSet, s: WordSet)
    requires Positive(acc)
    ensures Positive(Visit(acc, line, s))
    ensures forall t :: t in Visit(acc, line, s) <==> t in acc || (t == s && s <= line)
    ensures forall t, w :: Count(Visit(acc, line, s), t, w) ==
                           Count(acc, t, w) + (if t == s && s <= line && w in line - s then 1 else 0)
  {
    AllFoundIsSubset(line, s);
    if s <= line {
      var unique := line - s;
      var c := if s in acc then Update(acc[s], unique) else NewCounter(unique);
      assert forall w :: w in c ==> c[w] >= 1;
      assert forall w :: Get(c, w) == Count(acc, s, w) + (if w in unique then 1 else 0);
      SetEntryEffect(acc, s, c, unique);
    }
  }

  /** Putting in, for `s`, a counter that is one higher than before on
      `unique` and unchanged elsewhere changes only `s`'s counts, by one on
      `unique`, and keeps every count positive. */
  lemma SetEntryEffect(acc: Tallies, s: WordSet, c: Counter, unique: WordSet)
    requires Positive(acc)
    requires forall w :: w in c ==> c[w] >= 1
    requires forall w :: Get(c, w) == Count(acc, s, w) + (if w in unique then 1 else 0)
    ensures Positive(acc[s := c])
    ensures forall t :: t in acc[s := c] <==> t in acc || t == s
    ensures forall t, w :: Count(acc[s := c], t, w) == Count(acc, t, w) + (if t == s && w in unique then 1 else 0)
  {
  }

  /** One line: search set `s` gains an entry when it is listed and
      contained in the line, and each word of the line outside `s` gains as
      many counts as `s` is listed; nothing else changes. */
  lemma {:induction false} AddLineEffect(acc: Tallies, line: WordSet, sets: seq<WordSet>)
    requires Positive(acc)
    ensures Positive(AddLine(acc, line, sets))
    ensures forall s :: s in AddLine(acc, line, sets) <==> s in acc || (s in sets && s <= line)
    ensures forall s, w :: Count(AddLine(acc, line, sets), s, w) ==
                           Count(acc, s, w) + (if s <= line && w in line - s then Occ(sets, s) else 0)
  {
    if |sets| > 0 {
      var pre, last := sets[..|sets| - 1], sets[|sets| - 1];
      AddLineEffect(acc, line, pre);
      VisitEffect(AddLine(acc, line, pre), line, last);
      assert sets == pre + [last];
    }
  }

  /** The closed form of the aggregation: after the lines, the tally of `s`
      exists exactly when `s` is listed and some line contains it, and the
      count of `w` grew by the number of lines containing `s` and `w` (with
      `w` not in `s`), times the number of times `s` is listed. */
  lemma {:induction false} AddLinesEffect(acc: Tallies, lines: seq<string>, sets: seq<WordSet>)
    requires Positive(acc)
    ensures Positive(AddLines(acc, lines, sets))
    ensures forall s :: s in AddLines(acc, lines, sets) <==> s in acc || (s in sets && Matched(lines, s))
    ensures forall s, w :: Count(AddLines(acc, lines, sets), s, w) ==
                           Count(acc, s, w) + Occ(sets, s) * Hits(lines, s, w)
  {
    if |lines| > 0 {
      var pre, last := lines[..|lines| - 1], lines[|lines| - 1];
      var mid := AddLines(acc, pre, sets);
      AddLinesEffect(acc, pre, sets);
      AddLineEffect(mid, WordSetOf(last), sets);
      forall s {
        MatchedSnoc(lines, s);
      }
      forall s, w
        ensures Count(AddLines(acc, lines, sets), s, w) ==
                Count(acc, s, w) + Occ(sets, s) * Hits(lines, s, w)
      {
        HitsSnoc(lines, s, w, Occ(sets, s));
      }
    }
  }

  lemma {:induction false} MatchedSnoc(lines: seq<string>, s: WordSet)
    requires |lines| > 0
    ensures Matched(lines, s) <==>
            Matched(lines[..|lines| - 1], s) || s <= WordSetOf(lines[|lines| - 1])
  {
    var pre := lines[..|lines| - 1];
    if Matched(lines, s) {
      var i :| 0 <= i < |lines| && s <= WordSetOf(lines[i]);
      if i < |pre| { assert pre[i] == lines[i]; }
    }
    if Matched(pre, s) {
      var i :| 0 <= i < |pre| && s <= WordSetOf(pre[i]);
      assert lines[i] == pre[i];
    }
  }

  lemma {:induction false} HitsSnoc(lines: seq<string>, s: WordSet, w: Word, k: nat)
    requires |lines| > 0
    ensures var l := WordSetOf(lines[|lines| - 1]);
            k * Hits(lines, s, w) ==
            k * Hits(lines[..|lines| - 1], s, w) + (if s <= l && w in l - s then k else 0)
  {
    var l := WordSetOf(lines[|lines| - 1]);
    var h := Hits(lines[..|lines| - 1], s, w);
    var d := if s <= l && w in l - s then 1 else 0;
    assert Hits(lines, s, w) == h + d;
    Distribute(k, h, d);
  }

  lemma Distribute(k: nat, h: nat, d: nat)
    requires d <= 1
    ensures k * (h + d) == k * h + (if d == 1 then k else 0)
  {
  }

  /** The tally only grows: more lines never remove a search set's entry
      nor lower any count. */
  lemma {:induction false} TallyOnlyGrows(acc: Tallies, lines: seq<string>, sets: seq<WordSet>, s: WordSet, w: Word)
    requires Positive(acc)
    ensures s in acc ==> s in AddLines(acc, lines, sets)
    ensures Count(AddLines(acc, lines, sets), s, w) >= Count(acc, s, w)
  {
    AddLinesEffect(acc, lines, sets);
    Grows(Count(acc, s, w), Occ(sets, s), Hits(lines, s, w), Count(AddLines(acc, lines, sets), s, w));
  }

  lemma Grows(before: nat, k: nat, h: nat, after: nat)
    requires after == before + k * h
    ensures after >= before
  {
  }

  /** A search word never counts for its own search set. */
  lemma {:induction false} HitsOfSearchWord(lines: seq<string>, s: WordSet, w: Word)
    requires w in s
    ensures Hits(lines, s, w) == 0
  {
    if |lines| > 0 {
      HitsOfSearchWord(lines[..|lines| - 1], s, w);
    }
  }

  /** After a fresh run, the tally of a search set never has one of its own
      search words as a key, and every stored count is at least one. */
  lemma {:induction false} SearchWordsNeverCounted(lines: seq<string>, sets: seq<WordSet>, s: WordSet, w: Word)
    requires s in AddLines(map[], lines, sets)
    requires w in s
    ensures w !in AddLines(map[], lines, sets)[s]
  {
    AddLinesEffect(map[], lines, sets);
    HitsOfSearchWord(lines, s, w);
    assert Count(AddLines(map[], lines, sets), s, w) == 0;
  }

  /** A search set whose first matching line has no other words still gets
      an entry, and that counter is empty. */
  lemma {:induction false} FirstMatchCreatesEntry(acc: Tallies, line: WordSet, sets: seq<WordSet>, s: WordSet)
    requires Positive(acc)
    requires s in sets && s !in acc && line == s
    ensures s in AddLine(acc, line, sets)
    ensures AddLine(acc, line, sets)[s] == map[]
  {
    var after := AddLine(acc, line, sets);
    AddLineEffect(acc, line, sets);
    forall w
      ensures w !in after[s]
    {
      assert Count(after, s, w) == 0;
    }
    assert after[s].Keys == {};
  }

  /** A line splits into its tokens with duplicates collapsed. */
  lemma {:induction false} WordSetOfJoin(tokens: seq<string>)
    requires |tokens| >= 1
    requires forall k :: 0 <= k < |tokens| ==> ',' !in tokens[k]
    ensures WordSetOf(Join(tokens, ',')) == set t | t in tokens
  {
    SplitJoin(tokens, ',');
  }
}
