# HuluParser in Dafny

A model of `HuluParser` from `hulu/pycon2014/hulu_parser.py` (PyCon 2014). The
parser reads one text file made of comma-separated data lines, then a line
holding the divider `####`, then search-word lines, one search set per line.
For each data line before the divider, it visits every search set in order.
When a line holds all words of a set, each of the line's other words gains one
in that set's counter. The first match creates the counter. Finally it writes
one JSON object per search set, keys sorted, in the order the sets were listed.

The model has five modules:

- `Strings` (strings.dfy): the Python string operations the parser uses,
  which are `str.find`, `str.split`, `str.splitlines` and `read()` after
  `seek()`. Each is a pure function, with the lemmas the rest needs: split
  and join are inverses, `splitlines` recovers the lines of a text, and
  `find` in a text laid out as lines.
- `Tallying` (tally.dfy): a line's word set, the `Counter` operations, and
  the aggregation as two folds. `Visit` is one search set for one line,
  `AddLine` covers every set for one line, and `AddLines` covers every
  line. The central theorem is `AddLinesEffect`, the fold's closed form:
  the count of word `w` for set `s` grows by the number of times `s` is
  listed, times the number of lines that contain all of `s` and also `w`,
  for `w` outside `s`; a word of `s` itself is never counted for `s`.
- `JsonOrder` (json_order.dfy): the order `dumps(..., sort_keys=True)`
  gives a tally's entries. Python's string `<` is proved a strict total
  order. The written key sequence is proved to list each key once, in
  strictly ascending order. `Entries` of a counter is the order in which
  each row returned by `WriteOutResults` (and `Pipeline`) is written out.
- `HuluParsing` (parser.dfy): the class `HuluParser`. Its fields are the
  file contents, the file position, `_search_sets` and `_cumulative_sets`.
  Each of its methods is modelled by a method with a loop, where the
  source has one. Each loop is proved against the specification
  functions `HeaderSets`, `BodyLines`, `AddLines` and `Results`.
  `Run` is `main`, proved equal to the function `Pipeline`.
  `PipelineSpec` states what a whole run writes.
- `Scenarios` (scenarios.dfy): worked examples as lemmas.
  - Search set `a,b` over the lines `a,b,c`, `a,x` and `b,a,c,d` gives
    `{"c": 2, "d": 1}`.
  - A search set that no line contains raises `KeyError`.

Three behaviours of the code are worth stating outright, since a reader of
the file format might expect otherwise; the model follows the code in each:

- The search words come after the first `####`: `_seek_to_search_words`
  seeks one character past it (hulu_parser.py:72-76), and `process_lines`
  aggregates the lines before it (`LayoutRoundTrip`).
- A missing divider is not an error: `find` returns -1, so the seek lands
  at offset 4 (hulu_parser.py:73-74), the search words are read from there
  and every line of the file is aggregated (`MissingDivider`).
- A search set that no line matched has no tally, and
  `self._cumulative_sets[word_set]` raises `KeyError` for it
  (hulu_parser.py:65); no empty object is written in its place. The model
  returns `KeyError` naming the first such set (`Results`, `PipelineSpec`,
  `UnmatchedSearchSet`).

## Model

| member | source | states |
|---|---|---|
| Strings.Find | hulu/pycon2014/hulu_parser.py:73 | `find` returns -1 exactly when the pattern does not occur; otherwise it returns the lowest index where it occurs |
| Strings.FindFrom | hulu/pycon2014/hulu_parser.py:69 | the recursion that computes `Find` (`find` with no start at :69 and :73): from a start index it returns -1 or the first occurrence at or after that index |
| Strings.Rest | hulu/pycon2014/hulu_parser.py:76 | `read()` after `seek(k)` returns the suffix from k: it is empty at or past the end, and the prefix plus the result is the whole text |
| Strings.SplitOn | hulu/pycon2014/hulu_parser.py:38 | `split` always yields at least one piece, so the empty text splits to one empty piece |
| Strings.SplitOnPieces | hulu/pycon2014/hulu_parser.py:38 | no piece of a split contains the separator |
| Strings.SplitJoin | hulu/pycon2014/hulu_parser.py:48 | splitting the join of separator-free parts gives back the parts |
| Strings.JoinSplit | hulu/pycon2014/hulu_parser.py:38 | joining the pieces of a split with the separator gives back the text |
| Strings.SplitOnNoSeparator | hulu/pycon2014/hulu_parser.py:48 | a text without the separator splits into itself alone |
| Strings.SplitOnFirst | hulu/pycon2014/hulu_parser.py:48 | a separator-free first token is split off unchanged, and the rest is split on its own |
| Strings.SplitOnSeparator | hulu/pycon2014/hulu_parser.py:38 | splitting at one separator splits the two sides independently |
| Strings.SplitLines | hulu/pycon2014/hulu_parser.py:31 | no line returned by `splitlines` holds a line break |
| Strings.SplitLinesOfLinesText | hulu/pycon2014/hulu_parser.py:31 | `splitlines` of a text of whole '\n'-terminated lines returns exactly those lines |
| Strings.SplitLinesText | hulu/pycon2014/hulu_parser.py:38 | `split('\n')` of whole lines followed by more text gives those lines, then the split of the rest |
| Strings.FindAfterLines | hulu/pycon2014/hulu_parser.py:73 | in divider-free lines followed by the divider, `find` lands just after the lines |
| Strings.ContainsJoin | hulu/pycon2014/hulu_parser.py:69 | text found in one line is found in the whole file |
| Strings.LinesTextAppend | hulu/pycon2014/hulu_parser.py:38 | the text of two runs of lines is the two texts concatenated |
| Tallying.WordSetOf | hulu/pycon2014/hulu_parser.py:48 | a line's word set is never empty (the empty line gives the empty word), and no word holds a comma |
| Tallying.WordSetOfJoin | hulu/pycon2014/hulu_parser.py:48 | the word set of comma-free tokens joined by commas is exactly the set of those tokens, with duplicates collapsed |
| Tallying.AllFoundIsSubset | hulu/pycon2014/hulu_parser.py:51-54 | "as many common words as search words" holds exactly when the search set is a subset of the line |
| Tallying.VisitEffect | hulu/pycon2014/hulu_parser.py:51-61 | one visit keeps every count positive. It adds the set's entry exactly when the set matches. It adds one to exactly the line's non-search words of that set and changes nothing else |
| Tallying.NewCounter | hulu/pycon2014/hulu_parser.py:61 | `Counter(unique_words)` holds exactly the given words, each counted once |
| Tallying.Update | hulu/pycon2014/hulu_parser.py:59 | `update` adds one to each given word, adding the words not yet counted, and changes no other count; counts stay positive |
| Tallying.SetEntryEffect | hulu/pycon2014/hulu_parser.py:59-61 | putting in, for one search set, a counter one higher on the unique words changes only that set's counts, by one on exactly those words, and keeps every count positive |
| Tallying.AllFound | hulu/pycon2014/hulu_parser.py:54 | the test `len(common_words) == len(word_set)`; `AllFoundIsSubset` proves it is the subset test |
| Tallying.Visit | hulu/pycon2014/hulu_parser.py:51-61 | one search set visited by one line, creating or updating its counter on a match; `VisitEffect` gives its effect |
| Tallying.AddLine | hulu/pycon2014/hulu_parser.py:50-61 | the inner loop: every search set visited in list order; `AddLineEffect` gives its effect |
| Tallying.AddLines | hulu/pycon2014/hulu_parser.py:38-61 | the outer loop: every line in file order; `AddLinesEffect` gives its closed form |
| Tallying.AddLineEffect | hulu/pycon2014/hulu_parser.py:50-61 | one line adds an entry for every listed set it contains. Each set's counts rise by the number of times the set is listed, on the line's non-search words only |
| Tallying.AddLinesEffect | hulu/pycon2014/hulu_parser.py:38-61 | closed form of the aggregation: a set has an entry exactly when it was there or is listed and matches some line. Each count grows by (times listed) × (lines that contain all of the set and also the word), for a word outside the set; a word of the set is never counted |
| Tallying.AddLineSnoc | hulu/pycon2014/hulu_parser.py:50 | loop-step unfolding of the fold for the inner loop: one more search set is one more visit |
| Tallying.AddLinesSnoc | hulu/pycon2014/hulu_parser.py:38 | loop-step unfolding of the fold for the outer loop: one more line is one more pass of the inner loop |
| Tallying.MatchedSnoc | hulu/pycon2014/hulu_parser.py:54 | a set matches a run of lines plus one exactly when it matches the run or the new line |
| Tallying.HitsSnoc | hulu/pycon2014/hulu_parser.py:56-59 | with every match weighted by k (the times the set is listed), one more line adds k exactly when the line matches and holds the word outside the set, and adds nothing otherwise |
| Tallying.OccPositive | hulu/pycon2014/hulu_parser.py:50 | a set is listed a positive number of times exactly when it is among the search sets |
| Tallying.TallyOnlyGrows | hulu/pycon2014/hulu_parser.py:59-61 | more lines never remove a set's counter and never lower a count |
| Tallying.HitsOfSearchWord | hulu/pycon2014/hulu_parser.py:56 | a word of the search set is never a hit for that set |
| Tallying.SearchWordsNeverCounted | hulu/pycon2014/hulu_parser.py:56 | after a fresh run, no counter holds a word of its own search set |
| Tallying.FirstMatchCreatesEntry | hulu/pycon2014/hulu_parser.py:60-61 | a set's first match by a line with no other words creates an empty counter (written as `{}`), not a missing entry |
| JsonOrder.Below | hulu/pycon2014/hulu_parser.py:65 | the key comparison of `sort_keys`: character by character, a proper prefix first; `BelowIrreflexive`, `BelowTransitive` and `BelowTotal` prove it a strict total order |
| JsonOrder.BelowIrreflexive | hulu/pycon2014/hulu_parser.py:65 | no key sorts before itself |
| JsonOrder.BelowTransitive | hulu/pycon2014/hulu_parser.py:65 | the key order is transitive |
| JsonOrder.BelowTotal | hulu/pycon2014/hulu_parser.py:65 | any two different keys are ordered one way or the other |
| JsonOrder.LeastExists | hulu/pycon2014/hulu_parser.py:65 | every non-empty key set has a least key |
| JsonOrder.AscendingCons | hulu/pycon2014/hulu_parser.py:65 | a key below every key of an ascending sequence keeps it ascending when put first |
| JsonOrder.SortedKeys | hulu/pycon2014/hulu_parser.py:65 | the written key order lists each key of the tally exactly once, strictly ascending |
| JsonOrder.Entries | hulu/pycon2014/hulu_parser.py:65 | the order in which any written row (each tally `WriteOutResults` returns) is listed: every entry of the tally exactly once, with its count, keys strictly ascending |
| HuluParsing.IsDividerLine | hulu/pycon2014/hulu_parser.py:68-70 | a line stops the aggregation exactly when it contains `####` anywhere |
| HuluParsing.SearchOffset | hulu/pycon2014/hulu_parser.py:72-74 | the seek offset is 4 exactly when there is no divider. Otherwise it is one past the first `####` |
| HuluParsing.BodyLines | hulu/pycon2014/hulu_parser.py:38-46 | the aggregated lines are a prefix of the file's lines, holding no divider line, and end at the first divider line if there is one |
| HuluParsing.HeaderSets | hulu/pycon2014/hulu_parser.py:31-33 | the search sets appended by the loop of `parse_search_words`, one per non-empty line in file order; `HeaderSetsOfNonEmptyLines`, `HeaderSetsSkipEmptyLines` and `HeaderSetsAppend` give its meaning |
| HuluParsing.SearchSets | hulu/pycon2014/hulu_parser.py:28-33 | the search sets a fresh parser loads: `HeaderSets` of the lines after the seek of `_seek_to_search_words`; `LayoutRoundTrip` and `MissingDivider` give its meaning |
| HuluParsing.Body | hulu/pycon2014/hulu_parser.py:35-46 | the lines `process_lines` aggregates: the `split('\n')` lines before the first divider line; `BodyLines`, `BodyStopsAtDivider` and `LayoutRoundTrip` give its meaning |
| HuluParsing.Pipeline | hulu/pycon2014/hulu_parser.py:87-92 | what `main` produces on a fresh parser; `Run` is proved equal to it and `PipelineSpec` states what it writes |
| HuluParsing.Results | hulu/pycon2014/hulu_parser.py:63-66 | the output is the tallies in list order exactly when every set has one. Otherwise it is `KeyError` for the first set without one |
| HuluParsing.HuluParser.constructor | hulu/pycon2014/hulu_parser.py:25-26 | a new parser is at the start of its file with no search sets and no tallies |
| HuluParsing.HuluParser.SeekToSearchWords | hulu/pycon2014/hulu_parser.py:72-76 | the position becomes the index of the first divider in the text read from the current position, plus 5, taken as an absolute offset (4 if there is none), as `seek` at :76 does; this is one past the divider's line break when the position was 0, as it is in `main` |
| HuluParsing.HuluParser.ParseSearchWords | hulu/pycon2014/hulu_parser.py:28-33 | the search sets gain, in file order, one word set per non-empty line after the divider. The file is then read to its end |
| HuluParsing.HuluParser.ProcessLines | hulu/pycon2014/hulu_parser.py:35-61 | the tallies become the fold of every line before the first divider line over the search sets. The file is then read to its end |
| HuluParsing.HuluParser.VisitSearchSets | hulu/pycon2014/hulu_parser.py:50-61 | one line visits every search set in list order |
| HuluParsing.HuluParser.WriteOutResults | hulu/pycon2014/hulu_parser.py:63-66 | the written rows are the specified results: every tally in list order, or the `KeyError` |
| HuluParsing.Run | hulu/pycon2014/hulu_parser.py:87-92 | `main` on a fresh parser produces exactly `Pipeline` of the file |
| HuluParsing.BodyContinues | hulu/pycon2014/hulu_parser.py:39-46 | a non-divider line inside the aggregated prefix is followed by more of it |
| HuluParsing.BodyEnds | hulu/pycon2014/hulu_parser.py:45-46 | the loop's `break` (or the end of the lines) is exactly the end of the aggregated lines |
| HuluParsing.BodyLinesAt | hulu/pycon2014/hulu_parser.py:38-46 | the lines before the first divider line are aggregated, whatever follows it |
| HuluParsing.HeaderSetsSnoc | hulu/pycon2014/hulu_parser.py:31-33 | loop-step unfolding of `HeaderSets` for the loop of `parse_search_words`: one more search line adds its word set, unless it is empty |
| HuluParsing.HeaderSetsAppend | hulu/pycon2014/hulu_parser.py:31-33 | the search sets of two runs of lines are those of each, in order |
| HuluParsing.HeaderSetsSkipEmptyLines | hulu/pycon2014/hulu_parser.py:32 | empty search lines contribute no search set |
| HuluParsing.HeaderSetsOfNonEmptyLines | hulu/pycon2014/hulu_parser.py:31-33 | without empty lines, the k-th search set is the word set of the k-th line |
| HuluParsing.BodyStopsAtDivider | hulu/pycon2014/hulu_parser.py:68-70 | a line containing `####` ends the aggregation: it and every later line count for nothing |
| HuluParsing.LayoutRoundTrip | hulu/pycon2014/hulu_parser.py:28-46 | for data lines, the divider, then search lines: the aggregated lines are the data lines, and the search sets are the word sets of the non-empty search lines |
| HuluParsing.MissingDivider | hulu/pycon2014/hulu_parser.py:72-76 | without a divider, nothing fails: the search words are read from offset 4, and every line of the file is aggregated |
| HuluParsing.PipelineSpec | hulu/pycon2014/hulu_parser.py:87-92 | a run succeeds exactly when every search set matches some aggregated line; otherwise `KeyError` names an unmatched listed set. On success there is one row per set. Each count is (times listed) × (matching lines holding the word), at least one, never for a search word |
| HuluParsing.ResultsOfTallies | hulu/pycon2014/hulu_parser.py:63-66 | the written rows of tallies in the closed form of a fresh run have the properties of `PipelineSpec` |
| Scenarios.NoHashNoDivider | hulu/pycon2014/hulu_parser.py:69 | a line without `#` never stops the aggregation |
| Scenarios.TwoWords | hulu/pycon2014/hulu_parser.py:48 | `x,y` splits into `x` and `y` |
| Scenarios.ThreeWords | hulu/pycon2014/hulu_parser.py:48 | `x,y,z` splits into `x`, `y` and `z` |
| Scenarios.FourWords | hulu/pycon2014/hulu_parser.py:48 | `x,y,z,u` splits into its four tokens |
| Scenarios.ExampleWordSets | hulu/pycon2014/hulu_parser.py:48 | the word sets of `a,b,c`, `a,x` and `b,a,c,d` |
| Scenarios.ExampleHits | hulu/pycon2014/hulu_parser.py:50-61 | over those lines, set {a, b} hits `c` twice and `d` once, and nothing else |
| Scenarios.ExampleRow | hulu/pycon2014/hulu_parser.py:65 | the counter with those counts is exactly `{"c": 2, "d": 1}` |
| Scenarios.ExampleFile | hulu/pycon2014/hulu_parser.py:28-46 | the example file aggregates its three data lines with the one search set {a, b} |
| Scenarios.SingleSearchSet | hulu/pycon2014/hulu_parser.py:87-92 | with one matched search set, the run writes one row that counts each word outside the set by the lines that contain all of the set and also that word, and never counts a word of the set |
| Scenarios.SingleUnmatchedSearchSet | hulu/pycon2014/hulu_parser.py:65 | with one search set that matches nothing, the run raises `KeyError` for it |
| Scenarios.TwoMatchingLines | hulu/pycon2014/hulu_parser.py:87-92 | the example file writes `{"c": 2, "d": 1}` |
| Scenarios.UnmatchedFile | hulu/pycon2014/hulu_parser.py:28-46 | the file `a,b` / `####` / `z` aggregates `a,b` with the search set {z} |
| Scenarios.UnmatchedSearchSet | hulu/pycon2014/hulu_parser.py:65 | on that file the run raises `KeyError` for {z} instead of writing `{}` |

## Left out

- File I/O: opening `tv_show_groups.in` and `hulu_results.txt` is left out. The input file becomes the string `contents`, and the written lines become the returned `Result`. A missing input file is not modelled.
- The JSON text that `dumps` produces (quoting, escaping, spacing, the trailing `'\n'`) is left out. Only the order of the entries and their values are modelled.
- JsonOrder.Entries: keys are compared as sequences of characters. Python 2 compares the bytes of a `str`, which agrees for ASCII input only.
- Strings.SplitLines: models `splitlines()` with '\n' as the only line terminator. '\r', "\r\n" and the other terminators Python recognises are left out.
- Strings.Rest: file offsets count characters, not the bytes Python 2's `seek` counts. They agree for ASCII input.
- HuluParsing.HuluParser.constructor: `_search_sets` and `_cumulative_sets` are class attributes in the source, shared by every instance. The model gives each parser its own, empty at construction. A second parser in the same process would see the first one's state, and this is not modelled.
- HuluParsing.HuluParser.WriteOutResults: the output file is opened, and so truncated, before any row is produced, and Python 2's `writelines` writes the rows in chunks of up to 1000. A `KeyError` thus leaves the file empty, or holding the whole chunks before the failing row. The model returns only the `KeyError`, not that file content.
- The `StopAtDivider` exception is modelled as the loop's `break`, which is how `process_lines` uses it.
- `Counter` is modelled as a map from word to positive count, with only the operations the parser uses: building from a set and `update` with a set.
- `frozenset` and `set` are both Dafny's `set<string>`. Hashing and iteration order play no part in the output, since the sets' own order is never written.
