/** The Python string operations the parser relies on: `str.find`,
    `str.split` on one character, `str.splitlines` on text whose only line
    terminator is '\n', and reading a file from a position after `seek`. */
module Strings {

  /** The text `p` occurs in `s` starting at index `i`. */
  predicate OccursAt(s: string, p: string, i: nat) {
    i + |p| <= |s| && s[i..i + |p|] == p
  }

  /** `p` occurs somewhere in `s`. */
  predicate Contains(s: string, p: string) {
    exists i: nat :: i <= |s| && OccursAt(s, p, i)
  }

  /** `s.find(p, k)`: the lowest index from `k` on where `p` occurs, or -1. */
  function FindFrom(s: string, p: string, k: nat): (r: int)
    ensures r == -1 || k <= r
    ensures r == -1 ==> forall i: nat :: k <= i ==> !OccursAt(s, p, i)
    ensures r >= 0 ==> OccursAt(s, p, r) && forall i: nat :: k <= i < r ==> !OccursAt(s, p, i)
    decreases |s| - k
  {
    if k + |p| > |s| then -1
    else if OccursAt(s, p, k) then k
    else FindFrom(s, p, k + 1)
  }

  /** `s.find(p)`: the lowest index where `p` occurs in `s`, or -1 when it
      occurs nowhere. */
  function Find(s: string, p: string): (r: int)
    ensures r >= -1
    ensures r == -1 <==> !Contains(s, p)
    ensures r >= 0 ==> OccursAt(s, p, r) && forall i: nat :: i < r ==> !OccursAt(s, p, i)
  {
    FindFrom(s, p, 0)
  }

  /** What `read()` returns after `seek(k)`: the text from offset `k` on,
      and nothing once `k` is at or past the end. */
  function Rest(s: string, k: nat): (r: string)
    ensures k <= |s| ==> s == s[..k] + r
    ensures k >= |s| ==> r == ""
  {
    if k <= |s| then s[k..] else ""
  }

  /** `s.split(c)`: the pieces of `s` between occurrences of `c`. There is
      always at least one piece; "" splits into [""]. */
  function SplitOn(s: string, c: char): (r: seq<string>)
    ensures |r| >= 1
  {
    if |s| == 0 then [""]
    else
      var rest := SplitOn(s[1..], c);
      if s[0] == c then [""] + rest
      else [[s[0]] + rest[0]] + rest[1..]
  }

  /** No piece of a split holds the separator. */
  lemma {:induction false} SplitOnPieces(s: string, c: char)
    ensures forall k :: 0 <= k < |SplitOn(s, c)| ==> c !in SplitOn(s, c)[k]
  {
    if |s| > 0 {
      SplitOnPieces(s[1..], c);
    }
  }

  /** `c.join(parts)`: the inverse of `SplitOn`. */
  function Join(parts: seq<string>, c: char): string
  {
    if |parts| == 0 then ""
    else if |parts| == 1 then parts[0]
    else parts[0] + [c] + Join(parts[1..], c)
  }

  /** `s.splitlines()` for text whose only terminator is '\n': a final
      terminator does not open an empty last line, and "" has no lines. */
  function SplitLines(s: string): (r: seq<string>)
    ensures forall k :: 0 <= k < |r| ==> '\n' !in r[k]
  {
    if |s| == 0 then []
    else if s[|s| - 1] == '\n' then
      SplitOnPieces(s[..|s| - 1], '\n');
      SplitOn(s[..|s| - 1], '\n')
    else
      SplitOnPieces(s, '\n');
      SplitOn(s, '\n')
  }

  /** The text of a file whose lines are `lines`, each ended by '\n'. */
  function LinesText(lines: seq<string>): string
  {
    if |lines| == 0 then "" else lines[0] + "\n" + LinesText(lines[1..])
  }

  /** A text free of the separator is one piece. */
  lemma {:induction false} SplitOnNoSeparator(s: string, c: char)
    requires c !in s
    ensures SplitOn(s, c) == [s]
  {
    if |s| > 0 {
      assert s[0] != c && c !in s[1..];
      SplitOnNoSeparator(s[1..], c);
      assert s == [s[0]] + s[1..];
    }
  }

  /** Splitting at one separator splits each side independently. */
  lemma {:induction false} SplitOnSeparator(a: string, c: char, b: string)
    ensures SplitOn(a + [c] + b, c) == SplitOn(a, c) + SplitOn(b, c)
  {
    var s := a + [c] + b;
    if |a| == 0 {
      assert s[0] == c && s[1..] == b;
    } else {
      assert s[0] == a[0] && s[1..] == a[1..] + [c] + b;
      SplitOnSeparator(a[1..], c, b);
      if a[0] == c {
        SplitOnSameSeparatorHead(a, s, c, SplitOn(b, c));
      } else {
        SplitOnSameOtherHead(a, s, c, SplitOn(b, c));
      }
    }
  }

  /** Two texts that start with the separator, and whose remainders split
      alike up to a common suffix of pieces, split alike up to that suffix:
      the separator opens an empty piece on both sides. */
  lemma SplitOnSameSeparatorHead(a: string, s: string, c: char, right: seq<string>)
    requires |a| > 0 && |s| > 0 && s[0] == a[0] && a[0] == c
    requires SplitOn(s[1..], c) == SplitOn(a[1..], c) + right
    ensures SplitOn(s, c) == SplitOn(a, c) + right
  {
    var left := SplitOn(a[1..], c);
    assert SplitOn(s, c) == [""] + (left + right);
    assert SplitOn(a, c) == [""] + left;
    ConcatAssoc([""], left, right);
  }

  /** Concatenation is associative. */
  lemma ConcatAssoc<T>(x: seq<T>, y: seq<T>, z: seq<T>)
    ensures x + (y + z) == (x + y) + z
  {
  }

  /** Two texts that start with the same character other than the
      separator, and whose remainders split alike up to a common suffix of
      pieces, split alike up to that suffix: the character extends the
      first piece on both sides. */
  lemma SplitOnSameOtherHead(a: string, s: string, c: char, right: seq<string>)
    requires |a| > 0 && |s| > 0 && s[0] == a[0] && a[0] != c
    requires SplitOn(s[1..], c) == SplitOn(a[1..], c) + right
    ensures SplitOn(s, c) == SplitOn(a, c) + right
  {
    ExtendFirstPiece([a[0]], SplitOn(a[1..], c), right);
  }

  /** Extending the first piece commutes with appending more pieces. */
  lemma ExtendFirstPiece(x: string, left: seq<string>, right: seq<string>)
    requires |left| >= 1
    ensures [x + (left + right)[0]] + (left + right)[1..] == ([x + left[0]] + left[1..]) + right
  {
    var rest := left + right;
    assert rest[0] == left[0] && rest[1..] == left[1..] + right;
  }

  /** A first piece free of the separator is split off unchanged. */
  lemma SplitOnFirst(x: string, c: char, rest: string)
    requires c !in x
    ensures SplitOn(x + [c] + rest, c) == [x] + SplitOn(rest, c)
  {
    SplitOnSeparator(x, c, rest);
    SplitOnNoSeparator(x, c);
  }

  /** Splitting after joining gives back the parts. */
  lemma {:induction false} SplitJoin(parts: seq<string>, c: char)
    requires |parts| >= 1
    requires forall k :: 0 <= k < |parts| ==> c !in parts[k]
    ensures SplitOn(Join(parts, c), c) == parts
  {
    if |parts| == 1 {
      SplitOnNoSeparator(parts[0], c);
    } else {
      SplitOnNoSeparator(parts[0], c);
      SplitJoin(parts[1..], c);
      SplitOnSeparator(parts[0], c, Join(parts[1..], c));
    }
  }

  /** Joining after splitting gives back the text. */
  lemma {:induction false} JoinSplit(s: string, c: char)
    ensures Join(SplitOn(s, c), c) == s
  {
    if |s| > 0 {
      var rest := SplitOn(s[1..], c);
      JoinSplit(s[1..], c);
      if s[0] == c {
        assert s == [c] + s[1..];
      } else if |rest| == 1 {
        assert s == [s[0]] + s[1..];
      } else {
        var r := SplitOn(s, c);
        assert r[1..] == rest[1..];
        assert Join(r, c) == [s[0]] + rest[0] + [c] + Join(rest[1..], c);
        assert s == [s[0]] + s[1..];
      }
    }
  }

  /** The '\n'-split of a file made of whole lines, followed by more text. */
  lemma {:induction false} SplitLinesText(lines: seq<string>, b: string)
    requires forall k :: 0 <= k < |lines| ==> '\n' !in lines[k]
    ensures SplitOn(LinesText(lines) + b, '\n') == lines + SplitOn(b, '\n')
  {
    if |lines| == 0 {
      assert LinesText(lines) + b == b;
    } else {
      var head, rest := lines[0], lines[1..];
      var tail := LinesText(rest) + b;
      calc {
        SplitOn(LinesText(lines) + b, '\n');
        { assert LinesText(lines) + b == head + ['\n'] + tail; }
        SplitOn(head + ['\n'] + tail, '\n');
        { SplitOnFirst(head, '\n', tail); }
        [head] + SplitOn(tail, '\n');
        { SplitLinesText(rest, b); }
        [head] + (rest + SplitOn(b, '\n'));
        { assert lines == [head] + rest; }
        lines + SplitOn(b, '\n');
      }
    }
  }

  /** `splitlines` recovers the lines of a file made of whole lines. */
  lemma {:induction false} SplitLinesOfLinesText(lines: seq<string>)
    requires forall k :: 0 <= k < |lines| ==> '\n' !in lines[k]
    ensures SplitLines(LinesText(lines)) == lines
  {
    var t := LinesText(lines);
    if |lines| > 0 {
      LinesTextEndsWithNewline(lines);
      var body := t[..|t| - 1];
      assert t == body + ['\n'] + "";
      assert t + "" == t;
      SplitLinesText(lines, "");
      SplitOnSeparator(body, '\n', "");
      assert SplitOn(body, '\n') + [""] == lines + [""];
      assert SplitOn(body, '\n') == (SplitOn(body, '\n') + [""])[..|lines|];
    }
  }

  lemma {:induction false} LinesTextEndsWithNewline(lines: seq<string>)
    requires |lines| > 0
    ensures |LinesText(lines)| > 0 && LinesText(lines)[|LinesText(lines)| - 1] == '\n'
  {
    if |lines| > 1 {
      LinesTextEndsWithNewline(lines[1..]);
    }
  }

  /** A pattern without '\n' that occurs in no line cannot start anywhere in
      the text of those lines, whatever follows them. */
  lemma {:induction false} NoOccurrenceInLines(lines: seq<string>, rest: string, p: string, i: nat)
    requires '\n' !in p
    requires forall k :: 0 <= k < |lines| ==> !Contains(lines[k], p)
    requires i < |LinesText(lines)|
    ensures !OccursAt(LinesText(lines) + rest, p, i)
  {
    var x := lines[0];
    var tail := LinesText(lines[1..]) + rest;
    var s := LinesText(lines) + rest;
    assert s == x + "\n" + tail;
    if i + |p| > |s| {
    } else if i + |p| <= |x| {
      assert s[i..i + |p|] == x[i..i + |p|];
      assert !Contains(x, p);
      assert !OccursAt(x, p, i);
    } else if i <= |x| {
      assert s[i..i + |p|][|x| - i] == '\n';
      assert p[|x| - i] != '\n';
    } else {
      assert s[i..i + |p|] == tail[i - |x| - 1..i - |x| - 1 + |p|];
      NoOccurrenceInLines(lines[1..], rest, p, i - |x| - 1);
    }
  }

  /** In the text of divider-free lines followed by the divider, `find`
      lands exactly at the divider. */
  lemma {:induction false} FindAfterLines(lines: seq<string>, p: string, rest: string)
    requires '\n' !in p
    requires forall k :: 0 <= k < |lines| ==> !Contains(lines[k], p)
    ensures Find(LinesText(lines) + p + rest, p) == |LinesText(lines)|
  {
    var s := LinesText(lines) + p + rest;
    var n := |LinesText(lines)|;
    assert s[n..n + |p|] == p;
    assert OccursAt(s, p, n);
    forall i: nat | i < n
      ensures !OccursAt(s, p, i)
    {
      assert s == LinesText(lines) + (p + rest);
      NoOccurrenceInLines(lines, p + rest, p, i);
    }
    var r := Find(s, p);
    assert Contains(s, p);
    assert r >= 0;
    assert !(r < n);
    assert !(r > n);
  }

  lemma {:induction false} LinesTextAppend(a: seq<string>, b: seq<string>)
    ensures LinesText(a + b) == LinesText(a) + LinesText(b)
  {
    if |a| > 0 {
      assert (a + b)[1..] == a[1..] + b;
      LinesTextAppend(a[1..], b);
    } else {
      assert a + b == b;
    }
  }

  /** Text found in one of the parts is found in the joined text. */
  lemma {:induction false} ContainsJoin(parts: seq<string>, c: char, p: string, k: nat)
    requires k < |parts| && Contains(parts[k], p)
    ensures Contains(Join(parts, c), p)
  {
    var s := Join(parts, c);
    if |parts| > 1 {
      var tail := Join(parts[1..], c);
      assert s == parts[0] + [c] + tail;
      if k == 0 {
        var i: nat :| i <= |parts[0]| && OccursAt(parts[0], p, i);
        assert s[i..i + |p|] == parts[0][i..i + |p|];
        assert OccursAt(s, p, i);
      } else {
        ContainsJoin(parts[1..], c, p, k - 1);
        var i: nat :| i <= |tail| && OccursAt(tail, p, i);
        var j := i + |parts[0]| + 1;
        assert s[j..j + |p|] == tail[i..i + |p|];
        assert OccursAt(s, p, j);
      }
    }
  }
}
