/** The order in which `dumps(tally, sort_keys=True)` lists a tally's
    entries: ascending by key, keys compared character by character. Only
    the order and the key/value pairs are modelled, not the JSON text. */
module JsonOrder {
  import opened Tallying

  /** Python's `<` on strings: lexicographic by character, a proper prefix first. */
  predicate Below(a: string, b: string)
    decreases |a|
  {
    if |a| == 0 then |b| > 0
    else |b| > 0 && (a[0] < b[0] || (a[0] == b[0] && Below(a[1..], b[1..])))
  }

  lemma {:induction false} BelowIrreflexive(a: string)
    ensures !Below(a, a)
  {
    if |a| > 0 {
      BelowIrreflexive(a[1..]);
    }
  }

  lemma {:induction false} BelowTransitive(a: string, b: string, c: string)
    requires Below(a, b) && Below(b, c)
    ensures Below(a, c)
  {
    if |a| > 0 && a[0] == b[0] && b[0] == c[0] {
      BelowTransitive(a[1..], b[1..], c[1..]);
    }
  }

  lemma {:induction false} BelowTotal(a: string, b: string)
    requires a != b
    ensures Below(a, b) || Below(b, a)
  {
    if |a| > 0 && |b| > 0 && a[0] == b[0] {
      assert a == [a[0]] + a[1..] && b == [b[0]] + b[1..];
      BelowTotal(a[1..], b[1..]);
    }
  }

  /** Every non-empty finite set of keys has a least key. */
  lemma {:induction false} LeastExists(keys: set<string>)
    requires keys != {}
    ensures exists m :: m in keys && forall k :: k in keys && k != m ==> Below(m, k)
    decreases keys
  {
    var x :| x in keys;
    var others := keys - {x};
    if others == {} {
      assert forall k :: k in keys && k != x ==> k in others;
    } else {
      LeastExists(others);
      var m :| m in others && forall k :: k in others && k != m ==> Below(m, k);
      BelowTotal(x, m);
      if Below(x, m) {
        forall k | k in keys && k != x
          ensures Below(x, k)
        {
          if k != m { BelowTransitive(x, m, k); }
        }
      } else {
        assert forall k :: k in keys && k != m ==> Below(m, k);
      }
    }
  }

  /** The keys of a tally in the order `sort_keys=True` writes them. */
  ghost function SortedKeys(keys: set<string>): (r: seq<string>)
    ensures |r| == |keys|
    ensures forall k :: k in r <==> k in keys
    ensures forall i, j :: 0 <= i < j < |r| ==> Below(r[i], r[j])
    decreases keys
  {
    if keys == {} then []
    else
      LeastExists(keys);
      var m :| m in keys && forall k :: k in keys && k != m ==> Below(m, k);
      var rest := SortedKeys(keys - {m});
      AscendingCons(m, rest);
      [m] + rest
  }

  /** A key below every key of an ascending sequence keeps it ascending in front. */
  lemma AscendingCons(m: string, rest: seq<string>)
    requires forall k :: k in rest ==> Below(m, k)
    requires forall i, j :: 0 <= i < j < |rest| ==> Below(rest[i], rest[j])
    ensures forall i, j :: 0 <= i < j < |[m] + rest| ==> Below(([m] + rest)[i], ([m] + rest)[j])
  {
    var r := [m] + rest;
    forall i, j | 0 <= i < j < |r|
      ensures Below(r[i], r[j])
    {
      assert r[j] == rest[j - 1];
      if i > 0 {
        assert r[i] == rest[i - 1];
      }
    }
  }

  /** The key/value pairs of one output line, in the order they are written:
      each entry of the tally exactly once, keys strictly ascending. */
  ghost function Entries(c: Counter): (r: seq<(Word, nat)>)
    ensures |r| == |c|
    ensures forall i :: 0 <= i < |r| ==> r[i].0 in c && r[i].1 == c[r[i].0]
    ensures forall w :: w in c ==> exists i :: 0 <= i < |r| && r[i].0 == w
    ensures forall i, j :: 0 <= i < j < |r| ==> Below(r[i].0, r[j].0)
  {
    var keys := SortedKeys(c.Keys);
    var r := seq(|keys|, i requires 0 <= i < |keys| => (keys[i], c[keys[i]]));
    assert forall i :: 0 <= i < |r| ==> r[i].0 == keys[i];
    assert |c| == |c.Keys|;
    r
  }
}
