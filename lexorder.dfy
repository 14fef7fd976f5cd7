/** Python's ordering of strings (code point by code point, a proper prefix
    first), and the sorted listing of a directory's names that
    `os.listdir` followed by `list.sort()` produces. */
module LexOrder {

  /** `a < b` on Python strings. */
  predicate Less(a: string, b: string)
  {
    |b| > 0 && (|a| == 0 || a[0] < b[0] || (a[0] == b[0] && Less(a[1..], b[1..])))
  }

  lemma {:induction false} LessIrreflexive(a: string)
    ensures !Less(a, a)
  {
    if |a| > 0 {
      LessIrreflexive(a[1..]);
    }
  }

  lemma {:induction false} LessTransitive(a: string, b: string, c: string)
    requires Less(a, b) && Less(b, c)
    ensures Less(a, c)
  {
    if |a| > 0 && a[0] == b[0] && b[0] == c[0] {
      LessTransitive(a[1..], b[1..], c[1..]);
    }
  }

  /** Any two different strings are ordered one way or the other. */
  lemma {:induction false} LessTotal(a: string, b: string)
    requires a != b
    ensures Less(a, b) || Less(b, a)
  {
    if |a| > 0 && |b| > 0 && a[0] == b[0] {
      assert a == [a[0]] + a[1..] && b == [b[0]] + b[1..];
      LessTotal(a[1..], b[1..]);
    }
  }

  /** `m` comes first among `names`. */
  ghost predicate IsLeast(m: string, names: set<string>)
  {
    m in names && forall y :: y in names && y != m ==> Less(m, y)
  }

  lemma {:induction false} LeastExists(names: set<string>)
    requires names != {}
    ensures exists m :: IsLeast(m, names)
    decreases |names|
  {
    var x :| x in names;
    var rest := names - {x};
    if rest != {} {
      LeastExists(rest);
      var m :| IsLeast(m, rest);
      if Less(m, x) {
        forall y | y in names && y != m ensures Less(m, y) {
          if y != x { assert y in rest; }
        }
        assert IsLeast(m, names);
      } else {
        LessTotal(m, x);
        forall y | y in names && y != x ensures Less(x, y) {
          assert y in rest;
          if y != m { LessTransitive(x, m, y); }
        }
        assert IsLeast(x, names);
      }
    } else {
      assert names == {x};
      assert IsLeast(x, names);
    }
  }

  lemma LeastUnique(m: string, m': string, names: set<string>)
    requires IsLeast(m, names) && IsLeast(m', names)
    ensures m == m'
  {
    if m != m' {
      LessTransitive(m, m', m);
      LessIrreflexive(m);
    }
  }

  /** The names of a directory in sorted order. */
  ghost function SortedNames(names: set<string>): (r: seq<string>)
    ensures |r| == |names|
    decreases |names|
  {
    if names == {} then []
    else
      LeastExists(names);
      var m :| IsLeast(m, names);
      [m] + SortedNames(names - {m})
  }

  ghost predicate StrictlySorted(s: seq<string>)
  {
    forall i, j :: 0 <= i < j < |s| ==> Less(s[i], s[j])
  }

  /** The sorted listing holds exactly the directory's names, each once,
      in increasing order. */
  lemma {:induction false} SortedNamesCorrect(names: set<string>)
    ensures var r := SortedNames(names);
      StrictlySorted(r) && (forall y :: y in names <==> y in r)
    decreases |names|
  {
    if names != {} {
      var r := SortedNames(names);
      var m := r[0];
      var rest := names - {m};
      var tail := SortedNames(rest);
      assert IsLeast(m, names) && r == [m] + tail;
      assert StrictlySorted(tail) && (forall y :: y in rest <==> y in tail) by {
        SortedNamesCorrect(rest);
      }
      forall i, j | 0 <= i < j < |r| ensures Less(r[i], r[j]) {
        if i == 0 {
          assert r[j] == tail[j - 1] && r[j] in rest;
        } else {
          assert r[i] == tail[i - 1] && r[j] == tail[j - 1];
        }
      }
    }
  }

  lemma SortedNamesHead(m: string, names: set<string>)
    requires IsLeast(m, names)
    ensures SortedNames(names) == [m] + SortedNames(names - {m})
  {
    var r := SortedNames(names);
    assert IsLeast(r[0], names) && r == [r[0]] + SortedNames(names - {r[0]});
    LeastUnique(m, r[0], names);
  }

  /** Taking the least remaining name moves it to the end of the listing. */
  lemma ListStep(listing: seq<string>, m: string, remaining: set<string>, names: set<string>)
    requires IsLeast(m, remaining)
    requires listing + SortedNames(remaining) == SortedNames(names)
    ensures listing + [m] + SortedNames(remaining - {m}) == SortedNames(names)
  {
    SortedNamesHead(m, remaining);
    assert listing + [m] + SortedNames(remaining - {m}) == listing + SortedNames(remaining);
  }

  /** `os.listdir(d)` followed by `.sort()`: the listing does not depend on
      the order the directory reports its names in. */
  method ListSorted(names: set<string>) returns (listing: seq<string>)
    ensures listing == SortedNames(names)
  {
    listing := [];
    var remaining := names;
    while remaining != {}
      invariant remaining <= names
      invariant listing + SortedNames(remaining) == SortedNames(names)
      decreases |remaining|
    {
      LeastExists(remaining);
      var m :| m in remaining && forall y :: y in remaining && y != m ==> Less(m, y);
      ListStep(listing, m, remaining, names);
      listing := listing + [m];
      remaining := remaining - {m};
    }
  }
}
