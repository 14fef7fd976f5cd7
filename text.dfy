/** String handling the capture script relies on: Python's `str.split` and
    `str.join` with a one-character separator, and Python's negative list
    indexing. */
module Text {

  datatype Option<T> = None | Some(value: T)

  /** Number of occurrences of `c` in `s`. */
  function Count(s: string, c: char): (n: nat)
    ensures n == 0 <==> c !in s
    ensures n <= |s|
  {
    if s == [] then 0 else (if s[0] == c then 1 else 0) + Count(s[1..], c)
  }

  /** Python's `s.split(sep)` for a one-character separator: the (possibly
      empty) pieces between separators, one more piece than separators. */
  function Split(s: string, sep: char): (r: seq<string>)
    ensures |r| == Count(s, sep) + 1
    ensures forall k :: 0 <= k < |r| ==> sep !in r[k]
  {
    if s == [] then [[]]
    else
      var rest := Split(s[1..], sep);
      if s[0] == sep then [[]] + rest
      else [[s[0]] + rest[0]] + rest[1..]
  }

  /** Python's `sep.join(parts)`. */
  function Join(parts: seq<string>, sep: char): string
  {
    if parts == [] then []
    else if |parts| == 1 then parts[0]
    else parts[0] + [sep] + Join(parts[1..], sep)
  }

  /** Python's `xs[i]`, where a negative index counts from the end. */
  function PyIndex<T>(xs: seq<T>, i: int): T
    requires -|xs| <= i < |xs|
  {
    if i < 0 then xs[|xs| + i] else xs[i]
  }

  /** Joining the pieces of a split gives back the text. */
  lemma {:induction false} JoinSplit(s: string, sep: char)
    ensures Join(Split(s, sep), sep) == s
  {
    if s != [] {
      var rest := Split(s[1..], sep);
      JoinSplit(s[1..], sep);
      if s[0] != sep && |rest| > 1 {
        assert rest == [rest[0]] + rest[1..];
      }
    }
  }

  /** Text without the separator splits into itself alone. */
  lemma {:induction false} SplitWithoutSeparator(a: string, sep: char)
    requires sep !in a
    ensures Split(a, sep) == [a]
  {
    if a != [] {
      SplitWithoutSeparator(a[1..], sep);
      assert [a[0]] + a[1..] == a;
    }
  }

  /** A separator-free head is split off as the first piece. */
  lemma {:induction false} SplitAtSeparator(a: string, sep: char, b: string)
    requires sep !in a
    ensures Split(a + [sep] + b, sep) == [a] + Split(b, sep)
  {
    var s := a + [sep] + b;
    if a == [] {
      assert s[0] == sep && s[1..] == b;
    } else {
      assert s[0] == a[0] && s[0] != sep;
      assert s[1..] == a[1..] + [sep] + b;
      assert Split(s[1..], sep) == [a[1..]] + Split(b, sep) by {
        SplitAtSeparator(a[1..], sep, b);
      }
      assert [a[0]] + a[1..] == a;
    }
  }

  /** Splitting a join of separator-free pieces gives back the pieces. */
  lemma {:induction false} SplitJoin(parts: seq<string>, sep: char)
    requires |parts| >= 1
    requires forall k :: 0 <= k < |parts| ==> sep !in parts[k]
    ensures Split(Join(parts, sep), sep) == parts
  {
    if |parts| == 1 {
      SplitWithoutSeparator(parts[0], sep);
    } else {
      SplitJoin(parts[1..], sep);
      SplitAtSeparator(parts[0], sep, Join(parts[1..], sep));
      assert [parts[0]] + parts[1..] == parts;
    }
  }

  /** `p` is the text of `s` before its first `sep` (all of `s` when it
      holds none). */
  predicate HeadBefore(s: string, p: string, sep: char)
  {
    |p| <= |s| && p == s[..|p|] && (|p| == |s| || s[|p|] == sep)
  }

  /** `p` is the text of `s` after its last `sep` (all of `s` when it holds
      none). */
  predicate TailAfter(s: string, p: string, sep: char)
  {
    |p| <= |s| && p == s[|s| - |p|..] && (|p| == |s| || s[|s| - |p| - 1] == sep)
  }

  /** The first piece of a split is the text up to the first separator. */
  lemma {:induction false} SplitFirstPiece(s: string, sep: char)
    ensures HeadBefore(s, Split(s, sep)[0], sep)
  {
    if s != [] && s[0] != sep {
      SplitFirstPiece(s[1..], sep);
    }
  }

  /** The last piece of a split is the text after the last separator. */
  lemma {:induction false} SplitLastPiece(s: string, sep: char)
    ensures var r := Split(s, sep); TailAfter(s, r[|r| - 1], sep)
  {
    if s != [] {
      var tail := s[1..];
      var rest := Split(tail, sep);
      var last := rest[|rest| - 1];
      assert TailAfter(tail, last, sep) by {
        SplitLastPiece(tail, sep);
      }
      if s[0] != sep && |rest| == 1 {
        assert rest[0] == tail by {
          JoinSplit(tail, sep);
        }
        assert [s[0]] + tail == s;
        assert Split(s, sep) == [s];
      } else {
        assert Split(s, sep)[|Split(s, sep)| - 1] == last;
        assert sep !in last && (s[0] == sep || sep in tail);
        TailAfterCons(s, last, sep);
      }
    }
  }

  /** A separator-free tail of `s[1..]` is one of `s` when `s` has a
      separator further on, or starts with one. */
  lemma TailAfterCons(s: string, p: string, sep: char)
    requires |s| > 0 && TailAfter(s[1..], p, sep) && sep !in p
    requires s[0] == sep || sep in s[1..]
    ensures TailAfter(s, p, sep)
  {
    var tail := s[1..];
    assert sep in tail ==> |p| < |tail|;
    assert s[|s| - |p|..] == tail[|tail| - |p|..];
    if |p| < |tail| {
      assert s[|s| - |p| - 1] == tail[|tail| - |p| - 1];
    }
  }

  /** A character that is neither the separator nor in any piece is not in
      the join. */
  lemma {:induction false} JoinWithout(parts: seq<string>, sep: char, c: char)
    requires c != sep
    requires forall k :: 0 <= k < |parts| ==> c !in parts[k]
    ensures c !in Join(parts, sep)
  {
    if |parts| > 1 {
      JoinWithout(parts[1..], sep, c);
    }
  }

  /** Whatever follows the last separator is the last piece. */
  lemma {:induction false} SplitLastAfter(a: string, sep: char, b: string)
    requires sep !in b
    ensures var r := Split(a + [sep] + b, sep); |r| >= 2 && r[|r| - 1] == b
  {
    var s := a + [sep] + b;
    if a == [] {
      assert s[1..] == b;
      SplitWithoutSeparator(b, sep);
    } else {
      assert s[1..] == a[1..] + [sep] + b;
      SplitLastAfter(a[1..], sep, b);
    }
  }

  /** A character missing from the text is missing from every piece. */
  lemma {:induction false} SplitPiecesWithout(s: string, sep: char, c: char)
    requires c !in s
    ensures forall k :: 0 <= k < |Split(s, sep)| ==> c !in Split(s, sep)[k]
  {
    if s != [] {
      SplitPiecesWithout(s[1..], sep, c);
    }
  }
}
