/** String helpers shared by the command parser and the renderer:
    Rust's `str::split` with a one-character pattern, and counting. */
module Text {

  /** Number of occurrences of `c` in `s`. */
  function Count(s: string, c: char): (n: nat)
    ensures n <= |s|
    ensures n == 0 <==> c !in s
  {
    if s == [] then 0
    else (if s[0] == c then 1 else 0) + Count(s[1..], c)
  }

  lemma {:induction false} CountAppend(a: string, b: string, c: char)
    ensures Count(a + b, c) == Count(a, c) + Count(b, c)
  {
    if a == [] {
      assert a + b == b;
    } else {
      assert (a + b)[1..] == a[1..] + b;
      CountAppend(a[1..], b, c);
    }
  }

  /** Index of the first `c` in `s`. */
  function IndexOf(s: string, c: char): (k: nat)
    requires c in s
    ensures k < |s| && s[k] == c && c !in s[..k]
  {
    if s[0] == c then 0
    else
      var k := IndexOf(s[1..], c);
      assert s[..k + 1] == [s[0]] + s[1..][..k];
      k + 1
  }

  /** The pieces between the occurrences of `sep`, as `s.split(sep)` yields them:
      always at least one (`SplitPieces`: none contains `sep`). */
  function Split(s: string, sep: char): (parts: seq<string>)
    ensures |parts| >= 1
    decreases |s|
  {
    if sep in s then
      var k := IndexOf(s, sep);
      [s[..k]] + Split(s[k + 1..], sep)
    else
      [s]
  }

  /** The inverse of Split: the pieces glued back together with `sep`. */
  function Join(parts: seq<string>, sep: char): string
  {
    if parts == [] then ""
    else if |parts| == 1 then parts[0]
    else parts[0] + [sep] + Join(parts[1..], sep)
  }

  function Last<T>(s: seq<T>): T
    requires s != []
  {
    s[|s| - 1]
  }

  lemma IndexOfFirst(s: string, c: char, k: nat)
    requires k < |s| && s[k] == c && c !in s[..k]
    ensures IndexOf(s, c) == k
  {
  }

  lemma JoinCons(w: string, rest: seq<string>, sep: char)
    requires rest != []
    ensures Join([w] + rest, sep) == w + [sep] + Join(rest, sep)
  {
    assert ([w] + rest)[1..] == rest;
  }

  /** Split unfolded once at the first separator. */
  lemma SplitAtFirst(s: string, sep: char)
    requires sep in s
    ensures Split(s, sep) == [s[..IndexOf(s, sep)]] + Split(s[IndexOf(s, sep) + 1..], sep)
  {
  }

  /** The text is its part before the first separator, the separator, and the rest. */
  lemma AroundFirst(s: string, sep: char)
    requires sep in s
    ensures s == s[..IndexOf(s, sep)] + [sep] + s[IndexOf(s, sep) + 1..]
  {
  }

  /** No piece contains the separator. */
  lemma {:induction false} SplitPieces(s: string, sep: char)
    ensures forall i :: 0 <= i < |Split(s, sep)| ==> sep !in Split(s, sep)[i]
    decreases |s|
  {
    if sep in s {
      var k := IndexOf(s, sep);
      SplitAtFirst(s, sep);
      SplitPieces(s[k + 1..], sep);
    } else {
      SplitNoSep(s, sep);
    }
  }

  /** Joining what Split yields gives back the original text. */
  lemma {:induction false} JoinSplit(s: string, sep: char)
    ensures Join(Split(s, sep), sep) == s
    decreases |s|
  {
    if sep in s {
      var k := IndexOf(s, sep);
      var rest := Split(s[k + 1..], sep);
      SplitAtFirst(s, sep);
      AroundFirst(s, sep);
      JoinSplit(s[k + 1..], sep);
      JoinCons(s[..k], rest, sep);
    } else {
      SplitNoSep(s, sep);
    }
  }

  /** Splitting a join of separator-free pieces gives back the pieces. */
  lemma {:induction false} SplitJoin(parts: seq<string>, sep: char)
    requires |parts| >= 1
    requires forall i :: 0 <= i < |parts| ==> sep !in parts[i]
    ensures Split(Join(parts, sep), sep) == parts
  {
    if |parts| > 1 {
      var w := parts[0];
      var rest := Join(parts[1..], sep);
      SplitJoin(parts[1..], sep);
      SplitAfterWord(w, rest, sep);
      assert [w] + parts[1..] == parts;
    }
  }

  /** Text without the separator is one piece. */
  lemma SplitNoSep(s: string, sep: char)
    requires sep !in s
    ensures Split(s, sep) == [s]
  {
  }

  /** A separator-free word followed by `sep` is the first piece; the rest is split on its own. */
  lemma SplitAfterWord(w: string, rest: string, sep: char)
    requires sep !in w
    ensures Split(w + [sep] + rest, sep) == [w] + Split(rest, sep)
  {
    var s := w + [sep] + rest;
    assert s[..|w|] == w;
    assert s[|w|] == sep;
    IndexOfFirst(s, sep, |w|);
    assert s[|w| + 1..] == rest;
  }

  /** There is one piece more than there are separators. */
  lemma {:induction false} SplitCount(s: string, sep: char)
    ensures |Split(s, sep)| == Count(s, sep) + 1
    decreases |s|
  {
    if sep in s {
      var k := IndexOf(s, sep);
      var tail := s[k + 1..];
      SplitAtFirst(s, sep);
      AroundFirst(s, sep);
      SplitCount(tail, sep);
      CountAppend(s[..k] + [sep], tail, sep);
      CountAppend(s[..k], [sep], sep);
      assert Count([sep], sep) == 1 by {
        assert [sep][1..] == [];
      }
    } else {
      SplitNoSep(s, sep);
    }
  }

  /** Text appended after the first separator leaves everything before it alone. */
  lemma FirstSepOfAppend(s: string, u: string, sep: char)
    requires sep in s
    ensures sep in s + u && IndexOf(s + u, sep) == IndexOf(s, sep)
    ensures Split(s + u, sep) == [s[..IndexOf(s, sep)]] + Split(s[IndexOf(s, sep) + 1..] + u, sep)
  {
    var k := IndexOf(s, sep);
    var t := s + u;
    assert t[k] == sep;
    assert t[..k] == s[..k];
    IndexOfFirst(t, sep, k);
    assert t[k + 1..] == s[k + 1..] + u;
    SplitAtFirst(t, sep);
  }

  /** A separator read at the end opens a new, empty piece. */
  lemma {:induction false} SplitAddSep(s: string, sep: char)
    ensures Split(s + [sep], sep) == Split(s, sep) + [""]
    decreases |s|
  {
    if sep in s {
      var k := IndexOf(s, sep);
      FirstSepOfAppend(s, [sep], sep);
      SplitAddSep(s[k + 1..], sep);
      SplitAtFirst(s, sep);
      ConcatAssoc([s[..k]], Split(s[k + 1..], sep), [""]);
    } else {
      SplitAfterWord(s, [], sep);
      assert s + [sep] + [] == s + [sep];
      SplitNoSep(s, sep);
      SplitNoSep([], sep);
    }
  }

  /** Concatenation is associative. */
  lemma ConcatAssoc<T>(a: seq<T>, b: seq<T>, c: seq<T>)
    ensures a + (b + c) == (a + b) + c
  {
  }

  /** Any other character read at the end extends the last piece. */
  lemma {:induction false} SplitAddChar(s: string, c: char, sep: char)
    requires c != sep
    ensures var before := Split(s, sep);
      Split(s + [c], sep) == before[..|before| - 1] + [Last(before) + [c]]
    decreases |s|
  {
    var t := s + [c];
    if sep in s {
      var k := IndexOf(s, sep);
      assert t[..k] == s[..k];
      IndexOfFirst(t, sep, k);
      assert t[k + 1..] == s[k + 1..] + [c];
      var head, rest := s[..k], Split(s[k + 1..], sep);
      assert Split(t, sep) == [head] + Split(s[k + 1..] + [c], sep);
      SplitAddChar(s[k + 1..], c, sep);
      var before := [head] + rest;
      assert before[..|before| - 1] == [head] + rest[..|rest| - 1];
    } else {
      assert sep !in t;
    }
  }

  /** How Split changes when one more character is read: a separator opens a new,
      empty piece; any other character extends the last piece. */
  lemma SplitSnoc(s: string, c: char, sep: char)
    ensures var before := Split(s, sep);
      Split(s + [c], sep) ==
        if c == sep then before + [""]
        else before[..|before| - 1] + [Last(before) + [c]]
  {
    if c == sep {
      SplitAddSep(s, sep);
    } else {
      SplitAddChar(s, c, sep);
    }
  }
}
