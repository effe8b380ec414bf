/**
 * The few Python built-ins the spreadsheet converter relies on, over
 * strings modelled as sequences of characters: `str.split(sep)` with an
 * explicit one-character separator, `sep.join(parts)`, `str.replace` of one
 * character by another and the slice `s[0:n]`.  Exceptions the converter
 * does not catch are modelled as a `Raises` outcome.
 */
module PyBuiltins {

  /** The exceptions the converter can let escape. */
  datatype PyError =
    | ValueError           // tuple unpacking of the wrong number of parts
    | KeyError(key: string) // a label missing from a pandas index

  /** Either the value a Python function returns, or the exception it raises. */
  datatype Raised<+T> = Returned(value: T) | Raises(error: PyError)

  /** Number of occurrences of `c` in `s`. */
  function Count(s: string, c: char): nat
  {
    if s == [] then 0 else (if s[0] == c then 1 else 0) + Count(s[1..], c)
  }

  lemma {:induction false} CountZero(s: string, c: char)
    ensures Count(s, c) == 0 <==> c !in s
  {
    if s != [] {
      CountZero(s[1..], c);
      assert s == [s[0]] + s[1..];
    }
  }

  lemma {:induction false} CountAppend(a: string, b: string, c: char)
    ensures Count(a + b, c) == Count(a, c) + Count(b, c)
  {
    if a == [] {
      assert a + b == b;
    } else {
      CountAppend(a[1..], b, c);
      assert (a + b)[0] == a[0] && (a + b)[1..] == a[1..] + b;
    }
  }

  /** `sep.join(parts)`: the parts with one `sep` between neighbours. */
  function Join(parts: seq<string>, sep: char): string
  {
    if |parts| == 0 then ""
    else if |parts| == 1 then parts[0]
    else parts[0] + [sep] + Join(parts[1..], sep)
  }

  /**
   * `s.split(sep)`: the maximal runs between separators, including empty
   * ones (`"a  b".split(' ') == ['a', '', 'b']`).  There is always one more
   * part than there are separators, no part holds a separator, and joining
   * the parts back gives `s`.
   */
  function Split(s: string, sep: char): (parts: seq<string>)
    ensures |parts| == Count(s, sep) + 1
    ensures forall i :: 0 <= i < |parts| ==> sep !in parts[i]
    ensures Join(parts, sep) == s
  {
    if s == [] then [""]
    else
      var rest := Split(s[1..], sep);
      if s[0] == sep then
        assert Join([""] + rest, sep) == [sep] + Join(rest, sep);
        assert s == [sep] + s[1..];
        [""] + rest
      else
        var parts := [[s[0]] + rest[0]] + rest[1..];
        assert |rest| > 1 ==> rest == [rest[0]] + rest[1..] && Join(rest, sep) == rest[0] + [sep] + Join(rest[1..], sep);
        assert s == [s[0]] + s[1..];
        parts
  }

  /** A string without separator splits into itself. */
  lemma {:induction false} SplitNoSep(s: string, sep: char)
    requires sep !in s
    ensures Split(s, sep) == [s]
  {
    CountZero(s, sep);
    var parts := Split(s, sep);
    assert Join(parts, sep) == parts[0];
  }

  /** Splitting `p + sep + t`, where `p` has no separator, yields `p` first. */
  lemma {:induction false} SplitCons(p: string, t: string, sep: char)
    requires sep !in p
    ensures Split(p + [sep] + t, sep) == [p] + Split(t, sep)
  {
    if p == [] {
      assert p + [sep] + t == [sep] + t;
    } else {
      var s := p + [sep] + t;
      SplitCons(p[1..], t, sep);
      assert s[1..] == p[1..] + [sep] + t;
      assert s[0] == p[0] != sep;
      var rest := Split(s[1..], sep);
      assert rest[0] == p[1..] && rest[1..] == Split(t, sep);
      assert [s[0]] + rest[0] == p;
    }
  }

  /** Splitting `s + sep + w`, where `w` has no separator, yields `w` last. */
  lemma {:induction false} SplitSnoc(s: string, w: string, sep: char)
    requires sep !in w
    ensures Split(s + [sep] + w, sep) == Split(s, sep) + [w]
  {
    if s == [] {
      assert s + [sep] + w == [sep] + w;
      SplitNoSep(w, sep);
    } else {
      var t := s + [sep] + w;
      SplitSnoc(s[1..], w, sep);
      assert t[1..] == s[1..] + [sep] + w && t[0] == s[0];
      var rest := Split(s[1..], sep);
      if s[0] != sep {
        assert (rest + [w])[0] == rest[0] && (rest + [w])[1..] == rest[1..] + [w];
      }
    }
  }

  /** The other half of the round trip: splitting a join gives the parts back. */
  lemma {:induction false} SplitJoin(parts: seq<string>, sep: char)
    requires |parts| >= 1
    requires forall i :: 0 <= i < |parts| ==> sep !in parts[i]
    ensures Split(Join(parts, sep), sep) == parts
  {
    if |parts| == 1 {
      SplitNoSep(parts[0], sep);
    } else {
      SplitJoin(parts[1..], sep);
      SplitCons(parts[0], Join(parts[1..], sep), sep);
      assert parts == [parts[0]] + parts[1..];
    }
  }

  /** Joining all parts but the last, then the separator and the last part, gives the whole join. */
  lemma {:induction false} JoinSnoc(parts: seq<string>, sep: char)
    requires |parts| >= 2
    ensures Join(parts, sep) == Join(parts[..|parts| - 1], sep) + [sep] + parts[|parts| - 1]
  {
    if |parts| > 2 {
      JoinSnoc(parts[1..], sep);
      assert parts[1..][..|parts| - 2] == parts[..|parts| - 1][1..];
    }
  }

  /** Concatenation is associative; stated once so that long proofs need not rediscover it. */
  lemma AppendAssoc<T>(a: seq<T>, b: seq<T>, c: seq<T>)
    ensures (a + b) + c == a + (b + c)
  {
  }

  /** `s.replace(from, to)` for one character by another. */
  function ReplaceChar(s: string, from: char, to: char): (r: string)
    ensures |r| == |s|
    ensures forall i :: 0 <= i < |s| ==> r[i] == (if s[i] == from then to else s[i])
    ensures from != to ==> from !in r
  {
    seq(|s|, i requires 0 <= i < |s| => if s[i] == from then to else s[i])
  }

  /** The slice `s[0:n]`, which is all of `s` when `s` is shorter. */
  function Slice(s: string, n: nat): (r: string)
    ensures |r| <= n && r <= s
    ensures |s| <= n ==> r == s
    ensures |s| > n ==> r == s[..n]
  {
    if |s| <= n then s else s[..n]
  }
}
