/** The JavaScript string operations the extension relies on: `split` and
    `join` on a one-character separator, `trim() !== ''`, `startsWith` and
    repeated `+=` concatenation. */
module Text {

  /** Characters removed by `String.prototype.trim`: the ECMAScript
      WhiteSpace and LineTerminator code points. */
  predicate IsWhitespace(c: char) {
    c == '\t' || c == '\n' || c == '\U{B}' || c == '\U{C}' || c == '\r' || c == ' '
    || c == '\U{A0}' || c == '\U{1680}' || ('\U{2000}' <= c <= '\U{200A}')
    || c == '\U{2028}' || c == '\U{2029}' || c == '\U{202F}' || c == '\U{205F}'
    || c == '\U{3000}' || c == '\U{FEFF}'
  }

  /** `s.trim() === ''` */
  predicate IsBlank(s: string) {
    forall i :: 0 <= i < |s| ==> IsWhitespace(s[i])
  }

  /** `s.startsWith(prefix)` */
  predicate StartsWith(s: string, prefix: string): (b: bool)
    ensures b <==> |prefix| <= |s| && forall i :: 0 <= i < |prefix| ==> s[i] == prefix[i]
    ensures b ==> s == prefix + s[|prefix|..]
  {
    |prefix| <= |s| && s[..|prefix|] == prefix
  }

  /** `parts.join(sep)`; the join of an empty array is the empty string. */
  function Join(parts: seq<string>, sep: char): string
    decreases |parts|
  {
    if |parts| == 0 then ""
    else if |parts| == 1 then parts[0]
    else parts[0] + [sep] + Join(parts[1..], sep)
  }

  /** `s.split(sep)` for a one-character separator: the maximal runs of
      non-separator characters, including empty ones, so that joining them
      back with `sep` gives `s` again. */
  function Split(s: string, sep: char): (parts: seq<string>)
    ensures |parts| >= 1
    ensures forall i :: 0 <= i < |parts| ==> sep !in parts[i]
    ensures Join(parts, sep) == s
    decreases |s|
  {
    if |s| == 0 then [""]
    else
      var rest := Split(s[1..], sep);
      if s[0] == sep then
        assert s == [sep] + s[1..];
        [""] + rest
      else
        assert s == [s[0]] + s[1..];
        [[s[0]] + rest[0]] + rest[1..]
  }

  /** A piece that holds no separator is split into itself. */
  lemma {:induction false} SplitWithoutSeparator(s: string, sep: char)
    requires sep !in s
    ensures Split(s, sep) == [s]
    decreases |s|
  {
    if |s| > 0 {
      SplitWithoutSeparator(s[1..], sep);
    }
  }

  /** Splitting `p + [sep] + x`, where `p` holds no separator, yields `p`
      followed by the pieces of `x`. */
  lemma {:induction false} SplitAfterPiece(p: string, sep: char, x: string)
    requires sep !in p
    ensures Split(p + [sep] + x, sep) == [p] + Split(x, sep)
    decreases |p|
  {
    var s := p + [sep] + x;
    if |p| == 0 {
      assert s[1..] == x;
    } else {
      assert s[1..] == p[1..] + [sep] + x;
      SplitAfterPiece(p[1..], sep, x);
      assert [p[0]] + p[1..] == p;
    }
  }

  /** `split` inverts `join` on separator-free pieces. */
  lemma {:induction false} SplitJoin(parts: seq<string>, sep: char)
    requires |parts| >= 1
    requires forall i :: 0 <= i < |parts| ==> sep !in parts[i]
    ensures Split(Join(parts, sep), sep) == parts
    decreases |parts|
  {
    if |parts| == 1 {
      SplitWithoutSeparator(parts[0], sep);
    } else {
      SplitAfterPiece(parts[0], sep, Join(parts[1..], sep));
      SplitJoin(parts[1..], sep);
    }
  }

  /** When `s` holds the separator, its first piece is everything before the
      first separator and the remaining pieces join to everything after it. */
  lemma SplitAtFirst(s: string, sep: char, k: nat)
    requires k < |s| && s[k] == sep && sep !in s[..k]
    ensures |Split(s, sep)| >= 2
    ensures Split(s, sep)[0] == s[..k]
    ensures Join(Split(s, sep)[1..], sep) == s[k + 1..]
  {
    assert s == s[..k] + [sep] + s[k + 1..];
    SplitAfterPiece(s[..k], sep, s[k + 1..]);
  }

  /** The concatenation of a list of strings, built left to right as
      repeated `+=` builds it. */
  function Concat(fragments: seq<string>): string
    decreases |fragments|
  {
    if |fragments| == 0 then ""
    else Concat(fragments[..|fragments| - 1]) + fragments[|fragments| - 1]
  }

  lemma {:induction false} ConcatAppend(a: seq<string>, b: seq<string>)
    ensures Concat(a + b) == Concat(a) + Concat(b)
    decreases |b|
  {
    if |b| == 0 {
      assert a + b == a;
    } else {
      var n := |b| - 1;
      assert (a + b)[..|a + b| - 1] == a + b[..n];
      assert (a + b)[|a + b| - 1] == b[n];
      ConcatAppend(a, b[..n]);
      calc {
        Concat(a + b);
        Concat(a + b[..n]) + b[n];
        (Concat(a) + Concat(b[..n])) + b[n];
        Concat(a) + (Concat(b[..n]) + b[n]);
        Concat(a) + Concat(b);
      }
    }
  }

  lemma ConcatSnoc(a: seq<string>, x: string)
    ensures Concat(a + [x]) == Concat(a) + x
  {
    assert (a + [x])[..|a|] == a;
  }

  /** `parts.filter((p) => p.trim() !== '')` */
  function KeepNonBlank(parts: seq<string>): (kept: seq<string>)
    ensures forall i :: 0 <= i < |kept| ==> !IsBlank(kept[i])
    ensures forall x :: x in kept <==> x in parts && !IsBlank(x)
    ensures |kept| <= |parts|
    decreases |parts|
  {
    if |parts| == 0 then []
    else if IsBlank(parts[0]) then KeepNonBlank(parts[1..])
    else [parts[0]] + KeepNonBlank(parts[1..])
  }

  /** The filter keeps order and multiplicity: filtering `a + b` is
      filtering `a`, then `b`. */
  lemma {:induction false} KeepNonBlankAppend(a: seq<string>, b: seq<string>)
    ensures KeepNonBlank(a + b) == KeepNonBlank(a) + KeepNonBlank(b)
    decreases |a|
  {
    if |a| == 0 {
      assert a + b == b;
    } else {
      assert (a + b)[0] == a[0];
      assert (a + b)[1..] == a[1..] + b;
      KeepNonBlankAppend(a[1..], b);
    }
  }

  /** A list with no blank element passes the filter unchanged. */
  lemma {:induction false} KeepNonBlankAll(parts: seq<string>)
    requires forall i :: 0 <= i < |parts| ==> !IsBlank(parts[i])
    ensures KeepNonBlank(parts) == parts
    decreases |parts|
  {
    if |parts| > 0 {
      KeepNonBlankAll(parts[1..]);
      assert [parts[0]] + parts[1..] == parts;
    }
  }
}
