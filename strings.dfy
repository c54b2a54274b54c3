/** The pieces of java.lang the joiner relies on: how a possibly-null value
    becomes text, how fragments are joined, and what counts as whitespace. */
module Strings {
  import opened Wrappers

  /** The text `StringBuilder.append(CharSequence)` and `String.valueOf` give
      for a possibly-null character sequence: `null` reads as "null". */
  function Text(s: Option<string>): (t: string)
    ensures s.None? ==> t == "null"
    ensures s.Some? ==> t == s.value
  {
    match s
    case None => "null"
    case Some(t) => t
  }

  /** `String.valueOf(Object)` for an element of type `T`, given that type's
      `toString` as `str`: `null` reads as "null". */
  function ValueOf<T>(e: Option<T>, str: T -> string): (t: string)
    ensures e.None? ==> t == "null"
    ensures e.Some? ==> t == str(e.value)
  {
    match e
    case None => "null"
    case Some(v) => str(v)
  }

  /** The fragments, in order, with `delimiter` between consecutive ones. */
  function Join(fragments: seq<string>, delimiter: string): string
  {
    if |fragments| == 0 then ""
    else if |fragments| == 1 then fragments[0]
    else fragments[0] + delimiter + Join(fragments[1..], delimiter)
  }

  /** The sum of the lengths of the fragments. */
  function TotalLength(fragments: seq<string>): nat
  {
    if fragments == [] then 0 else |fragments[0]| + TotalLength(fragments[1..])
  }

  /** The left-to-right concatenation of the text of every piece, as a
      `StringBuilder` that appends each piece in turn builds it. */
  function Concat(pieces: seq<Option<string>>): string
  {
    if pieces == [] then "" else Text(pieces[0]) + Concat(pieces[1..])
  }

  /** `Character.isWhitespace`: the Unicode space, line and paragraph
      separators other than the non-breaking ones (U+00A0, U+2007, U+202F),
      and the controls U+0009..U+000D and U+001C..U+001F. */
  predicate IsWhitespace(c: char)
    ensures c == ' ' || c == '\t' || c == '\n' || c == '\r' ==> IsWhitespace(c)
    ensures c as int == 0xA0 || c as int == 0x2007 || c as int == 0x202F ==> !IsWhitespace(c)
    ensures '0' <= c <= '9' || 'a' <= c <= 'z' || 'A' <= c <= 'Z' ==> !IsWhitespace(c)
  {
    var n := c as int;
    (0x09 <= n <= 0x0D) || (0x1C <= n <= 0x1F) || n == 0x20 || n == 0x1680 ||
    (0x2000 <= n <= 0x2006) || (0x2008 <= n <= 0x200A) ||
    n == 0x2028 || n == 0x2029 || n == 0x205F || n == 0x3000
  }

  /** Every character of `s` is whitespace (so the empty text is blank). */
  predicate IsBlank(s: string)
  {
    forall i | 0 <= i < |s| :: IsWhitespace(s[i])
  }

  /** Appending one more fragment to a non-empty join adds the delimiter and
      that fragment at the end; a single fragment joins to itself. */
  lemma {:induction false} JoinSnoc(fragments: seq<string>, x: string, delimiter: string)
    ensures Join(fragments + [x], delimiter) ==
            if fragments == [] then x else Join(fragments, delimiter) + delimiter + x
    decreases |fragments|
  {
    if |fragments| >= 2 {
      assert (fragments + [x])[1..] == fragments[1..] + [x];
      JoinSnoc(fragments[1..], x, delimiter);
    }
  }

  /** A non-empty join is as long as its fragments together plus one
      delimiter between each consecutive pair. */
  lemma {:induction false} JoinLength(fragments: seq<string>, delimiter: string)
    requires fragments != []
    ensures |Join(fragments, delimiter)| ==
            TotalLength(fragments) + (|fragments| - 1) * |delimiter|
    decreases |fragments|
  {
    if |fragments| == 1 {
      assert fragments[1..] == [];
    } else {
      JoinLength(fragments[1..], delimiter);
      var k := |fragments| - 1;
      assert (k - 1) * |delimiter| + |delimiter| == k * |delimiter|;
    }
  }

  /** Concatenation distributes over putting the pieces side by side. */
  lemma {:induction false} ConcatAppend(a: seq<Option<string>>, b: seq<Option<string>>)
    ensures Concat(a + b) == Concat(a) + Concat(b)
    decreases |a|
  {
    if a == [] {
      assert a + b == b;
    } else {
      assert (a + b)[1..] == a[1..] + b;
      ConcatAppend(a[1..], b);
    }
  }

  /** The concatenation of the first `i + 1` pieces extends that of the
      first `i` by the text of piece `i`. */
  lemma ConcatPrefixStep(pieces: seq<Option<string>>, i: nat)
    requires i < |pieces|
    ensures Concat(pieces[..i + 1]) == Concat(pieces[..i]) + Text(pieces[i])
  {
    assert pieces[..i + 1] == pieces[..i] + [pieces[i]];
    ConcatAppend(pieces[..i], [pieces[i]]);
  }

  /** Two pieces concatenate to the text of the first followed by the text
      of the second. */
  lemma ConcatPair(a: Option<string>, b: Option<string>)
    ensures Concat([a, b]) == Text(a) + Text(b)
  {
    assert [a, b][1..] == [b];
    assert [b][1..] == [];
    assert Concat([b]) == Text(b) + Concat([]);
  }
}
