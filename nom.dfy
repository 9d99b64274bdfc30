/**
 * The parsers of the nom 7 library (the "complete" variants, on text input)
 * that the notebook parser is built from.  Each takes the input and returns
 * the input left over together with the value it read, or a recoverable error.
 */
module Nom {

  /** nom's `IResult`: the remaining input and the value, or `Err::Error`.
      None of the parsers modelled here raise `Err::Failure` or
      `Err::Incomplete`, so one failure case is enough. */
  datatype ParseResult<+T> = Done(rest: string, value: T) | Fail

  /** `s` without its first `n` characters */
  function Drop(s: string, n: nat): (r: string)
    requires n <= |s|
    ensures |r| == |s| - n
    decreases n
  {
    if n == 0 then s else Drop(s[1..], n - 1)
  }

  lemma {:induction false} DropIsSlice(s: string, n: nat)
    requires n <= |s|
    ensures Drop(s, n) == s[n..]
    decreases n
  {
    if n > 0 {
      DropIsSlice(s[1..], n - 1);
      assert s[1..][n - 1..] == s[n..];
    }
  }

  /** `t` is what remains of `s` after some prefix of it was consumed */
  predicate IsSuffix(t: string, s: string) {
    |t| <= |s| && t == Drop(s, |s| - |t|)
  }

  lemma SuffixTransitive(a: string, b: string, c: string)
    requires IsSuffix(a, b) && IsSuffix(b, c)
    ensures IsSuffix(a, c)
  {
    DropIsSlice(b, |b| - |a|);
    DropIsSlice(c, |c| - |b|);
    DropIsSlice(c, |c| - |a|);
    assert c[|c| - |a|..] == c[|c| - |b|..][|b| - |a|..];
  }

  lemma SuffixOfAppend(a: string, b: string)
    ensures IsSuffix(b, a + b)
  {
    DropIsSlice(a + b, |a|);
    assert (a + b)[|a|..] == b;
  }

  lemma AppendAssoc(a: string, b: string, c: string)
    ensures (a + b) + c == a + (b + c)
  {
  }

  /** Four pieces read one after the other from `s` */
  lemma Pieces(s: string, a: string, b: string, c: string, d: string)
    requires s == a + (b + (c + d))
    ensures s == a + b + c + d && s[|a|..] == b + (c + d)
    ensures IsSuffix(d, s) && |d| == |s| - |a| - |b| - |c|
  {
    assert s[|a|..] == b + (c + d);
    assert s == (a + b + c) + d;
    SuffixOfAppend(a + b + c, d);
  }

  /** Reading `a` and then `b` from `s` means `s` starts with `a + b` */
  lemma PrefixOfPieces(s: string, a: string, b: string, c: string)
    requires s == a + (b + c)
    ensures a + b <= s
  {
    assert s == (a + b) + c;
  }

  /** `s` starts with `a + b + c` exactly when it starts with `a`, what
      follows starts with `b`, and what follows that starts with `c` */
  lemma PrefixOfThree(s: string, a: string, b: string, c: string)
    ensures a + b + c <= s <==> a <= s && b <= s[|a|..] && c <= s[|a| + |b|..]
  {
    if a + b + c <= s {
      assert s[|a|..][..|b|] == (a + b + c)[|a|..|a| + |b|];
      assert s[|a| + |b|..][..|c|] == (a + b + c)[|a| + |b|..];
    }
    if a <= s && b <= s[|a|..] && c <= s[|a| + |b|..] {
      assert s[..|a| + |b| + |c|] == a + b + c;
    }
  }

  /** The longest prefix of `s` whose characters all satisfy `p`. */
  function TakeWhile(p: char -> bool, s: string): (r: string)
    ensures r <= s
    ensures forall i :: 0 <= i < |r| ==> p(r[i])
    ensures |r| == |s| || !p(s[|r|])
  {
    if s == [] || !p(s[0]) then [] else [s[0]] + TakeWhile(p, s[1..])
  }

  /** Nothing stops `TakeWhile` before the first character that fails `p`. */
  lemma {:induction false} TakeWhileReaches(p: char -> bool, s: string, k: nat)
    requires k <= |s|
    requires forall i :: 0 <= i < k ==> p(s[i])
    ensures k <= |TakeWhile(p, s)|
  {
    if k > 0 {
      TakeWhileReaches(p, s[1..], k - 1);
    }
  }

  /** `TakeWhile` stops exactly at the first character that fails `p`. */
  lemma TakeWhileStopsAt(p: char -> bool, s: string, k: nat)
    requires k < |s| && !p(s[k])
    requires forall i :: 0 <= i < k ==> p(s[i])
    ensures |TakeWhile(p, s)| == k
  {
    TakeWhileReaches(p, s, k);
  }

  /** A prefix all of whose characters satisfy `p`, followed by one that
      does not (or by nothing), is what `TakeWhile` takes. */
  lemma TakeWhileExact(p: char -> bool, w: string, rest: string)
    requires forall i :: 0 <= i < |w| ==> p(w[i])
    requires rest == [] || !p(rest[0])
    ensures TakeWhile(p, w + rest) == w
  {
    var s := w + rest;
    assert forall i :: 0 <= i < |w| ==> p(s[i]);
    TakeWhileReaches(p, s, |w|);
    if rest != [] {
      assert s[|w|] == rest[0];
      TakeWhileStopsAt(p, s, |w|);
    }
    assert TakeWhile(p, s) == s[..|w|];
  }

  /** `tag(t)`: the input starts with `t`, which is consumed. */
  function Tag(t: string, s: string): (r: ParseResult<string>)
    ensures r.Done? <==> t <= s
    ensures r.Done? ==> r.value == t && s == t + r.rest && IsSuffix(r.rest, s)
  {
    if t <= s then
      assert s == t + s[|t|..];
      SuffixOfAppend(t, s[|t|..]);
      Done(s[|t|..], t)
    else Fail
  }

  lemma TagPrefix(t: string, rest: string)
    ensures Tag(t, t + rest) == Done(rest, t)
  {
    assert t <= t + rest;
    assert (t + rest)[|t|..] == rest;
  }

  /** `take_while1(p)`: the longest prefix satisfying `p`, which must not be empty. */
  function TakeWhile1(p: char -> bool, s: string): (r: ParseResult<string>)
    ensures r.Done? <==> s != [] && p(s[0])
    ensures r.Done? ==> s == r.value + r.rest && r.value != []
    ensures r.Done? ==> forall i :: 0 <= i < |r.value| ==> p(r.value[i])
    ensures r.Done? ==> r.rest == [] || !p(r.rest[0])
    ensures r.Done? ==> IsSuffix(r.rest, s)
  {
    var taken := TakeWhile(p, s);
    assert s == taken + s[|taken|..];
    SuffixOfAppend(taken, s[|taken|..]);
    if taken == [] then Fail else Done(s[|taken|..], taken)
  }

  lemma TakeWhile1Exact(p: char -> bool, w: string, rest: string)
    requires w != [] && forall i :: 0 <= i < |w| ==> p(w[i])
    requires rest == [] || !p(rest[0])
    ensures TakeWhile1(p, w + rest) == Done(rest, w)
  {
    TakeWhileExact(p, w, rest);
    assert (w + rest)[|w|..] == rest;
  }

  /** nom's `space0` and `space1` accept spaces and horizontal tabs. */
  predicate IsSpace(c: char) {
    c == ' ' || c == '\t'
  }

  predicate IsSpaces(w: string) {
    forall i :: 0 <= i < |w| ==> IsSpace(w[i])
  }

  /** `space0`: the longest run of spaces and tabs; it never fails. */
  function Space0(s: string): (r: ParseResult<string>)
    ensures r.Done? && s == r.value + r.rest && IsSpaces(r.value)
    ensures r.rest == [] || !IsSpace(r.rest[0])
    ensures IsSuffix(r.rest, s)
  {
    var taken := TakeWhile(IsSpace, s);
    assert s == taken + s[|taken|..];
    SuffixOfAppend(taken, s[|taken|..]);
    Done(s[|taken|..], taken)
  }

  lemma Space0Exact(w: string, rest: string)
    requires IsSpaces(w)
    requires rest == [] || !IsSpace(rest[0])
    ensures Space0(w + rest) == Done(rest, w)
  {
    TakeWhileExact(IsSpace, w, rest);
    assert (w + rest)[|w|..] == rest;
  }

  /** `space0` reads nothing where no space or tab comes first */
  lemma Space0None(s: string)
    requires s == [] || !IsSpace(s[0])
    ensures Space0(s) == Done(s, [])
  {
    Space0Exact([], s);
    assert [] + s == s;
  }

  /** `space0` reads the spaces `w` and stops at a piece that does not start with a space */
  lemma Space0Then(w: string, piece: string, rest: string)
    requires IsSpaces(w) && piece != [] && !IsSpace(piece[0])
    ensures Space0(w + (piece + rest)) == Done(piece + rest, w)
  {
    assert (piece + rest)[0] == piece[0];
    Space0Exact(w, piece + rest);
  }

  /** `space0` reads nothing before a piece that does not start with a space */
  lemma Space0Before(piece: string, rest: string)
    requires piece != [] && !IsSpace(piece[0])
    ensures Space0(piece + rest) == Done(piece + rest, [])
  {
    Space0None(piece + rest);
  }

  /** `space1`: like `space0`, but at least one space or tab is required. */
  function Space1(s: string): (r: ParseResult<string>)
    ensures r.Done? <==> s != [] && IsSpace(s[0])
    ensures r.Done? ==> s == r.value + r.rest && r.value != [] && IsSpaces(r.value)
    ensures r.Done? ==> r.rest == [] || !IsSpace(r.rest[0])
    ensures r.Done? ==> IsSuffix(r.rest, s)
  {
    TakeWhile1(IsSpace, s)
  }

  /** `newline`: the character '\n'. */
  function Newline(s: string): (r: ParseResult<char>)
    ensures r.Done? <==> s != [] && s[0] == '\n'
    ensures r.Done? ==> s == [r.value] + r.rest && r.value == '\n' && IsSuffix(r.rest, s)
  {
    if s != [] && s[0] == '\n' then
      assert s == [s[0]] + s[1..];
      SuffixOfAppend([s[0]], s[1..]);
      Done(s[1..], '\n')
    else Fail
  }

  /** `line_ending`: "\n" or "\r\n". */
  function LineEnding(s: string): (r: ParseResult<string>)
    ensures r.Done? <==> "\n" <= s || "\r\n" <= s
    ensures r.Done? ==> (r.value == "\n" || r.value == "\r\n") && s == r.value + r.rest
    ensures r.Done? ==> IsSuffix(r.rest, s)
  {
    if "\n" <= s then
      assert s == "\n" + s[1..];
      SuffixOfAppend("\n", s[1..]);
      Done(s[1..], "\n")
    else if "\r\n" <= s then
      assert s == "\r\n" + s[2..];
      SuffixOfAppend("\r\n", s[2..]);
      Done(s[2..], "\r\n")
    else Fail
  }

  predicate IsLineChar(c: char) {
    c != '\r' && c != '\n'
  }

  predicate HasNoLineBreak(w: string) {
    forall i :: 0 <= i < |w| ==> IsLineChar(w[i])
  }

  /** The first '\r' or '\n' of `s` is a '\r' that does not begin "\r\n". */
  predicate HasLoneCarriageReturn(s: string) {
    exists k :: 0 <= k < |s| && s[k] == '\r' && !("\r\n" <= s[k..]) && HasNoLineBreak(s[..k])
  }

  /** Where the first line break of `s` is, `TakeWhile(IsLineChar, s)` ends. */
  lemma LoneCarriageReturnAtLineEnd(s: string)
    ensures var n := |TakeWhile(IsLineChar, s)|;
      HasLoneCarriageReturn(s) <==> n < |s| && s[n] == '\r' && !("\r\n" <= s[n..])
  {
    var line := TakeWhile(IsLineChar, s);
    var n := |line|;
    assert line == s[..n];
    if n < |s| && s[n] == '\r' && !("\r\n" <= s[n..]) {
      assert HasNoLineBreak(s[..n]);
    }
    forall k | 0 <= k < |s| && s[k] == '\r' && HasNoLineBreak(s[..k])
      ensures k == n
    {
      assert forall i :: 0 <= i < k ==> s[..k][i] == s[i];
      TakeWhileStopsAt(IsLineChar, s, k);
    }
  }

  /** `not_line_ending`: everything up to the first "\n" or "\r\n" (possibly
      nothing); nom refuses a '\r' that is not followed by '\n'. */
  function NotLineEnding(s: string): (r: ParseResult<string>)
    ensures r.Fail? <==> HasLoneCarriageReturn(s)
    ensures r.Done? ==> s == r.value + r.rest && HasNoLineBreak(r.value)
    ensures r.Done? ==> r.rest == [] || "\n" <= r.rest || "\r\n" <= r.rest
    ensures r.Done? ==> IsSuffix(r.rest, s)
  {
    var line := TakeWhile(IsLineChar, s);
    var rest := s[|line|..];
    LoneCarriageReturnAtLineEnd(s);
    assert s == line + rest;
    SuffixOfAppend(line, rest);
    if rest != [] && rest[0] == '\r' && !("\r\n" <= rest) then Fail else Done(rest, line)
  }

  /** A line without line breaks, then "\n", "\r\n" or the end of the input. */
  lemma NotLineEndingExact(line: string, rest: string)
    requires HasNoLineBreak(line)
    requires rest == [] || "\n" <= rest || "\r\n" <= rest
    ensures NotLineEnding(line + rest) == Done(rest, line)
  {
    TakeWhileExact(IsLineChar, line, rest);
    assert (line + rest)[|line|..] == rest;
  }

  /** Text ending in a newline whose first line has no line break holds no
      lone carriage return: its first line break is that newline. */
  lemma NoLoneCarriageReturn(line: string, rest: string)
    requires HasNoLineBreak(line)
    ensures !HasLoneCarriageReturn(line + ("\n" + rest))
  {
    var s := line + ("\n" + rest);
    forall k | 0 <= k < |s| && s[k] == '\r'
      ensures !HasNoLineBreak(s[..k])
    {
      assert k > |line|;
      assert s[..k][|line|] == '\n';
    }
  }

  /** What is read of `s` to leave `rest` holds no line break */
  predicate ReadsOnLine(s: string, rest: string) {
    |rest| <= |s| && s == s[..|s| - |rest|] + rest && HasNoLineBreak(s[..|s| - |rest|])
  }

  lemma ReadsNothingOnLine(s: string)
    ensures ReadsOnLine(s, s)
  {
    assert s[..0] + s == s;
  }

  lemma ReadsOnLineAppend(line: string, rest: string)
    requires HasNoLineBreak(line)
    ensures ReadsOnLine(line + rest, rest)
  {
    assert (line + rest)[..|line|] == line;
  }

  lemma ReadsOnLineTransitive(s: string, t: string, rest: string)
    requires ReadsOnLine(s, t) && ReadsOnLine(t, rest)
    ensures ReadsOnLine(s, rest)
  {
    var a := s[..|s| - |t|];
    var b := t[..|t| - |rest|];
    assert s == (a + b) + rest;
    assert s[..|s| - |rest|] == a + b;
  }

  /** Spaces hold no line break */
  lemma SpacesOnLine(s: string)
    ensures ReadsOnLine(s, Space0(s).rest)
    ensures Space1(s).Done? ==> ReadsOnLine(s, Space1(s).rest)
  {
    ReadsOnLineAppend(Space0(s).value, Space0(s).rest);
    if Space1(s).Done? {
      ReadsOnLineAppend(Space1(s).value, Space1(s).rest);
    }
  }

  /** A tag without line breaks */
  lemma TagOnLine(t: string, s: string)
    requires HasNoLineBreak(t)
    ensures Tag(t, s).Done? ==> ReadsOnLine(s, Tag(t, s).rest)
  {
    if t <= s {
      ReadsOnLineAppend(t, Tag(t, s).rest);
    }
  }

  /** A tag without line breaks between optional spaces, as
      `delimited(space0, tag(t), space0)` reads it */
  lemma SpacedTagOnLine(t: string, s: string)
    requires HasNoLineBreak(t)
    ensures var lead := Space0(s); var tag := Tag(t, lead.rest);
      tag.Done? ==> ReadsOnLine(s, Space0(tag.rest).rest)
  {
    var lead := Space0(s);
    var tag := Tag(t, lead.rest);
    if tag.Done? {
      SpacesOnLine(s);
      TagOnLine(t, lead.rest);
      SpacesOnLine(tag.rest);
      ReadsOnLineTransitive(lead.rest, tag.rest, Space0(tag.rest).rest);
      ReadsOnLineTransitive(s, lead.rest, Space0(tag.rest).rest);
    }
  }
}
