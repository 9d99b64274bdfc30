/**
 * The notebook text format: a header line `block <name> [k: v, ...] =`
 * (or `=*`) followed by child lines, each indented one level (two spaces)
 * deeper than the header.  Every parser takes the input and returns the input
 * left over and the value read, or fails.
 */
module NotebookParser {
  import opened Wrappers
  import opened Nom

  /** One level of indentation */
  const TAB: string := "  "

  type KeyValue = (string, string)

  datatype Block =
    | Construct(name: string, options: seq<KeyValue>, childs: seq<Block>)
    | Value(text: string)

  /** `TAB.repeat(level)` */
  function Indent(level: nat): (r: string)
    ensures |r| == 2 * level
    ensures forall i :: 0 <= i < |r| ==> r[i] == ' '
  {
    if level == 0 then [] else TAB + Indent(level - 1)
  }

  // ---------------------------------------------------------------------
  // Character classes

  /** nom's `is_alphanumeric` on a byte: an ASCII digit or letter */
  predicate IsAlphanumeric(b: int) {
    '0' as int <= b <= '9' as int || 'A' as int <= b <= 'Z' as int || 'a' as int <= b <= 'z' as int
  }

  /** `is_alphanumeric(c as u8)`: Rust's `as u8` keeps the low eight bits
      of the code point, so every 256 code points the same bytes come back */
  predicate IsAlphanumericByteOf(n: nat) {
    if n < 256 then IsAlphanumeric(n) else IsAlphanumericByteOf(n - 256)
  }

  /** The truncation is the remainder modulo 256 */
  lemma {:induction false} AlphanumericByteIsModulo(n: nat)
    ensures IsAlphanumericByteOf(n) == IsAlphanumeric(n % 256)
    decreases n
  {
    if n >= 256 {
      AlphanumericByteIsModulo(n - 256);
      assert (n - 256) % 256 == n % 256;
    }
  }

  predicate IsNameChar(c: char) {
    IsAlphanumericByteOf(c as int) || c == '_'
  }

  predicate IsValueChar(c: char) {
    IsAlphanumericByteOf(c as int) || c == '.' || c == '_' || c == '-'
  }

  predicate IsName(w: string) {
    w != [] && forall i :: 0 <= i < |w| ==> IsNameChar(w[i])
  }

  predicate IsValueString(w: string) {
    w != [] && forall i :: 0 <= i < |w| ==> IsValueChar(w[i])
  }

  predicate IsKeyValue(kv: KeyValue) {
    IsName(kv.0) && IsValueString(kv.1)
  }

  predicate AreKeyValues(kvs: seq<KeyValue>) {
    forall i :: 0 <= i < |kvs| ==> IsKeyValue(kvs[i])
  }

  lemma KeyValuesCons(kv: KeyValue, kvs: seq<KeyValue>)
    requires IsKeyValue(kv) && AreKeyValues(kvs)
    ensures AreKeyValues([kv] + kvs)
  {
    assert forall i :: 0 < i < |kvs| + 1 ==> ([kv] + kvs)[i] == kvs[i - 1];
  }

  // ---------------------------------------------------------------------
  // Names, values and option lists

  /** `parse_valid_name`: the longest non-empty run of name characters */
  function ParseValidName(s: string): (r: ParseResult<string>)
    ensures r.Done? <==> s != [] && IsNameChar(s[0])
    ensures r.Done? ==> s == r.value + r.rest && IsName(r.value)
    ensures r.Done? ==> r.rest == [] || !IsNameChar(r.rest[0])
  {
    TakeWhile1(IsNameChar, s)
  }

  /** `parse_value_string`: the longest non-empty run of value characters */
  function ParseValueString(s: string): (r: ParseResult<string>)
    ensures r.Done? <==> s != [] && IsValueChar(s[0])
    ensures r.Done? ==> s == r.value + r.rest && IsValueString(r.value)
    ensures r.Done? ==> r.rest == [] || !IsValueChar(r.rest[0])
  {
    TakeWhile1(IsValueChar, s)
  }

  /** `parse_key_value`: a name, a colon between optional spaces, a value */
  function ParseKeyValue(s: string): (r: ParseResult<KeyValue>)
    ensures s == [] || !IsNameChar(s[0]) ==> r.Fail?
    ensures r.Done? ==> IsSuffix(r.rest, s) && |r.rest| < |s| && IsKeyValue(r.value)
  {
    var key := ParseValidName(s);
    if key.Fail? then Fail else
    var gap := Space0(key.rest);
    var colon := Tag(":", gap.rest);
    if colon.Fail? then Fail else
    var gap' := Space0(colon.rest);
    var value := ParseValueString(gap'.rest);
    if value.Fail? then Fail else
    SuffixTransitive(colon.rest, gap.rest, key.rest);
    SuffixTransitive(value.rest, gap'.rest, colon.rest);
    SuffixTransitive(value.rest, colon.rest, key.rest);
    SuffixTransitive(value.rest, key.rest, s);
    Done(value.rest, (key.value, value.value))
  }

  /** `delimited(space0, tag(","), space0)` */
  function Separator(s: string): (r: ParseResult<string>)
    ensures r.Done? ==> IsSuffix(r.rest, s) && |r.rest| < |s|
  {
    var gap := Space0(s);
    var comma := Tag(",", gap.rest);
    if comma.Fail? then Fail else
    var gap' := Space0(comma.rest);
    SuffixTransitive(comma.rest, gap.rest, s);
    SuffixTransitive(gap'.rest, comma.rest, s);
    Done(gap'.rest, comma.value)
  }

  /** The loop of `separated_list1(separator, parse_key_value)` after its
      first pair: a separator that is not followed by a pair is left unread. */
  function MoreKeyValues(s: string): (r: ParseResult<seq<KeyValue>>)
    decreases |s|
    ensures r.Done? && IsSuffix(r.rest, s) && AreKeyValues(r.value)
    ensures r.value == [] <==> r.rest == s
  {
    var sep := Separator(s);
    if sep.Fail? then Done(s, [])
    // nom refuses a separator that consumes nothing; this one always consumes ','
    else if |sep.rest| == |s| then Fail
    else
      var kv := ParseKeyValue(sep.rest);
      if kv.Fail? then Done(s, [])
      else
        var more := MoreKeyValues(kv.rest);
        if more.Fail? then Fail else
        SuffixTransitive(kv.rest, sep.rest, s);
        SuffixTransitive(more.rest, kv.rest, s);
        KeyValuesCons(kv.value, more.value);
        Done(more.rest, [kv.value] + more.value)
  }

  /** `separated_list1(separator, parse_key_value)`: one pair or more */
  function SeparatedKeyValues(s: string): (r: ParseResult<seq<KeyValue>>)
    ensures r.Done? ==> IsSuffix(r.rest, s) && |r.rest| < |s| && r.value != [] && AreKeyValues(r.value)
  {
    var first := ParseKeyValue(s);
    if first.Fail? then Fail else
    var more := MoreKeyValues(first.rest);
    if more.Fail? then Fail else
    SuffixTransitive(more.rest, first.rest, s);
    KeyValuesCons(first.value, more.value);
    Done(more.rest, [first.value] + more.value)
  }

  /** The bracketed list: `[`, spaces, pairs, spaces, `]` */
  function BracketedKeyValues(s: string): (r: ParseResult<seq<KeyValue>>)
    ensures r.Done? ==> "[" <= s && IsSuffix(r.rest, s) && |r.rest| < |s|
    ensures r.Done? ==> r.value != [] && AreKeyValues(r.value)
  {
    var open := Tag("[", s);
    if open.Fail? then Fail else
    var gap := Space0(open.rest);
    var list := SeparatedKeyValues(gap.rest);
    if list.Fail? then Fail else
    var gap' := Space0(list.rest);
    var close := Tag("]", gap'.rest);
    if close.Fail? then Fail else
    SuffixTransitive(list.rest, gap.rest, open.rest);
    SuffixTransitive(close.rest, gap'.rest, list.rest);
    SuffixTransitive(close.rest, list.rest, open.rest);
    SuffixTransitive(close.rest, open.rest, s);
    Done(close.rest, list.value)
  }

  /** `parse_key_value_list`: the optional bracketed list; it never fails,
      and reads nothing and yields no pair when no list is there. */
  function ParseKeyValueList(s: string): (r: ParseResult<seq<KeyValue>>)
    ensures r.Done? && IsSuffix(r.rest, s) && AreKeyValues(r.value)
    ensures r.value == [] <==> r.rest == s
    ensures r.value != [] ==> "[" <= s
  {
    var list := BracketedKeyValues(s);
    if list.Fail? then Done(s, []) else list
  }

  // ---------------------------------------------------------------------
  // Lines

  /** `s` is `head`, then "\n", "\r\n", or nothing when `head` ends the input,
      then `rest` */
  predicate LineThen(s: string, head: string, rest: string) {
    s == head + "\n" + rest || s == head + "\r\n" + rest || (s == head && rest == [])
  }

  /** `indented_parse_line(level)`: the indentation, then the rest of the
      line, then at most one line ending. */
  function IndentedParseLine(level: nat, s: string): (r: ParseResult<string>)
    ensures r.Done? <==> Indent(level) <= s && !HasLoneCarriageReturn(s[2 * level..])
    ensures r.Done? ==> HasNoLineBreak(r.value) && LineThen(s, Indent(level) + r.value, r.rest)
    ensures r.Done? ==> IsSuffix(r.rest, s) && |r.rest| <= |s| - 2 * level - |r.value|
  {
    var indent := Indent(level);
    var indentation := Tag(indent, s);
    if indentation.Fail? then Fail else
    var line := NotLineEnding(indentation.rest);
    if line.Fail? then Fail else
    var ending := LineEnding(line.rest);
    var rest := if ending.Fail? then line.rest else ending.rest;
    Pieces(s, indent, line.value, if ending.Fail? then [] else ending.value, rest);
    Done(rest, line.value)
  }

  predicate AreLines(lines: seq<string>) {
    forall i :: 0 <= i < |lines| ==> HasNoLineBreak(lines[i])
  }

  lemma LinesCons(line: string, lines: seq<string>)
    requires HasNoLineBreak(line) && AreLines(lines)
    ensures AreLines([line] + lines)
  {
    assert forall i :: 0 < i < |lines| + 1 ==> ([line] + lines)[i] == lines[i - 1];
  }

  /** `many0(indented_parse_line(level))`: consecutive lines of that
      indentation, up to the first that does not parse. */
  function ManyLines(level: nat, s: string): (r: ParseResult<seq<string>>)
    decreases |s|
    ensures level > 0 ==> r.Done?
    ensures r.Done? ==> IsSuffix(r.rest, s) && AreLines(r.value)
    ensures r.Done? ==> IndentedParseLine(level, r.rest).Fail?
    ensures r.Done? ==> (r.value == [] <==> r.rest == s)
  {
    var line := IndentedParseLine(level, s);
    if line.Fail? then Done(s, [])
    // nom's many0 refuses an item that consumes nothing
    else if |line.rest| == |s| then Fail
    else
      var more := ManyLines(level, line.rest);
      if more.Fail? then Fail else
      SuffixTransitive(more.rest, line.rest, s);
      LinesCons(line.value, more.value);
      Done(more.rest, [line.value] + more.value)
  }

  // ---------------------------------------------------------------------
  // Block headers

  /** `indented_parse_construct_info(level)`: the indentation, `block`,
      spaces, the name, spaces and the optional option list. */
  function IndentedParseConstructInfo(level: nat, s: string): (r: ParseResult<(string, seq<KeyValue>)>)
    ensures r.Done? ==> Indent(level) + "block" <= s && IsSuffix(r.rest, s) && |r.rest| < |s|
    ensures r.Done? ==> IsName(r.value.0) && AreKeyValues(r.value.1)
  {
    var indent := Indent(level);
    var indentation := Tag(indent, s);
    if indentation.Fail? then Fail else
    var keyword := Tag("block", indentation.rest);
    if keyword.Fail? then Fail else
    var gap := Space1(keyword.rest);
    if gap.Fail? then Fail else
    var name := ParseValidName(gap.rest);
    if name.Fail? then Fail else
    var gap' := Space1(name.rest);
    if gap'.Fail? then Fail else
    var options := ParseKeyValueList(gap'.rest);
    SuffixTransitive(options.rest, gap'.rest, name.rest);
    SuffixTransitive(options.rest, name.rest, gap.rest);
    SuffixTransitive(options.rest, gap.rest, keyword.rest);
    SuffixTransitive(options.rest, keyword.rest, indentation.rest);
    SuffixTransitive(options.rest, indentation.rest, s);
    PrefixOfPieces(s, indent, "block", keyword.rest);
    Done(options.rest, (name.value, options.value))
  }

  /** `custom_parse_child_start_mark(mark)`: optional spaces, the mark,
      optional spaces and a newline. */
  function CustomParseChildStartMark(mark: string, s: string): (r: ParseResult<()>)
    ensures r.Done? ==> IsSuffix(r.rest, s) && |r.rest| < |s|
  {
    var lead := Space0(s);
    var marked := Tag(mark, lead.rest);
    if marked.Fail? then Fail else
    var trail := Space0(marked.rest);
    var nl := Newline(trail.rest);
    if nl.Fail? then Fail else
    SuffixTransitive(nl.rest, trail.rest, marked.rest);
    SuffixTransitive(nl.rest, marked.rest, lead.rest);
    SuffixTransitive(nl.rest, lead.rest, s);
    Done(nl.rest, ())
  }

  /** `peek(tuple((newline, indent, tag("block"))))`: the next line is a
      header at `level`; nothing is consumed. */
  function PeekHeaderLine(level: nat, s: string): (r: ParseResult<()>)
    ensures r.Done? <==> "\n" + Indent(level) + "block" <= s
    ensures r.Done? ==> r.rest == s
  {
    var indent := Indent(level);
    PrefixOfThree(s, "\n", indent, "block");
    var nl := Newline(s);
    if nl.Fail? then Fail else
    var indentation := Tag(indent, nl.rest);
    if indentation.Fail? then Fail else
    var keyword := Tag("block", indentation.rest);
    if keyword.Fail? then Fail else
    Done(s, ())
  }

  /** `indented_parse_child_end_mark(level)`, that is `opt(peek(..))`: it
      never fails and never consumes. */
  function IndentedParseChildEndMark(level: nat, s: string): (r: ParseResult<Option<()>>)
    ensures r.Done? && r.rest == s
    ensures r.value.Some? <==> "\n" + Indent(level) + "block" <= s
  {
    var peeked := PeekHeaderLine(level, s);
    if peeked.Fail? then Done(s, None) else Done(peeked.rest, Some(()))
  }

  // ---------------------------------------------------------------------
  // Children

  /** The sequence in reverse order */
  function Reverse<T>(xs: seq<T>): (r: seq<T>)
    ensures |r| == |xs|
  {
    if xs == [] then [] else Reverse(xs[1..]) + [xs[0]]
  }

  /** Position `i` of the reversed sequence holds position `j` counted
      from the other end */
  lemma {:induction false} ReverseAt<T>(xs: seq<T>, i: nat, j: nat)
    requires i + j == |xs| - 1
    ensures Reverse(xs)[i] == xs[j]
    decreases |xs|
  {
    if i < |xs| - 1 {
      ReverseAt(xs[1..], i, j - 1);
    }
  }

  /** `skip_while(|s| s.is_empty())`: drops the leading empty strings */
  function SkipEmpty(values: seq<string>): (r: seq<string>)
    ensures |r| <= |values| && r == values[|values| - |r|..]
    ensures r == [] || r[0] != []
    ensures forall i :: 0 <= i < |values| - |r| ==> values[i] == []
  {
    if values != [] && values[0] == [] then
      var r := SkipEmpty(values[1..]);
      assert r == values[|values| - |r|..];
      r
    else values
  }

  predicate IsTrimmed(values: seq<string>) {
    values == [] || values[|values| - 1] != []
  }

  /** `trim_empty_strings_at_vec_end`: reverse, skip the empty strings,
      reverse back. It drops the trailing empty strings and nothing else. */
  function TrimEmptyStringsAtVecEnd(values: seq<string>): (r: seq<string>)
    ensures r <= values && IsTrimmed(r)
    ensures forall i :: |r| <= i < |values| ==> values[i] == []
  {
    ReversedSkipReversed(values);
    Reverse(SkipEmpty(Reverse(values)))
  }

  /** Reversing back what is left once the empty strings at the front of
      the reversed sequence are skipped gives a prefix of the original,
      which does not end in an empty string and leaves only empty strings
      behind it */
  lemma ReversedSkipReversed(values: seq<string>)
    ensures Reverse(SkipEmpty(Reverse(values))) <= values
    ensures IsTrimmed(Reverse(SkipEmpty(Reverse(values))))
    ensures forall i :: |Reverse(SkipEmpty(Reverse(values)))| <= i < |values| ==> values[i] == []
  {
    ReversedSkipIsPrefix(values);
    ReversedSkipLeavesEmpty(values);
    var kept := SkipEmpty(Reverse(values));
    if kept != [] {
      ReverseAt(kept, |kept| - 1, 0);
    }
  }

  lemma ReversedSkipIsPrefix(values: seq<string>)
    ensures Reverse(SkipEmpty(Reverse(values))) <= values
  {
    var reversed := Reverse(values);
    var kept := SkipEmpty(reversed);
    ReverseOfSuffix(values, |values| - |kept|);
  }

  /** Reversing a suffix of the reversed sequence gives a prefix back */
  lemma ReverseOfSuffix<T>(xs: seq<T>, k: nat)
    requires k <= |xs|
    ensures Reverse(Reverse(xs)[k..]) == xs[..|xs| - k]
  {
    forall i | 0 <= i < |xs| - k
      ensures Reverse(Reverse(xs)[k..])[i] == xs[i]
    {
      ReverseSuffixIndex(xs, k, i);
    }
  }

  lemma ReverseSuffixIndex<T>(xs: seq<T>, k: nat, i: nat)
    requires k <= |xs| && i < |xs| - k
    ensures Reverse(Reverse(xs)[k..])[i] == xs[i]
  {
    var rs := Reverse(xs);
    var ys := rs[k..];
    var m := |ys| - 1 - i;
    ReverseAt(ys, i, m);
    DropIndex(rs, k, m);
    ReverseAt(xs, k + m, i);
  }

  lemma DropIndex<T>(s: seq<T>, k: nat, m: nat)
    requires k + m < |s|
    ensures s[k..][m] == s[k + m]
  {
  }

  lemma ReversedSkipLeavesEmpty(values: seq<string>)
    ensures forall i :: |Reverse(SkipEmpty(Reverse(values)))| <= i < |values| ==> values[i] == []
  {
    var reversed := Reverse(values);
    var kept := SkipEmpty(reversed);
    forall i | |kept| <= i < |values|
      ensures values[i] == []
    {
      ReverseAt(values, |values| - 1 - i, i);
    }
  }

  /** The trimmed sequence is the only prefix that is trimmed and leaves
      nothing but empty strings behind it. */
  lemma TrimCharacterised(values: seq<string>, r: seq<string>)
    ensures r == TrimEmptyStringsAtVecEnd(values)
        <==> r <= values && IsTrimmed(r) && forall i :: |r| <= i < |values| ==> values[i] == []
  {
  }

  /** A sequence that does not end in an empty string is left as it is */
  lemma TrimmedIsUnchanged(values: seq<string>)
    requires IsTrimmed(values)
    ensures TrimEmptyStringsAtVecEnd(values) == values
  {
    TrimCharacterised(values, values);
  }

  /** Trimming twice is trimming once */
  lemma TrimIdempotent(values: seq<string>)
    ensures TrimEmptyStringsAtVecEnd(TrimEmptyStringsAtVecEnd(values)) == TrimEmptyStringsAtVecEnd(values)
  {
    TrimmedIsUnchanged(TrimEmptyStringsAtVecEnd(values));
  }

  /** Trailing empty strings are dropped whatever comes before them, so the
      empty strings in the middle stay */
  lemma TrimDropsTrailingEmpty(values: seq<string>, n: nat)
    ensures TrimEmptyStringsAtVecEnd(values + seq(n, _ => [])) == TrimEmptyStringsAtVecEnd(values)
  {
    var padded := values + seq(n, _ => []);
    var t := TrimEmptyStringsAtVecEnd(values);
    assert t <= padded by {
      assert padded[..|values|] == values;
    }
    forall i | |t| <= i < |padded|
      ensures padded[i] == []
    {
      if i >= |values| {
        assert padded[i] == seq(n, _ => [])[i - |values|];
      }
    }
    TrimCharacterised(padded, t);
  }

  lemma TrimDropsLastEmpty(values: seq<string>)
    requires values != [] && values[|values| - 1] == []
    ensures TrimEmptyStringsAtVecEnd(values) == TrimEmptyStringsAtVecEnd(values[..|values| - 1])
  {
    var front := values[..|values| - 1];
    TrimDropsTrailingEmpty(front, 1);
    assert values == front + seq(1, _ => []);
  }

  /** Reference definition: remove the last string while it is empty */
  function DropTrailingEmpty(values: seq<string>): (r: seq<string>)
    decreases |values|
  {
    if values != [] && values[|values| - 1] == [] then DropTrailingEmpty(values[..|values| - 1]) else values
  }

  /** Reversing, skipping the empty strings and reversing back is removing
      the empty strings from the end one by one */
  lemma {:induction false} TrimIsDropTrailingEmpty(values: seq<string>)
    ensures TrimEmptyStringsAtVecEnd(values) == DropTrailingEmpty(values)
    decreases |values|
  {
    if values != [] && values[|values| - 1] == [] {
      TrimDropsLastEmpty(values);
      TrimIsDropTrailingEmpty(values[..|values| - 1]);
    } else {
      TrimmedIsUnchanged(values);
    }
  }

  /** Each line as a `Block::Value` */
  function Values(lines: seq<string>): (bs: seq<Block>)
    ensures |bs| == |lines| && forall i :: 0 <= i < |lines| ==> bs[i] == Value(lines[i])
  {
    seq(|lines|, i requires 0 <= i < |lines| => Value(lines[i]))
  }

  /** The children a construct holds: line values, without line breaks,
      the last one not empty */
  predicate AreFlatChildren(childs: seq<Block>) {
    && (forall i :: 0 <= i < |childs| ==> childs[i].Value? && HasNoLineBreak(childs[i].text))
    && (childs == [] || childs[|childs| - 1].text != [])
  }

  lemma TrimmedLinesAreFlatChildren(lines: seq<string>)
    requires AreLines(lines)
    ensures AreFlatChildren(Values(TrimEmptyStringsAtVecEnd(lines)))
  {
    var kept := TrimEmptyStringsAtVecEnd(lines);
    assert forall i :: 0 <= i < |kept| ==> kept[i] == lines[i];
  }

  /** What the construct parsers produce: a construct with a valid name,
      valid options and flat children */
  predicate IsWellFormed(b: Block) {
    b.Construct? && IsName(b.name) && AreKeyValues(b.options) && AreFlatChildren(b.childs)
  }

  predicate AreWellFormed(bs: seq<Block>) {
    forall i :: 0 <= i < |bs| ==> IsWellFormed(bs[i])
  }

  lemma WellFormedCons(b: Block, bs: seq<Block>)
    requires IsWellFormed(b) && AreWellFormed(bs)
    ensures AreWellFormed([b] + bs)
  {
    assert forall i :: 0 < i < |bs| + 1 ==> ([b] + bs)[i] == bs[i - 1];
  }

  // ---------------------------------------------------------------------
  // Constructs

  /** The shared body of `indented_parse_construct` and
      `indented_parse_block_with_child_as_block`, which differ only in the
      mark that ends the header. */
  function ParseConstructWithMark(mark: string, level: nat, s: string): (r: ParseResult<Block>)
    ensures r.Done? ==> Indent(level) + "block" <= s && IsSuffix(r.rest, s) && |r.rest| < |s|
    ensures r.Done? ==> r.value.Construct? && IsName(r.value.name) && AreKeyValues(r.value.options)
    ensures r.Done? ==> AreFlatChildren(r.value.childs)
    ensures r.Done? ==> IndentedParseLine(level + 1, r.rest).Fail?
  {
    var info := IndentedParseConstructInfo(level, s);
    if info.Fail? then Fail else
    var start := CustomParseChildStartMark(mark, info.rest);
    if start.Fail? then Fail else
    var lines := ManyLines(level + 1, start.rest);
    if lines.Fail? then Fail else
    var end := IndentedParseChildEndMark(level, lines.rest);
    var kept := TrimEmptyStringsAtVecEnd(lines.value);
    SuffixTransitive(start.rest, info.rest, s);
    SuffixTransitive(end.rest, start.rest, s);
    TrimmedLinesAreFlatChildren(lines.value);
    Done(end.rest, Construct(info.value.0, info.value.1, Values(kept)))
  }

  // ---------------------------------------------------------------------
  // A header is a line

  /** Name and value characters are ASCII letters, digits or punctuation
      once truncated to a byte, so none of them breaks a line */
  lemma WordCharOnLine(c: char)
    requires IsNameChar(c) || IsValueChar(c)
    ensures IsLineChar(c)
  {
    AlphanumericByteIsModulo(c as int);
  }

  /** The header's own words and punctuation */
  lemma SymbolsOnLine()
    ensures HasNoLineBreak(":") && HasNoLineBreak(",") && HasNoLineBreak("[") && HasNoLineBreak("]")
    ensures HasNoLineBreak("block")
  {
  }

  lemma NameOnLine(s: string)
    ensures ParseValidName(s).Done? ==> ReadsOnLine(s, ParseValidName(s).rest)
  {
    var name := ParseValidName(s);
    if name.Done? {
      forall i | 0 <= i < |name.value|
        ensures IsLineChar(name.value[i])
      {
        WordCharOnLine(name.value[i]);
      }
      ReadsOnLineAppend(name.value, name.rest);
    }
  }

  lemma ValueOnLine(s: string)
    ensures ParseValueString(s).Done? ==> ReadsOnLine(s, ParseValueString(s).rest)
  {
    var value := ParseValueString(s);
    if value.Done? {
      forall i | 0 <= i < |value.value|
        ensures IsLineChar(value.value[i])
      {
        WordCharOnLine(value.value[i]);
      }
      ReadsOnLineAppend(value.value, value.rest);
    }
  }

  lemma KeyValueOnLine(s: string)
    ensures ParseKeyValue(s).Done? ==> ReadsOnLine(s, ParseKeyValue(s).rest)
  {
    var key := ParseValidName(s);
    if key.Done? {
      var gap := Space0(key.rest);
      var colon := Tag(":", gap.rest);
      if colon.Done? {
        var gap' := Space0(colon.rest);
        var value := ParseValueString(gap'.rest);
        if value.Done? {
          assert ParseKeyValue(s).rest == value.rest;
          NameOnLine(s);
          SymbolsOnLine();
          SpacedTagOnLine(":", key.rest);
          ValueOnLine(gap'.rest);
          ReadsOnLineTransitive(key.rest, gap'.rest, value.rest);
          ReadsOnLineTransitive(s, key.rest, value.rest);
        }
      }
    }
  }

  lemma SeparatorOnLine(s: string)
    ensures Separator(s).Done? ==> ReadsOnLine(s, Separator(s).rest)
  {
    SymbolsOnLine();
    SpacedTagOnLine(",", s);
  }

  lemma {:induction false} MoreKeyValuesOnLine(s: string)
    ensures ReadsOnLine(s, MoreKeyValues(s).rest)
    decreases |s|
  {
    var sep := Separator(s);
    var r := MoreKeyValues(s);
    if r.rest == s {
      ReadsNothingOnLine(s);
    } else {
      var kv := ParseKeyValue(sep.rest);
      SeparatorOnLine(s);
      KeyValueOnLine(sep.rest);
      MoreKeyValuesOnLine(kv.rest);
      ReadsOnLineTransitive(sep.rest, kv.rest, r.rest);
      ReadsOnLineTransitive(s, sep.rest, r.rest);
    }
  }

  lemma SeparatedKeyValuesOnLine(s: string)
    ensures SeparatedKeyValues(s).Done? ==> ReadsOnLine(s, SeparatedKeyValues(s).rest)
  {
    var first := ParseKeyValue(s);
    if first.Done? {
      KeyValueOnLine(s);
      MoreKeyValuesOnLine(first.rest);
      ReadsOnLineTransitive(s, first.rest, MoreKeyValues(first.rest).rest);
    }
  }

  lemma BracketedKeyValuesOnLine(s: string)
    ensures BracketedKeyValues(s).Done? ==> ReadsOnLine(s, BracketedKeyValues(s).rest)
  {
    if BracketedKeyValues(s).Done? {
      var open := Tag("[", s);
      var gap := Space0(open.rest);
      var pairs := SeparatedKeyValues(gap.rest);
      var gap' := Space0(pairs.rest);
      var close := Tag("]", gap'.rest);
      assert BracketedKeyValues(s).rest == close.rest;
      SymbolsOnLine();
      TagOnLine("[", s);
      SpacesOnLine(open.rest);
      SeparatedKeyValuesOnLine(gap.rest);
      SpacesOnLine(pairs.rest);
      TagOnLine("]", gap'.rest);
      ReadsOnLineTransitive(pairs.rest, gap'.rest, close.rest);
      ReadsOnLineTransitive(gap.rest, pairs.rest, close.rest);
      ReadsOnLineTransitive(open.rest, gap.rest, close.rest);
      ReadsOnLineTransitive(s, open.rest, close.rest);
    }
  }

  lemma KeyValueListOnLine(s: string)
    ensures ReadsOnLine(s, ParseKeyValueList(s).rest)
  {
    if BracketedKeyValues(s).Fail? {
      ReadsNothingOnLine(s);
    } else {
      BracketedKeyValuesOnLine(s);
    }
  }

  /** After its indentation, the header info lies on one line */
  lemma ConstructInfoOnLine(level: nat, s: string)
    ensures IndentedParseConstructInfo(level, s).Done?
        ==> Indent(level) <= s && ReadsOnLine(s[2 * level..], IndentedParseConstructInfo(level, s).rest)
  {
    var indent := Indent(level);
    var indentation := Tag(indent, s);
    if IndentedParseConstructInfo(level, s).Done? {
      var keyword := Tag("block", indentation.rest);
      var gap := Space1(keyword.rest);
      var name := ParseValidName(gap.rest);
      var gap' := Space1(name.rest);
      var options := ParseKeyValueList(gap'.rest);
      SymbolsOnLine();
      TagOnLine("block", indentation.rest);
      SpacesOnLine(keyword.rest);
      NameOnLine(gap.rest);
      SpacesOnLine(name.rest);
      KeyValueListOnLine(gap'.rest);
      ReadsOnLineTransitive(name.rest, gap'.rest, options.rest);
      ReadsOnLineTransitive(gap.rest, name.rest, options.rest);
      ReadsOnLineTransitive(keyword.rest, gap.rest, options.rest);
      ReadsOnLineTransitive(indentation.rest, keyword.rest, options.rest);
    }
  }

  /** The start mark ends the line it is on */
  lemma StartMarkOnLine(mark: string, s: string)
    requires HasNoLineBreak(mark)
    ensures CustomParseChildStartMark(mark, s).Done?
        ==> ReadsOnLine(s, "\n" + CustomParseChildStartMark(mark, s).rest)
  {
    var lead := Space0(s);
    var marked := Tag(mark, lead.rest);
    if CustomParseChildStartMark(mark, s).Done? {
      var trail := Space0(marked.rest);
      var nl := Newline(trail.rest);
      assert trail.rest == "\n" + nl.rest;
      SpacedTagOnLine(mark, s);
    }
  }

  /** Whatever a construct parser accepts starts with a line that
      `indented_parse_line` accepts at the same level */
  lemma HeaderIsLine(mark: string, level: nat, s: string)
    requires HasNoLineBreak(mark)
    ensures ParseConstructWithMark(mark, level, s).Done? ==> IndentedParseLine(level, s).Done?
  {
    var info := IndentedParseConstructInfo(level, s);
    if ParseConstructWithMark(mark, level, s).Done? {
      var start := CustomParseChildStartMark(mark, info.rest);
      var t := s[2 * level..];
      ConstructInfoOnLine(level, s);
      StartMarkOnLine(mark, info.rest);
      ReadsOnLineTransitive(t, info.rest, "\n" + start.rest);
      NoLoneCarriageReturn(t[..|t| - |"\n" + start.rest|], start.rest);
    }
  }

  /** A start mark `=` followed by spaces and a newline is not `=*` */
  lemma StartMarksExclusive(s: string)
    ensures CustomParseChildStartMark("=", s).Done? ==> CustomParseChildStartMark("=*", s).Fail?
  {
    var lead := Space0(s);
    var marked := Tag("=", lead.rest);
    if marked.Done? && Tag("=*", lead.rest).Done? {
      assert marked.rest[0] == '*';
    }
  }

  /** Both construct parsers read the same header info, and a start mark
      `=` followed by spaces and a newline is not `=*` */
  lemma ConstructMarksExclusive(level: nat, s: string)
    ensures ParseConstructWithMark("=", level, s).Done? ==> ParseConstructWithMark("=*", level, s).Fail?
  {
    var info := IndentedParseConstructInfo(level, s);
    if info.Done? {
      StartMarksExclusive(info.rest);
    }
  }

  /** `indented_parse_construct(level)`: a header ending in `=`, then its
      child lines; a text it reads is never one the `=*` parser reads */
  function IndentedParseConstruct(level: nat, s: string): (r: ParseResult<Block>)
    ensures r.Done? ==> IsWellFormed(r.value) && IsSuffix(r.rest, s) && |r.rest| < |s|
    ensures r.Done? ==> IndentedParseBlockWithChildAsBlock(level, s).Fail?
  {
    ConstructMarksExclusive(level, s);
    ParseConstructWithMark("=", level, s)
  }

  /** `indented_parse_block_with_child_as_block(level)`: a header ending in
      `=*`, then its child lines; its header is always a line that
      `indented_parse_line` reads at the same level */
  function IndentedParseBlockWithChildAsBlock(level: nat, s: string): (r: ParseResult<Block>)
    ensures r.Done? ==> IsWellFormed(r.value) && IsSuffix(r.rest, s) && |r.rest| < |s|
    ensures r.Done? ==> IndentedParseLine(level, s).Done?
  {
    HeaderIsLine("=*", level, s);
    ParseConstructWithMark("=*", level, s)
  }

  /** `indented_parse_blocks(level)`, that is `many0(indented_parse_construct(level))` */
  function IndentedParseBlocks(level: nat, s: string): (r: ParseResult<seq<Block>>)
    decreases |s|
    ensures r.Done? && IsSuffix(r.rest, s)
    ensures r.value == [] <==> r.rest == s
    ensures r.value == [] <==> IndentedParseConstruct(level, s).Fail?
    ensures IndentedParseConstruct(level, r.rest).Fail?
    ensures AreWellFormed(r.value)
  {
    var block := IndentedParseConstruct(level, s);
    if block.Fail? then Done(s, [])
    // nom's many0 refuses an item that consumes nothing
    else if |block.rest| == |s| then Fail
    else
      var more := IndentedParseBlocks(level, block.rest);
      if more.Fail? then Fail else
      SuffixTransitive(more.rest, block.rest, s);
      WellFormedCons(block.value, more.value);
      Done(more.rest, [block.value] + more.value)
  }

  /** `indented_block(level)`: a line of that indentation as a value, or
      else a block whose header ends in `=*`.  Every such header is itself
      a line of that indentation, so the second alternative never succeeds:
      `indented_block` reads exactly the lines, as values. */
  function IndentedBlock(level: nat, s: string): (r: ParseResult<Block>)
    ensures r.Done? <==> IndentedParseLine(level, s).Done?
    ensures r.Done? ==> r == Done(IndentedParseLine(level, s).rest, Value(IndentedParseLine(level, s).value))
  {
    var line := IndentedParseLine(level, s);
    if line.Done? then Done(line.rest, Value(line.value))
    else IndentedParseBlockWithChildAsBlock(level, s)
  }
}
