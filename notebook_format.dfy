/**
 * The notebook text written out from blocks, and the round trips that tie
 * each parser of NotebookParser to it: whatever is written in the
 * documented syntax is read back exactly.
 */
module NotebookFormat {
  import opened Nom
  import opened NotebookParser

  // ---------------------------------------------------------------------
  // Writing

  /** `key: value` */
  function RenderKeyValue(kv: KeyValue): (s: string) {
    kv.0 + (":" + (" " + kv.1))
  }

  /** `, key: value` for each pair */
  function RenderMoreKeyValues(kvs: seq<KeyValue>): (s: string) {
    if kvs == [] then [] else "," + (" " + (RenderKeyValue(kvs[0]) + RenderMoreKeyValues(kvs[1..])))
  }

  /** The pairs, separated by `, ` */
  function RenderKeyValues(kvs: seq<KeyValue>): (s: string)
    requires kvs != []
  {
    RenderKeyValue(kvs[0]) + RenderMoreKeyValues(kvs[1..])
  }

  /** `[k: v, ...] ` in a header, or nothing when there is no option */
  function RenderOptions(kvs: seq<KeyValue>): (s: string) {
    if kvs == [] then [] else "[" + (RenderKeyValues(kvs) + ("]" + " "))
  }

  /** `block <name> [k: v, ...] <mark>` and a newline, at `level` */
  function RenderHeader(level: nat, mark: string, name: string, options: seq<KeyValue>): (s: string) {
    Indent(level) + ("block" + (" " + (name + (" " + (RenderOptions(options) + (mark + "\n"))))))
  }

  /** Each line at `level`, ended by a newline */
  function RenderLines(level: nat, lines: seq<string>): (s: string) {
    if lines == [] then [] else Indent(level) + (lines[0] + ("\n" + RenderLines(level, lines[1..])))
  }

  /** A construct as the parsers accept it: its children are plain lines,
      possibly with empty lines at the end */
  predicate IsSourceConstruct(b: Block) {
    && b.Construct? && IsName(b.name) && AreKeyValues(b.options)
    && forall i :: 0 <= i < |b.childs| ==> b.childs[i].Value? && HasNoLineBreak(b.childs[i].text)
  }

  predicate AreSourceConstructs(bs: seq<Block>) {
    forall i :: 0 <= i < |bs| ==> IsSourceConstruct(bs[i])
  }

  function Texts(childs: seq<Block>): (lines: seq<string>)
    requires forall i :: 0 <= i < |childs| ==> childs[i].Value?
    ensures |lines| == |childs| && forall i :: 0 <= i < |childs| ==> childs[i] == Value(lines[i])
  {
    seq(|childs|, i requires 0 <= i < |childs| => childs[i].text)
  }

  /** A construct written with the `=` mark at `level` */
  function RenderBlock(level: nat, b: Block): (s: string)
    requires IsSourceConstruct(b)
  {
    RenderHeader(level, "=", b.name, b.options) + RenderLines(level + 1, Texts(b.childs))
  }

  function RenderBlocks(level: nat, bs: seq<Block>): (s: string)
    requires AreSourceConstructs(bs)
  {
    if bs == [] then [] else RenderBlock(level, bs[0]) + RenderBlocks(level, bs[1..])
  }

  /** The construct that reading a written construct gives back: its
      trailing empty lines are dropped */
  function Normalize(b: Block): (r: Block)
    requires IsSourceConstruct(b)
  {
    Construct(b.name, b.options, Values(TrimEmptyStringsAtVecEnd(Texts(b.childs))))
  }

  function NormalizeAll(bs: seq<Block>): (r: seq<Block>)
    requires AreSourceConstructs(bs)
    ensures |r| == |bs| && forall i :: 0 <= i < |bs| ==> r[i] == Normalize(bs[i])
  {
    if bs == [] then [] else [Normalize(bs[0])] + NormalizeAll(bs[1..])
  }

  // ---------------------------------------------------------------------
  // Character facts

  lemma SeparatorsAreNotWordChars()
    ensures !IsNameChar(':') && !IsValueChar(':') && !IsSpace(':')
    ensures !IsNameChar(',') && !IsValueChar(',') && !IsSpace(',')
    ensures !IsNameChar(']') && !IsValueChar(']') && !IsSpace(']')
    ensures !IsNameChar(' ') && !IsValueChar(' ') && !IsNameChar('\t') && !IsValueChar('\t')
    ensures !IsNameChar('[') && !IsSpace('[') && !IsSpace('=') && !IsSpace('\n')
  {
  }

  lemma NameCharsAreValueChars(w: string)
    requires IsName(w)
    ensures IsValueString(w)
  {
  }

  /** A header at `level` does not start with the indentation of `level + 1` */
  lemma NotIndentedDeeper(level: nat, t: string)
    requires t != [] && t[0] != ' '
    ensures !(Indent(level + 1) <= Indent(level) + t)
  {
    assert (Indent(level) + t)[2 * level] == t[0];
  }

  // ---------------------------------------------------------------------
  // Round trips

  lemma KeyValueStep(s: string, s1: string, s2: string, s3: string, s4: string, rest: string,
                     kv: KeyValue, gap: string, gap': string)
    requires ParseValidName(s) == Done(s1, kv.0) && Space0(s1) == Done(s2, gap)
    requires Tag(":", s2) == Done(s3, ":") && Space0(s3) == Done(s4, gap')
    requires ParseValueString(s4) == Done(rest, kv.1)
    ensures ParseKeyValue(s) == Done(rest, kv)
  {
  }

  /** A name followed by spaces and a colon is read up to the spaces */
  lemma NameBeforeColon(name: string, gap: string, rest: string)
    requires IsName(name) && IsSpaces(gap)
    ensures ParseValidName(name + (gap + (":" + rest))) == Done(gap + (":" + rest), name)
  {
    var t := gap + (":" + rest);
    assert t[0] == ':' || IsSpace(t[0]);
    assert !IsNameChar(':') && !IsNameChar(' ') && !IsNameChar('\t');
    TakeWhile1Exact(IsNameChar, name, t);
  }

  lemma ValueBeforeEnd(value: string, rest: string)
    requires IsValueString(value)
    requires rest == [] || !IsValueChar(rest[0])
    ensures ParseValueString(value + rest) == Done(rest, value)
  {
    TakeWhile1Exact(IsValueChar, value, rest);
  }

  lemma WordCharsAreNotSpaces(c: char)
    ensures IsNameChar(c) || IsValueChar(c) ==> !IsSpace(c)
  {
  }

  /** `parse_key_value` reads a name, optional spaces, a colon, optional
      spaces and a value, and stops where the value ends. */
  lemma KeyValueRoundTrip(kv: KeyValue, gap: string, gap': string, rest: string)
    requires IsKeyValue(kv) && IsSpaces(gap) && IsSpaces(gap')
    requires rest == [] || !IsValueChar(rest[0])
    ensures ParseKeyValue(kv.0 + (gap + (":" + (gap' + (kv.1 + rest))))) == Done(rest, kv)
  {
    var s3 := gap' + (kv.1 + rest);
    NameBeforeColon(kv.0, gap, s3);
    assert !IsSpace(':');
    Space0Then(gap, ":", s3);
    TagPrefix(":", s3);
    WordCharsAreNotSpaces(kv.1[0]);
    Space0Then(gap', kv.1, rest);
    ValueBeforeEnd(kv.1, rest);
    KeyValueStep(kv.0 + (gap + (":" + s3)), gap + (":" + s3), ":" + s3, s3, kv.1 + rest, rest, kv, gap, gap');
  }

  /** The written form `key: value` */
  lemma RenderedKeyValueRoundTrip(kv: KeyValue, rest: string)
    requires IsKeyValue(kv)
    requires rest == [] || !IsValueChar(rest[0])
    ensures ParseKeyValue(RenderKeyValue(kv) + rest) == Done(rest, kv)
  {
    AppendAssoc(kv.0, ":" + (" " + kv.1), rest);
    AppendAssoc(":", " " + kv.1, rest);
    AppendAssoc(" ", kv.1, rest);
    assert [] + (":" + (" " + (kv.1 + rest))) == ":" + (" " + (kv.1 + rest));
    KeyValueRoundTrip(kv, [], " ", rest);
  }

  /** What follows a pair in a written list starts with `,` or `]` */
  lemma AfterPair(kvs: seq<KeyValue>, rest: string)
    requires "]" <= rest
    ensures var t := RenderMoreKeyValues(kvs) + rest; t != [] && !IsValueChar(t[0]) && !IsSpace(t[0])
    ensures kvs == [] ==> RenderMoreKeyValues(kvs) + rest == rest
  {
    assert !IsValueChar(',') && !IsValueChar(']') && !IsSpace(',') && !IsSpace(']');
    if kvs != [] {
      assert (RenderMoreKeyValues(kvs) + rest)[0] == ',';
    } else {
      assert [] + rest == rest;
    }
  }

  lemma ConsSplit<T>(xs: seq<T>)
    requires xs != []
    ensures [xs[0]] + xs[1..] == xs
  {
  }

  /** One step of the loop after the first pair: a separator, a pair, and the rest */
  lemma MoreKeyValuesStep(s: string, t: string, kv: KeyValue, after: string, kvs: seq<KeyValue>, rest: string)
    requires Separator(s) == Done(t, ",") && ParseKeyValue(t) == Done(after, kv)
    requires MoreKeyValues(after) == Done(rest, kvs)
    ensures MoreKeyValues(s) == Done(rest, [kv] + kvs)
  {
  }

  /** The written form of a pair starts with a name character */
  lemma PairStart(kv: KeyValue, rest: string)
    requires IsKeyValue(kv)
    ensures var t := RenderKeyValue(kv) + rest; t != [] && t[0] == kv.0[0] && !IsSpace(t[0])
  {
    assert (RenderKeyValue(kv) + rest)[0] == kv.0[0];
  }

  /** The written pairs after the first, followed by `rest`, as the
      pieces the separator and the pair parser read */
  lemma MorePieces(kvs: seq<KeyValue>, rest: string)
    requires kvs != []
    ensures RenderMoreKeyValues(kvs) + rest
         == "," + (" " + (RenderKeyValue(kvs[0]) + (RenderMoreKeyValues(kvs[1..]) + rest)))
  {
    var text := RenderKeyValue(kvs[0]);
    var tail := RenderMoreKeyValues(kvs[1..]);
    AppendAssoc(",", " " + (text + tail), rest);
    AppendAssoc(" ", text + tail, rest);
    AppendAssoc(text, tail, rest);
  }

  /** `, ` before a written pair is one separator */
  lemma SeparatorBeforePair(kv: KeyValue, after: string)
    requires IsKeyValue(kv)
    ensures Separator("," + (" " + (RenderKeyValue(kv) + after))) == Done(RenderKeyValue(kv) + after, ",")
  {
    var t := RenderKeyValue(kv) + after;
    var s := "," + (" " + t);
    assert !IsSpace(',');
    Space0Before(",", " " + t);
    TagPrefix(",", " " + t);
    PairStart(kv, after);
    Space0Exact(" ", t);
  }

  /** The loop after the first pair stops before `]` */
  lemma NoMoreKeyValues(rest: string)
    requires "]" <= rest
    ensures MoreKeyValues(RenderMoreKeyValues([]) + rest) == Done(rest, [])
  {
    assert [] + rest == rest;
    assert !IsSpace(']');
    Space0None(rest);
    assert Separator(rest).Fail?;
  }

  /** One more written pair is read by one more turn of the loop */
  lemma MoreKeyValuesCons(kvs: seq<KeyValue>, rest: string)
    requires kvs != [] && AreKeyValues(kvs) && "]" <= rest
    requires MoreKeyValues(RenderMoreKeyValues(kvs[1..]) + rest) == Done(rest, kvs[1..])
    ensures MoreKeyValues(RenderMoreKeyValues(kvs) + rest) == Done(rest, kvs)
  {
    var text := RenderKeyValue(kvs[0]);
    var after := RenderMoreKeyValues(kvs[1..]) + rest;
    MorePieces(kvs, rest);
    SeparatorBeforePair(kvs[0], after);
    AfterPair(kvs[1..], rest);
    RenderedKeyValueRoundTrip(kvs[0], after);
    MoreKeyValuesStep(RenderMoreKeyValues(kvs) + rest, text + after, kvs[0], after, kvs[1..], rest);
    ConsSplit(kvs);
  }

  lemma {:induction false} MoreKeyValuesRoundTrip(kvs: seq<KeyValue>, rest: string)
    requires AreKeyValues(kvs) && "]" <= rest
    ensures MoreKeyValues(RenderMoreKeyValues(kvs) + rest) == Done(rest, kvs)
  {
    if kvs == [] {
      NoMoreKeyValues(rest);
    } else {
      MoreKeyValuesRoundTrip(kvs[1..], rest);
      MoreKeyValuesCons(kvs, rest);
    }
  }

  lemma SeparatedKeyValuesStep(s: string, kv: KeyValue, after: string, kvs: seq<KeyValue>, rest: string)
    requires ParseKeyValue(s) == Done(after, kv) && MoreKeyValues(after) == Done(rest, kvs)
    ensures SeparatedKeyValues(s) == Done(rest, [kv] + kvs)
  {
  }

  /** The bracketed list, read piece by piece */
  lemma BracketedPieces(s: string, t: string, u: string, v: string, w: string, rest: string,
                        gap: string, gap': string, kvs: seq<KeyValue>)
    requires Tag("[", s) == Done(t, "[") && Space0(t) == Done(u, gap)
    requires SeparatedKeyValues(u) == Done(v, kvs)
    requires Space0(v) == Done(w, gap') && Tag("]", w) == Done(rest, "]")
    ensures ParseKeyValueList(s) == Done(rest, kvs)
  {
  }

  lemma KeyValueListStep(s: string, kvs: seq<KeyValue>, rest: string)
    requires SeparatedKeyValues(s) == Done("]" + rest, kvs)
    requires Space0(s) == Done(s, [])
    ensures ParseKeyValueList("[" + s) == Done(rest, kvs)
  {
    OpeningBracket(s);
    ClosingBracket(rest);
    BracketedPieces("[" + s, s, s, "]" + rest, "]" + rest, rest, [], [], kvs);
  }

  lemma OpeningBracket(s: string)
    ensures Tag("[", "[" + s) == Done(s, "[")
  {
    TagPrefix("[", s);
  }

  lemma ClosingBracket(rest: string)
    ensures Space0("]" + rest) == Done("]" + rest, [])
    ensures Tag("]", "]" + rest) == Done(rest, "]")
  {
    TagPrefix("]", rest);
    Space0Before("]", rest);
  }

  /** `separated_list1(separator, parse_key_value)` reads back the written
      pairs and stops before `]` */
  lemma SeparatedKeyValuesRoundTrip(kvs: seq<KeyValue>, closing: string)
    requires kvs != [] && AreKeyValues(kvs) && "]" <= closing
    ensures SeparatedKeyValues(RenderKeyValues(kvs) + closing) == Done(closing, kvs)
  {
    var text := RenderKeyValue(kvs[0]);
    var more := RenderMoreKeyValues(kvs[1..]);
    AppendAssoc(text, more, closing);
    AfterPair(kvs[1..], closing);
    RenderedKeyValueRoundTrip(kvs[0], more + closing);
    MoreKeyValuesRoundTrip(kvs[1..], closing);
    SeparatedKeyValuesStep(text + (more + closing), kvs[0], more + closing, kvs[1..], closing);
    ConsSplit(kvs);
  }

  /** Written pairs start with a name character, which is not a space */
  lemma RenderedKeyValuesStart(kvs: seq<KeyValue>)
    requires kvs != [] && AreKeyValues(kvs)
    ensures var t := RenderKeyValues(kvs); t != [] && !IsSpace(t[0])
  {
    PairStart(kvs[0], RenderMoreKeyValues(kvs[1..]));
  }

  /** Brackets around any pair list `separated_list1` accepts */
  lemma BracketedStep(body: string, rest: string, kvs: seq<KeyValue>)
    requires body != [] && !IsSpace(body[0])
    requires SeparatedKeyValues(body + ("]" + rest)) == Done("]" + rest, kvs)
    ensures ParseKeyValueList("[" + (body + ("]" + rest))) == Done(rest, kvs)
  {
    Space0Before(body, "]" + rest);
    KeyValueListStep(body + ("]" + rest), kvs, rest);
  }

  /** `parse_key_value_list` reads back a written option list, whatever follows it. */
  lemma KeyValueListRoundTrip(kvs: seq<KeyValue>, rest: string)
    requires kvs != [] && AreKeyValues(kvs)
    ensures ParseKeyValueList("[" + (RenderKeyValues(kvs) + ("]" + rest))) == Done(rest, kvs)
  {
    SeparatedKeyValuesRoundTrip(kvs, "]" + rest);
    RenderedKeyValuesStart(kvs);
    BracketedStep(RenderKeyValues(kvs), rest, kvs);
  }

  /** `indented_parse_line(level)` reads back a line written at `level`,
      with its line ending or at the end of the input. */
  lemma LineRoundTrip(level: nat, line: string, ending: string, rest: string)
    requires HasNoLineBreak(line)
    requires ending == "\n" || ending == "\r\n" || (ending == [] && rest == [])
    ensures IndentedParseLine(level, Indent(level) + (line + (ending + rest))) == Done(rest, line)
  {
    TagPrefix(Indent(level), line + (ending + rest));
    NotLineEndingExact(line, ending + rest);
    if ending == "\n" {
      assert LineEnding(ending + rest) == Done(rest, "\n");
    } else if ending == "\r\n" {
      assert LineEnding(ending + rest) == Done(rest, "\r\n");
    } else {
      assert LineEnding(ending + rest).Fail?;
    }
  }

  lemma ManyLinesStep(level: nat, s: string, line: string, after: string, lines: seq<string>, rest: string)
    requires level > 0
    requires IndentedParseLine(level, s) == Done(after, line) && ManyLines(level, after) == Done(rest, lines)
    ensures ManyLines(level, s) == Done(rest, [line] + lines)
  {
  }

  /** Nothing written: reading stops at once */
  lemma NoMoreLines(level: nat, rest: string)
    requires level > 0 && !(Indent(level) <= rest)
    ensures ManyLines(level, RenderLines(level, []) + rest) == Done(rest, [])
  {
    assert [] + rest == rest;
    assert IndentedParseLine(level, rest).Fail?;
  }

  /** The first written line, followed by the others and `rest`, as the
      pieces the line parser reads */
  lemma LinePieces(level: nat, lines: seq<string>, rest: string)
    requires lines != []
    ensures RenderLines(level, lines) + rest
         == Indent(level) + (lines[0] + ("\n" + (RenderLines(level, lines[1..]) + rest)))
  {
    var tail := RenderLines(level, lines[1..]);
    AppendAssoc(Indent(level), lines[0] + ("\n" + tail), rest);
    AppendAssoc(lines[0], "\n" + tail, rest);
    AppendAssoc("\n", tail, rest);
  }

  /** One more written line in front of lines that are read back */
  lemma LinesRoundTripCons(level: nat, lines: seq<string>, rest: string)
    requires level > 0 && lines != [] && AreLines(lines)
    requires ManyLines(level, RenderLines(level, lines[1..]) + rest) == Done(rest, lines[1..])
    ensures ManyLines(level, RenderLines(level, lines) + rest) == Done(rest, lines)
  {
    var after := RenderLines(level, lines[1..]) + rest;
    LinePieces(level, lines, rest);
    LineRoundTrip(level, lines[0], "\n", after);
    ManyLinesStep(level, RenderLines(level, lines) + rest, lines[0], after, lines[1..], rest);
    ConsSplit(lines);
  }

  /** `many0(indented_parse_line(level))` reads back every line written at
      `level`, and stops where the indentation stops. */
  lemma {:induction false} LinesRoundTrip(level: nat, lines: seq<string>, rest: string)
    requires level > 0 && AreLines(lines)
    requires !(Indent(level) <= rest)
    ensures ManyLines(level, RenderLines(level, lines) + rest) == Done(rest, lines)
  {
    if lines == [] {
      NoMoreLines(level, rest);
    } else {
      LinesRoundTrip(level, lines[1..], rest);
      LinesRoundTripCons(level, lines, rest);
    }
  }

  /** A written header followed by `body`, as the pieces the header parser reads */
  lemma HeaderPieces(level: nat, mark: string, name: string, options: seq<KeyValue>, body: string)
    ensures RenderHeader(level, mark, name, options) + body
         == Indent(level) + ("block" + (" " + (name + (" " + (RenderOptions(options) + (mark + ("\n" + body)))))))
  {
    var h5 := RenderOptions(options) + (mark + "\n");
    var h4 := " " + h5;
    var h3 := name + h4;
    var h2 := " " + h3;
    var h1 := "block" + h2;
    AppendAssoc(Indent(level), h1, body);
    AppendAssoc("block", h2, body);
    AppendAssoc(" ", h3, body);
    AppendAssoc(name, h4, body);
    AppendAssoc(" ", h5, body);
    AppendAssoc(RenderOptions(options), mark + "\n", body);
    AppendAssoc(mark, "\n", body);
  }

  lemma ConstructInfoStep(level: nat, s1: string, s2: string, name: string, s3: string,
                          s4: string, options: seq<KeyValue>, tail: string, gap: string, gap': string)
    requires Space1(s1) == Done(s2, gap) && ParseValidName(s2) == Done(s3, name)
    requires Space1(s3) == Done(s4, gap') && ParseKeyValueList(s4) == Done(tail, options)
    ensures IndentedParseConstructInfo(level, Indent(level) + ("block" + s1)) == Done(tail, (name, options))
  {
    TagPrefix(Indent(level), "block" + s1);
    TagPrefix("block", s1);
  }

  /** `indented_parse_construct_info(level)` reads back a written header and
      leaves its mark unread. */
  lemma HeaderInfoRoundTrip(level: nat, mark: string, name: string, options: seq<KeyValue>, body: string)
    requires mark == "=" || mark == "=*"
    requires IsName(name) && AreKeyValues(options)
    ensures var gap := if options == [] then "" else " ";
      IndentedParseConstructInfo(level, RenderHeader(level, mark, name, options) + body)
        == Done(gap + (mark + ("\n" + body)), (name, options))
  {
    var gap := if options == [] then "" else " ";
    var marked := mark + ("\n" + body);
    var tail := gap + marked;
    var s4 := RenderOptions(options) + marked;
    var s3 := " " + s4;
    var s2 := name + s3;
    var s1 := " " + s2;
    var s0 := "block" + s1;
    var s := RenderHeader(level, mark, name, options) + body;
    HeaderPieces(level, mark, name, options, body);
    assert IsSpaces(" ") && !IsSpace(name[0]);
    TakeWhile1Exact(IsSpace, " ", s2);
    assert !IsNameChar(' ') && !IsSpace('[') && !IsSpace('=');
    TakeWhile1Exact(IsNameChar, name, s3);
    if options == [] {
      assert s4 == marked;
      TakeWhile1Exact(IsSpace, " ", s4);
      assert !("[" <= s4);
      assert BracketedKeyValues(s4).Fail?;
      assert ParseKeyValueList(s4) == Done(tail, []);
    } else {
      var closing := " " + marked;
      AppendAssoc("[", RenderKeyValues(options) + ("]" + " "), marked);
      AppendAssoc(RenderKeyValues(options), "]" + " ", marked);
      AppendAssoc("]", " ", marked);
      assert s4 == "[" + (RenderKeyValues(options) + ("]" + closing));
      TakeWhile1Exact(IsSpace, " ", s4);
      KeyValueListRoundTrip(options, closing);
    }
    ConstructInfoStep(level, s1, s2, name, s3, s4, options, tail, " ", " ");
  }

  /** `custom_parse_child_start_mark(mark)` reads optional spaces, the mark,
      optional spaces and the newline. */
  lemma StartMarkRoundTrip(mark: string, gap: string, gap': string, body: string)
    requires mark == "=" || mark == "=*"
    requires IsSpaces(gap) && IsSpaces(gap')
    ensures CustomParseChildStartMark(mark, gap + (mark + (gap' + ("\n" + body)))) == Done(body, ())
  {
    Space0Exact(gap, mark + (gap' + ("\n" + body)));
    TagPrefix(mark, gap' + ("\n" + body));
    Space0Exact(gap', "\n" + body);
    assert Newline("\n" + body) == Done(body, '\n');
  }

  /** The mark `=` is refused where `=*` is written, and the other way round. */
  lemma StartMarkMismatch(gap: string, body: string)
    requires IsSpaces(gap)
    ensures CustomParseChildStartMark("=", gap + ("=*" + ("\n" + body))).Fail?
    ensures CustomParseChildStartMark("=*", gap + ("=" + ("\n" + body))).Fail?
  {
    assert "=*" + ("\n" + body) == "=" + ("*\n" + body);
    Space0Exact(gap, "=" + ("*\n" + body));
    TagPrefix("=", "*\n" + body);
    Space0Exact([], "*\n" + body);
    assert Newline("*\n" + body).Fail?;
    Space0Exact(gap, "=" + ("\n" + body));
    assert !("=*" <= "=" + ("\n" + body));
  }

  lemma ConstructStep(mark: string, level: nat, s: string, t: string, body: string,
                      name: string, options: seq<KeyValue>, lines: seq<string>, rest: string)
    requires IndentedParseConstructInfo(level, s) == Done(t, (name, options))
    requires CustomParseChildStartMark(mark, t) == Done(body, ())
    requires ManyLines(level + 1, body) == Done(rest, lines)
    ensures ParseConstructWithMark(mark, level, s) == Done(rest, Construct(name, options, Values(TrimEmptyStringsAtVecEnd(lines))))
  {
  }

  /** The child lines of a construct at `level`, written one level deeper */
  lemma ChildLinesRoundTrip(level: nat, lines: seq<string>, rest: string)
    requires AreLines(lines) && !(Indent(level + 1) <= rest)
    ensures ManyLines(level + 1, RenderLines(level + 1, lines) + rest) == Done(rest, lines)
  {
    LinesRoundTrip(level + 1, lines, rest);
  }

  /** The start mark is read after the options, or straight after the name */
  lemma StartMarkAfterOptions(mark: string, options: seq<KeyValue>, body: string)
    requires mark == "=" || mark == "=*"
    ensures var t := (if options == [] then "" else " ") + (mark + ("\n" + body));
      CustomParseChildStartMark(mark, t) == Done(body, ())
  {
    var gap := if options == [] then "" else " ";
    assert IsSpaces(gap);
    assert mark + ([] + ("\n" + body)) == mark + ("\n" + body);
    StartMarkRoundTrip(mark, gap, [], body);
  }

  /** The header parsers leave the child lines of a written header */
  lemma HeaderRead(mark: string, level: nat, name: string, options: seq<KeyValue>, body: string)
    requires mark == "=" || mark == "=*"
    requires IsName(name) && AreKeyValues(options)
    ensures var t := (if options == [] then "" else " ") + (mark + ("\n" + body));
      && IndentedParseConstructInfo(level, RenderHeader(level, mark, name, options) + body) == Done(t, (name, options))
      && CustomParseChildStartMark(mark, t) == Done(body, ())
  {
    HeaderInfoRoundTrip(level, mark, name, options, body);
    StartMarkAfterOptions(mark, options, body);
  }

  /** A written header followed by child lines that are read up to `rest` */
  lemma HeaderThenLines(mark: string, level: nat, name: string, options: seq<KeyValue>,
                        body: string, lines: seq<string>, rest: string)
    requires mark == "=" || mark == "=*"
    requires IsName(name) && AreKeyValues(options)
    requires ManyLines(level + 1, body) == Done(rest, lines)
    ensures ParseConstructWithMark(mark, level, RenderHeader(level, mark, name, options) + body)
         == Done(rest, Construct(name, options, Values(TrimEmptyStringsAtVecEnd(lines))))
  {
    var t := (if options == [] then "" else " ") + (mark + ("\n" + body));
    HeaderRead(mark, level, name, options, body);
    ConstructStep(mark, level, RenderHeader(level, mark, name, options) + body, t, body, name, options, lines, rest);
  }

  /** A written construct is read back with its trailing empty lines
      dropped, and reading stops at the first line that is not indented one
      level deeper. */
  lemma ConstructRoundTrip(mark: string, level: nat, name: string, options: seq<KeyValue>,
                           lines: seq<string>, rest: string)
    requires mark == "=" || mark == "=*"
    requires IsName(name) && AreKeyValues(options) && AreLines(lines)
    requires !(Indent(level + 1) <= rest)
    ensures ParseConstructWithMark(mark, level, RenderHeader(level, mark, name, options) + (RenderLines(level + 1, lines) + rest))
         == Done(rest, Construct(name, options, Values(TrimEmptyStringsAtVecEnd(lines))))
  {
    ChildLinesRoundTrip(level, lines, rest);
    HeaderThenLines(mark, level, name, options, RenderLines(level + 1, lines) + rest, lines, rest);
  }

  /** A header whose mark is not the one the parser asks for is refused. */
  lemma ConstructMarkMismatch(level: nat, name: string, options: seq<KeyValue>, body: string)
    requires IsName(name) && AreKeyValues(options)
    ensures ParseConstructWithMark("=", level, RenderHeader(level, "=*", name, options) + body).Fail?
    ensures ParseConstructWithMark("=*", level, RenderHeader(level, "=", name, options) + body).Fail?
  {
    var gap := if options == [] then "" else " ";
    assert IsSpaces(gap);
    HeaderInfoRoundTrip(level, "=*", name, options, body);
    HeaderInfoRoundTrip(level, "=", name, options, body);
    StartMarkMismatch(gap, body);
  }

  lemma SourceConstructsTail(bs: seq<Block>)
    requires bs != [] && AreSourceConstructs(bs)
    ensures IsSourceConstruct(bs[0]) && AreSourceConstructs(bs[1..])
  {
  }

  /** A written header is not a line of the next level */
  lemma HeaderNotIndentedDeeper(level: nat, mark: string, name: string, options: seq<KeyValue>, t: string)
    ensures !(Indent(level + 1) <= RenderHeader(level, mark, name, options) + t)
  {
    var h1 := "block" + (" " + (name + (" " + (RenderOptions(options) + (mark + "\n")))));
    AppendAssoc(Indent(level), h1, t);
    assert (h1 + t)[0] == 'b';
    NotIndentedDeeper(level, h1 + t);
  }

  /** A written construct, followed by `rest`, as the pieces the construct
      parser reads */
  lemma BlockPieces(level: nat, bs: seq<Block>, rest: string)
    requires bs != [] && AreSourceConstructs(bs)
    ensures IsSourceConstruct(bs[0]) && AreSourceConstructs(bs[1..])
    ensures RenderBlocks(level, bs) + rest
         == RenderHeader(level, "=", bs[0].name, bs[0].options)
            + (RenderLines(level + 1, Texts(bs[0].childs)) + (RenderBlocks(level, bs[1..]) + rest))
  {
    SourceConstructsTail(bs);
    AppendAssoc(RenderBlock(level, bs[0]), RenderBlocks(level, bs[1..]), rest);
    AppendAssoc(RenderHeader(level, "=", bs[0].name, bs[0].options), RenderLines(level + 1, Texts(bs[0].childs)),
                RenderBlocks(level, bs[1..]) + rest);
  }

  /** What follows a construct is never a line of its children: either
      another header or `rest` */
  lemma BlocksNotIndentedDeeper(level: nat, bs: seq<Block>, rest: string)
    requires AreSourceConstructs(bs) && !(Indent(level + 1) <= rest)
    ensures !(Indent(level + 1) <= RenderBlocks(level, bs) + rest)
  {
    if bs == [] {
      assert [] + rest == rest;
    } else {
      BlockPieces(level, bs, rest);
      var b := bs[0];
      HeaderNotIndentedDeeper(level, "=", b.name, b.options,
        RenderLines(level + 1, Texts(b.childs)) + (RenderBlocks(level, bs[1..]) + rest));
    }
  }

  /** Nothing written: reading stops at once */
  lemma NoMoreBlocks(level: nat, rest: string)
    requires !(Indent(level) + "block" <= rest)
    ensures IndentedParseBlocks(level, RenderBlocks(level, []) + rest) == Done(rest, [])
  {
    assert [] + rest == rest;
    assert IndentedParseConstruct(level, rest).Fail?;
  }

  lemma BlocksStep(level: nat, s: string, b: Block, after: string, more: seq<Block>, rest: string)
    requires IndentedParseConstruct(level, s) == Done(after, b)
    requires IndentedParseBlocks(level, after) == Done(rest, more)
    ensures IndentedParseBlocks(level, s) == Done(rest, [b] + more)
  {
  }

  /** One more written construct in front of constructs that are read back */
  lemma BlocksCons(level: nat, bs: seq<Block>, rest: string)
    requires bs != [] && AreSourceConstructs(bs)
    requires !(Indent(level + 1) <= rest)
    requires IndentedParseBlocks(level, RenderBlocks(level, bs[1..]) + rest) == Done(rest, NormalizeAll(bs[1..]))
    ensures IndentedParseBlocks(level, RenderBlocks(level, bs) + rest) == Done(rest, NormalizeAll(bs))
  {
    BlockPieces(level, bs, rest);
    var b := bs[0];
    var after := RenderBlocks(level, bs[1..]) + rest;
    BlocksNotIndentedDeeper(level, bs[1..], rest);
    ConstructRoundTrip("=", level, b.name, b.options, Texts(b.childs), after);
    BlocksStep(level, RenderBlocks(level, bs) + rest, Normalize(b), after, NormalizeAll(bs[1..]), rest);
  }

  /** `indented_parse_blocks(level)` reads back every construct written one
      after the other, each with its trailing empty lines dropped. */
  lemma {:induction false} BlocksRoundTrip(level: nat, bs: seq<Block>, rest: string)
    requires AreSourceConstructs(bs)
    requires !(Indent(level + 1) <= rest) && !(Indent(level) + "block" <= rest)
    ensures IndentedParseBlocks(level, RenderBlocks(level, bs) + rest) == Done(rest, NormalizeAll(bs))
  {
    if bs == [] {
      NoMoreBlocks(level, rest);
    } else {
      SourceConstructsTail(bs);
      BlocksRoundTrip(level, bs[1..], rest);
      BlocksCons(level, bs, rest);
    }
  }
}
