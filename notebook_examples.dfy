/**
 * The inputs of the parser's unit tests, and what each parser yields on
 * them, derived from the round trips and the parsers' contracts.  A test's
 * multi-line input is written as `Text` of its lines.
 */
module NotebookExamples {
  import opened Nom
  import opened NotebookParser
  import opened NotebookFormat
  import opened NotebookSpacing

  // ---------------------------------------------------------------------
  // Test inputs as lines

  /** Each line followed by a newline, as an `indoc!` block of the tests */
  function Text(lines: seq<string>): (s: string) {
    if lines == [] then [] else lines[0] + ("\n" + Text(lines[1..]))
  }

  lemma {:induction false} TextAppend(a: seq<string>, b: seq<string>)
    ensures Text(a + b) == Text(a) + Text(b)
    decreases |a|
  {
    if a == [] {
      assert a + b == b;
    } else {
      TextAppend(a[1..], b);
      assert (a + b)[1..] == a[1..] + b;
      AppendAssoc("\n", Text(a[1..]), Text(b));
      AppendAssoc(a[0], "\n" + Text(a[1..]), Text(b));
    }
  }

  /** Each line with the indentation of `level` in front */
  function Indented(level: nat, lines: seq<string>): (r: seq<string>)
    ensures |r| == |lines| && forall i :: 0 <= i < |lines| ==> r[i] == Indent(level) + lines[i]
  {
    seq(|lines|, i requires 0 <= i < |lines| => Indent(level) + lines[i])
  }

  lemma {:induction false} LinesAreText(level: nat, lines: seq<string>)
    ensures RenderLines(level, lines) == Text(Indented(level, lines))
    decreases |lines|
  {
    if lines != [] {
      LinesAreText(level, lines[1..]);
      assert Indented(level, lines)[1..] == Indented(level, lines[1..]);
      AppendAssoc(Indent(level), lines[0], "\n" + RenderLines(level, lines[1..]));
    }
  }

  lemma IndentedAppend(level: nat, a: seq<string>, b: seq<string>)
    ensures Indented(level, a + b) == Indented(level, a) + Indented(level, b)
  {
  }

  lemma IndentedPair(x: string, y: string)
    ensures Indented(1, [x, y]) == ["  " + x, "  " + y]
  {
    assert Indent(1) == "  ";
  }

  /** The header line of a construct, without its newline */
  function HeaderLine(level: nat, mark: string, name: string, options: seq<KeyValue>): (s: string) {
    Indent(level) + ("block" + (" " + (name + (" " + (RenderOptions(options) + mark)))))
  }

  lemma HeaderIsText(level: nat, mark: string, name: string, options: seq<KeyValue>)
    ensures RenderHeader(level, mark, name, options) == Text([HeaderLine(level, mark, name, options)])
  {
    var h := RenderOptions(options);
    AppendAssoc(Indent(level), "block" + (" " + (name + (" " + (h + mark)))), "\n");
    AppendAssoc("block", " " + (name + (" " + (h + mark))), "\n");
    AppendAssoc(" ", name + (" " + (h + mark)), "\n");
    AppendAssoc(name, " " + (h + mark), "\n");
    AppendAssoc(" ", h + mark, "\n");
    AppendAssoc(h, mark, "\n");
    assert [] + "\n" == "\n";
  }

  /** A construct written as lines: its header line, then its child lines
      one level deeper, then the lines of `rest` */
  lemma ChildrenAreText(level: nat, lines: seq<string>, rest: seq<string>)
    ensures RenderLines(level, lines) + Text(rest) == Text(Indented(level, lines) + rest)
  {
    LinesAreText(level, lines);
    TextAppend(Indented(level, lines), rest);
  }

  lemma HeaderBeforeText(header: string, lines: seq<string>, rest: seq<string>)
    ensures Text([header]) + Text(lines + rest) == Text([header] + lines + rest)
  {
    TextAppend([header], lines + rest);
    assert [header] + lines + rest == [header] + (lines + rest);
  }

  lemma ConstructIsText(level: nat, mark: string, name: string, options: seq<KeyValue>,
                        lines: seq<string>, rest: seq<string>)
    ensures RenderHeader(level, mark, name, options) + (RenderLines(level + 1, lines) + Text(rest))
         == Text([HeaderLine(level, mark, name, options)] + Indented(level + 1, lines) + rest)
  {
    HeaderIsText(level, mark, name, options);
    ChildrenAreText(level + 1, lines, rest);
    HeaderBeforeText(HeaderLine(level, mark, name, options), Indented(level + 1, lines), rest);
  }

  /** `ConstructRoundTrip` for an input given as it is written in a test */
  lemma ParsedConstruct(mark: string, level: nat, name: string, options: seq<KeyValue>,
                        lines: seq<string>, rest: string, s: string)
    requires mark == "=" || mark == "=*"
    requires IsName(name) && AreKeyValues(options) && AreLines(lines)
    requires !(Indent(level + 1) <= rest)
    requires s == RenderHeader(level, mark, name, options) + (RenderLines(level + 1, lines) + rest)
    ensures ParseConstructWithMark(mark, level, s)
         == Done(rest, Construct(name, options, Values(TrimEmptyStringsAtVecEnd(lines))))
  {
    ConstructRoundTrip(mark, level, name, options, lines, rest);
  }

  /** `indented_parse_construct` is the construct parser with the `=` mark */
  lemma PlainConstruct(level: nat, s: string, r: ParseResult<Block>)
    requires ParseConstructWithMark("=", level, s) == r
    ensures IndentedParseConstruct(level, s) == r
  {
  }

  /** One trailing empty line is dropped */
  lemma DropOneEmpty(values: seq<string>)
    requires |values| >= 2 && values[|values| - 1] == [] && values[|values| - 2] != []
    ensures TrimEmptyStringsAtVecEnd(values) == values[..|values| - 1]
  {
    var front := values[..|values| - 1];
    TrimIsDropTrailingEmpty(values);
    assert DropTrailingEmpty(values) == DropTrailingEmpty(front);
    assert front[|front| - 1] != [];
  }

  /** Child lines that end in a non-empty line are kept as they are */
  lemma KeptValues(lines: seq<string>)
    requires IsTrimmed(lines)
    ensures Values(TrimEmptyStringsAtVecEnd(lines)) == Values(lines)
  {
    TrimmedIsUnchanged(lines);
  }

  // ---------------------------------------------------------------------
  // Pairs and lines

  /** `parsing_a_key_value_pair`: `a: 1.00` is read whole, the dot included */
  lemma KeyValueExample()
    ensures ParseKeyValue("a: 1.00") == Done([], ("a", "1.00"))
  {
    assert IsKeyValue(("a", "1.00"));
    assert "a" + ([] + (":" + (" " + ("1.00" + [])))) == "a: 1.00";
    KeyValueRoundTrip(("a", "1.00"), [], " ", []);
  }

  /** `parsing_a_list_of_key_value_pairs`: spaces are allowed inside the
      brackets and around the comma */
  lemma KeyValueListExample()
    ensures ParseKeyValueList("[ a:1 ,b:2]") == Done([], [("a", "1"), ("b", "2")])
  {
    var kvs := [("a", "1"), ("b", "2")];
    var sp := ListSpacing(" ", [Gaps([], []), Gaps([], [])], [Gaps(" ", [])], []);
    assert IsKeyValue(kvs[0]) && IsKeyValue(kvs[1]);
    assert sp.close + ("]" + []) == "]";
    assert SpacedMoreKeyValues(kvs[2..], sp.commas[1..], sp.colons[2..], "]") == "]";
    assert SpacedKeyValue(kvs[1], sp.colons[1], "]") == "b:2]";
    assert SpacedMoreKeyValues(kvs[1..], sp.commas, sp.colons[1..], "]") == " ,b:2]";
    assert SpacedKeyValue(kvs[0], sp.colons[0], " ,b:2]") == "a:1 ,b:2]";
    assert SpacedList(kvs, sp, []) == "[ a:1 ,b:2]";
    SpacedListRoundTrip(kvs, sp, []);
  }

  /** `parsing_an_indented_line`: `indented_parse_line(1)` strips the two
      spaces of level 1 */
  lemma IndentedLineExample()
    ensures IndentedParseLine(1, "  value indent 1") == Done([], "value indent 1")
  {
    assert HasNoLineBreak("value indent 1");
    assert Indent(1) + ("value indent 1" + ([] + [])) == "  value indent 1";
    LineRoundTrip(1, "value indent 1", [], []);
  }

  // ---------------------------------------------------------------------
  // Constructs

  const BlockLines: seq<string> := ["value in first line", "value in second line"]

  lemma BlockNames()
    ensures IsName("executable") && AreKeyValues([("echo", "true")])
  {
    assert IsKeyValue(("echo", "true"));
  }

  lemma BlockValues()
    ensures AreLines(BlockLines) && IsTrimmed(BlockLines)
    ensures Values(BlockLines) == [Value("value in first line"), Value("value in second line")]
  {
    assert Values(BlockLines)[0] == Value(BlockLines[0]);
  }

  lemma BlockHeaderLine()
    ensures HeaderLine(0, "=", "executable", [("echo", "true")]) == "block executable [echo: true] ="
  {
    assert RenderOptions([("echo", "true")]) == "[echo: true] ";
    assert "[echo: true] " + "=" == "[echo: true] =";
  }

  lemma BlockIndented()
    ensures Indented(1, BlockLines) == ["  value in first line", "  value in second line"]
  {
    IndentedPair("value in first line", "value in second line");
    BlockLineTexts();
  }

  lemma BlockLineTexts()
    ensures "  " + "value in first line" == "  value in first line"
    ensures "  " + "value in second line" == "  value in second line"
  {
  }

  /** `parsing_a_block`: a header with one option and two child lines */
  lemma ConstructExample()
    ensures IndentedParseConstruct(0, Text(["block executable [echo: true] =", "  value in first line", "  value in second line"]))
         == Done([], Construct("executable", [("echo", "true")],
                               [Value("value in first line"), Value("value in second line")]))
  {
    BlockNames();
    BlockValues();
    BlockHeaderLine();
    BlockIndented();
    ConstructIsText(0, "=", "executable", [("echo", "true")], BlockLines, []);
    assert [HeaderLine(0, "=", "executable", [("echo", "true")])] + Indented(1, BlockLines) + [] == [HeaderLine(0, "=", "executable", [("echo", "true")])] + Indented(1, BlockLines);
    KeptValues(BlockLines);
    ParsedConstruct("=", 0, "executable", [("echo", "true")], BlockLines, [],
      Text(["block executable [echo: true] =", "  value in first line", "  value in second line"]));
  }

  /** A `text` construct with one child line, written as lines, then `rest` */
  lemma OneLineIsText(line: string, rest: seq<string>)
    requires line != [] && HasNoLineBreak(line)
    ensures RenderHeader(0, "=", "text", []) + (RenderLines(1, [line]) + Text(rest))
         == Text(["block text =", "  " + line] + rest)
  {
    TextHeaderLine();
    assert Indent(1) == "  ";
    assert Indented(1, [line]) == ["  " + line];
    ConstructIsText(0, "=", "text", [], [line], rest);
    assert [HeaderLine(0, "=", "text", [])] + Indented(1, [line]) == ["block text =", "  " + line];
  }

  /** A `text` construct with one child line is read back whole */
  lemma OneLineParsed(line: string, rest: string, s: string)
    requires line != [] && HasNoLineBreak(line)
    requires !(Indent(1) <= rest)
    requires s == RenderHeader(0, "=", "text", []) + (RenderLines(1, [line]) + rest)
    ensures IndentedParseConstruct(0, s) == Done(rest, Construct("text", [], [Value(line)]))
  {
    assert IsName("text") && AreLines([line]);
    TrimmedIsUnchanged([line]);
    assert Values([line]) == [Value(line)] by {
      assert Values([line])[0] == Value(line);
    }
    ParsedConstruct("=", 0, "text", [], [line], rest, s);
    PlainConstruct(0, s, Done(rest, Construct("text", [], [Value(line)])));
  }

  lemma OneLineConstruct(line: string, rest: seq<string>, s: string)
    requires line != [] && HasNoLineBreak(line)
    requires !(Indent(1) <= Text(rest))
    requires s == Text(["block text =", "  " + line] + rest)
    ensures IndentedParseConstruct(0, s) == Done(Text(rest), Construct("text", [], [Value(line)]))
  {
    OneLineIsText(line, rest);
    OneLineParsed(line, Text(rest), s);
  }

  /** `parsing_a_block_with_empty_config`: no option list */
  lemma EmptyConfigExample()
    ensures IndentedParseConstruct(0, Text(["block text =", "  value"])) == Done([], Construct("text", [], [Value("value")]))
  {
    assert HasNoLineBreak("value");
    assert "  " + "value" == "  value";
    assert ["block text =", "  value"] + [] == ["block text =", "  value"];
    OneLineConstruct("value", [], Text(["block text =", "  value"]));
  }

  // ---------------------------------------------------------------------
  // Several constructs

  /** A `text` block with one line and an indented empty line */
  function TextBlock(line: string): (r: Block) {
    Construct("text", [], [Value(line), Value([])])
  }

  /** The header line of a `text` construct without options */
  lemma TextHeaderLine()
    ensures HeaderLine(0, "=", "text", []) == "block text ="
  {
  }

  lemma TextBlockShape(line: string)
    requires line != [] && HasNoLineBreak(line)
    ensures IsSourceConstruct(TextBlock(line)) && Texts(TextBlock(line).childs) == [line, []]
  {
    assert IsName("text");
  }

  lemma TextBlockIndented(line: string)
    ensures Indented(1, [line, []]) == ["  " + line, "  "]
  {
    assert Indent(1) == "  ";
    assert "  " + [] == "  ";
  }

  /** The indented empty line is dropped from the children */
  lemma TextBlockTrim(line: string)
    requires line != []
    ensures TrimEmptyStringsAtVecEnd([line, []]) == [line]
  {
    TrimIsDropTrailingEmpty([line, []]);
    assert [line, []][..1] == [line];
  }

  lemma TextBlockNormal(line: string)
    requires line != [] && HasNoLineBreak(line)
    ensures IsSourceConstruct(TextBlock(line))
    ensures Normalize(TextBlock(line)) == Construct("text", [], [Value(line)])
  {
    TextBlockShape(line);
    TextBlockTrim(line);
  }

  /** One `text` block written as its three lines, then `rest` */
  lemma TextBlockIsText(line: string, rest: seq<string>)
    requires line != [] && HasNoLineBreak(line)
    ensures IsSourceConstruct(TextBlock(line))
    ensures RenderBlock(0, TextBlock(line)) + Text(rest) == Text(["block text =", "  " + line, "  "] + rest)
  {
    TextBlockShape(line);
    TextHeaderLine();
    TextBlockIndented(line);
    ConstructIsText(0, "=", "text", [], [line, []], rest);
    AppendAssoc(RenderHeader(0, "=", "text", []), RenderLines(1, [line, []]), Text(rest));
    assert [HeaderLine(0, "=", "text", [])] + Indented(1, [line, []]) == ["block text =", "  " + line, "  "];
  }

  /** Two `text` blocks, each ended by an indented empty line */
  lemma TwoTextBlocksAreText(line1: string, line2: string)
    requires line1 != [] && HasNoLineBreak(line1) && line2 != [] && HasNoLineBreak(line2)
    ensures AreSourceConstructs([TextBlock(line1), TextBlock(line2)])
    ensures RenderBlocks(0, [TextBlock(line1), TextBlock(line2)]) + []
         == Text(["block text =", "  " + line1, "  ", "block text =", "  " + line2, "  "])
  {
    var bs := [TextBlock(line1), TextBlock(line2)];
    TextBlockIsText(line2, []);
    TextBlockIsText(line1, ["block text =", "  " + line2, "  "]);
    assert bs[1..] == [TextBlock(line2)];
    assert RenderBlocks(0, bs[1..]) == RenderBlock(0, TextBlock(line2)) + [];
    assert ["block text =", "  " + line2, "  "] + [] == ["block text =", "  " + line2, "  "];
    assert RenderBlocks(0, bs[1..]) == Text(["block text =", "  " + line2, "  "]);
    assert RenderBlocks(0, bs) + [] == RenderBlock(0, TextBlock(line1)) + RenderBlocks(0, bs[1..]);
    assert ["block text =", "  " + line1, "  "] + ["block text =", "  " + line2, "  "]
        == ["block text =", "  " + line1, "  ", "block text =", "  " + line2, "  "];
  }

  lemma TwoTextBlocksNormal(line1: string, line2: string)
    requires line1 != [] && HasNoLineBreak(line1) && line2 != [] && HasNoLineBreak(line2)
    ensures AreSourceConstructs([TextBlock(line1), TextBlock(line2)])
    ensures NormalizeAll([TextBlock(line1), TextBlock(line2)])
         == [Construct("text", [], [Value(line1)]), Construct("text", [], [Value(line2)])]
  {
    TextBlockNormal(line1);
    TextBlockNormal(line2);
  }

  lemma TwoTextBlocks(line1: string, line2: string, s: string)
    requires line1 != [] && HasNoLineBreak(line1) && line2 != [] && HasNoLineBreak(line2)
    requires s == Text(["block text =", "  " + line1, "  ", "block text =", "  " + line2, "  "])
    ensures IndentedParseBlocks(0, s)
         == Done([], [Construct("text", [], [Value(line1)]), Construct("text", [], [Value(line2)])])
  {
    TwoTextBlocksAreText(line1, line2);
    TwoTextBlocksNormal(line1, line2);
    BlocksRoundTrip(0, [TextBlock(line1), TextBlock(line2)], []);
  }

  /** `parsing_multi_blocks`: the indented empty lines keep the blocks
      together, and are dropped from the children */
  lemma MultiBlocksExample()
    ensures IndentedParseBlocks(0, Text(["block text =", "  value1", "  ", "block text =", "  value2", "  "]))
         == Done([], [Construct("text", [], [Value("value1")]), Construct("text", [], [Value("value2")])])
  {
    assert HasNoLineBreak("value1") && HasNoLineBreak("value2");
    assert "  " + "value1" == "  value1" && "  " + "value2" == "  value2";
    TwoTextBlocks("value1", "value2", Text(["block text =", "  value1", "  ", "block text =", "  value2", "  "]));
  }

  /** Lines that start with an empty line start with a newline */
  lemma EmptyLineFirst(rest: seq<string>)
    requires rest != [] && rest[0] == []
    ensures Text(rest) != [] && Text(rest)[0] == '\n'
    ensures !(Indent(1) <= Text(rest)) && !(Indent(0) + "block" <= Text(rest))
  {
    assert Text(rest) == [] + ("\n" + Text(rest[1..]));
    assert Indent(1)[0] == ' ';
  }

  /** Where no header starts, no construct is read */
  lemma NoConstructHere(level: nat, s: string)
    requires !(Indent(level) + "block" <= s)
    ensures IndentedParseConstruct(level, s).Fail?
    ensures IndentedParseBlocks(level, s) == Done(s, [])
  {
  }

  lemma LastBlock(level: nat, s: string, b: Block, rest: string)
    requires IndentedParseConstruct(level, s) == Done(rest, b)
    requires IndentedParseBlocks(level, rest) == Done(rest, [])
    ensures IndentedParseBlocks(level, s) == Done(rest, [b])
  {
    BlocksStep(level, s, b, rest, [], rest);
    assert [b] + [] == [b];
  }

  /** A construct followed by a line with no indentation at all: the
      construct is read, and no construct starts on the empty line */
  lemma BlockBeforeEmptyLine(line: string, rest: seq<string>, s: string)
    requires line != [] && HasNoLineBreak(line)
    requires rest != [] && rest[0] == []
    requires s == Text(["block text =", "  " + line] + rest)
    ensures IndentedParseBlocks(0, s) == Done(Text(rest), [Construct("text", [], [Value(line)])])
  {
    EmptyLineFirst(rest);
    NoConstructHere(0, Text(rest));
    OneLineConstruct(line, rest, s);
    LastBlock(0, s, Construct("text", [], [Value(line)]), Text(rest));
  }

  /** An empty line without indentation ends the children of a construct,
      and no construct starts there, so the blocks after it are not read. */
  lemma UnindentedEmptyLineExample()
    ensures IndentedParseBlocks(0, Text(["block text =", "  value1", "", "block text =", "  value2"]))
         == Done(Text(["", "block text =", "  value2"]), [Construct("text", [], [Value("value1")])])
  {
    assert HasNoLineBreak("value1");
    assert "  " + "value1" == "  value1";
    assert ["block text =", "  value1"] + ["", "block text =", "  value2"]
        == ["block text =", "  value1", "", "block text =", "  value2"];
    BlockBeforeEmptyLine("value1", ["", "block text =", "  value2"],
      Text(["block text =", "  value1", "", "block text =", "  value2"]));
  }

  // ---------------------------------------------------------------------
  // The nested test

  /** The lines of the nested-block test (a test the source marks as
      ignored), one level deeper than its `table` header: its empty lines
      are indented as well */
  const NestedLines: seq<string> :=
    ["block table_header ="] + Indented(1, ["h1", "h2", ""])
    + ["block table_row ="] + Indented(1, ["r1", "r2"]) + [""]

  /** The lines of the nested-block test */
  const NestedText: seq<string> := ["block table =*"] + Indented(1, NestedLines)

  lemma NestedHeader()
    ensures IsName("table") && HeaderLine(0, "=*", "table", []) == "block table =*"
  {
  }

  /** The nested test's input is a `table` header and `NestedLines` one level deeper */
  lemma NestedIsText()
    ensures [HeaderLine(0, "=*", "table", [])] + Indented(1, NestedLines) + [] == NestedText
  {
    NestedHeader();
  }

  lemma IndentedLines(level: nat, lines: seq<string>)
    requires AreLines(lines)
    ensures AreLines(Indented(level, lines))
  {
    forall i | 0 <= i < |lines|
      ensures HasNoLineBreak(Indented(level, lines)[i])
    {
      assert Indented(level, lines)[i] == Indent(level) + lines[i];
    }
  }

  lemma LinesAppend(a: seq<string>, b: seq<string>)
    requires AreLines(a) && AreLines(b)
    ensures AreLines(a + b)
  {
  }

  lemma NestedAreLines()
    ensures AreLines(NestedLines)
  {
    IndentedLines(1, ["h1", "h2", ""]);
    IndentedLines(1, ["r1", "r2"]);
    var header := ["block table_header ="] + Indented(1, ["h1", "h2", ""]);
    LinesAppend(["block table_header ="], Indented(1, ["h1", "h2", ""]));
    LinesAppend(header, ["block table_row ="]);
    LinesAppend(header + ["block table_row ="], Indented(1, ["r1", "r2"]));
    LinesAppend(header + ["block table_row ="] + Indented(1, ["r1", "r2"]), [""]);
  }

  lemma NestedTrim()
    ensures |NestedLines| == 8
    ensures TrimEmptyStringsAtVecEnd(NestedLines) == NestedLines[..7]
  {
    assert NestedLines[6] == Indent(1) + "r2";
    DropOneEmpty(NestedLines);
  }

  lemma NestedInput()
    ensures Text(NestedText) == RenderHeader(0, "=*", "table", []) + (RenderLines(1, NestedLines) + [])
  {
    ConstructIsText(0, "=*", "table", [], NestedLines, []);
    NestedIsText();
  }

  lemma NestedRefused()
    ensures IndentedParseConstruct(0, Text(NestedText)).Fail?
  {
    NestedHeader();
    NestedInput();
    ConstructMarkMismatch(0, "table", [], RenderLines(1, NestedLines) + []);
  }

  lemma NothingIndented(level: nat)
    requires level > 0
    ensures !(Indent(level) <= [])
  {
    assert |Indent(level)| > 0;
  }

  lemma NestedAcceptedAt(s: string)
    requires s == RenderHeader(0, "=*", "table", []) + (RenderLines(1, NestedLines) + [])
    ensures ParseConstructWithMark("=*", 0, s) == Done([], Construct("table", [], Values(NestedLines[..7])))
  {
    NestedHeader();
    NestedAreLines();
    NestedTrim();
    NothingIndented(1);
    ParsedConstruct("=*", 0, "table", [], NestedLines, [], s);
  }

  lemma NestedAccepted()
    ensures ParseConstructWithMark("=*", 0, Text(NestedText)) == Done([], Construct("table", [], Values(NestedLines[..7])))
  {
    NestedInput();
    NestedAcceptedAt(Text(NestedText));
  }

  lemma ChildAsBlockStep(level: nat, s: string, r: ParseResult<Block>)
    requires ParseConstructWithMark("=*", level, s) == r
    ensures IndentedParseBlockWithChildAsBlock(level, s) == r
  {
  }

  /** `indented_parse_construct` refuses the `=*` header of the nested test;
      `indented_parse_block_with_child_as_block` accepts it, but its children
      are the inner headers and lines as plain values, not constructs: the
      nesting the test expects is not implemented. */
  lemma NestedExample()
    ensures IndentedParseConstruct(0, Text(NestedText)).Fail?
    ensures IndentedParseBlockWithChildAsBlock(0, Text(NestedText))
         == Done([], Construct("table", [], Values(NestedLines[..7])))
  {
    NestedRefused();
    NestedAccepted();
    ChildAsBlockStep(0, Text(NestedText), Done([], Construct("table", [], Values(NestedLines[..7]))));
  }
}
