/**
 * Child lines with every line ending the line parser accepts (`\n`,
 * `\r\n`, or none at the end of the input), and constructs made of a
 * spaced header and such lines.  The round trips of NotebookFormat are the
 * instances with single spaces and `\n` endings.  Child lines and
 * constructs are characterised exactly: they are read if and only if the
 * text has this form.
 */
module NotebookConstructs {
  import opened Nom
  import opened NotebookParser
  import opened NotebookFormat
  import opened NotebookSpacing

  // ---------------------------------------------------------------------
  // Line endings

  /** What `opt(line_ending)` reads after a line: a newline, `\r\n`, or
      nothing when the line ends the input */
  predicate IsLineEnding(e: string, atEnd: bool) {
    e == "\n" || e == "\r\n" || (e == [] && atEnd)
  }

  /** An ending for each line; only the last may be empty, and only when
      the input ends after it */
  predicate AreLineEndings(endings: seq<string>, atEnd: bool) {
    forall i :: 0 <= i < |endings| ==> IsLineEnding(endings[i], atEnd && i == |endings| - 1)
  }

  lemma LineEndingsTail(endings: seq<string>, atEnd: bool)
    requires endings != [] && AreLineEndings(endings, atEnd)
    ensures IsLineEnding(endings[0], atEnd && |endings| == 1)
    ensures AreLineEndings(endings[1..], atEnd)
  {
    assert forall i :: 0 <= i < |endings| - 1 ==> endings[1..][i] == endings[i + 1];
  }

  lemma LineEndingsCons(e: string, endings: seq<string>, atEnd: bool)
    requires IsLineEnding(e, atEnd && endings == []) && AreLineEndings(endings, atEnd)
    ensures AreLineEndings([e] + endings, atEnd)
  {
    assert forall i :: 0 < i < |endings| + 1 ==> ([e] + endings)[i] == endings[i - 1];
  }

  /** Each line at `level` with its own ending, then `rest` */
  function EndedLines(level: nat, lines: seq<string>, endings: seq<string>, rest: string): (s: string)
    requires |endings| == |lines|
  {
    if lines == [] then rest
    else Indent(level) + (lines[0] + (endings[0] + EndedLines(level, lines[1..], endings[1..], rest)))
  }

  /** Lines ended by newlines are the written lines */
  lemma {:induction false} NewlineEndedLines(level: nat, lines: seq<string>, rest: string)
    ensures EndedLines(level, lines, seq(|lines|, _ => "\n"), rest) == RenderLines(level, lines) + rest
  {
    if lines == [] {
      assert [] + rest == rest;
    } else {
      NewlineEndedLines(level, lines[1..], rest);
      assert seq(|lines|, _ => "\n")[1..] == seq(|lines[1..]|, _ => "\n");
      LinePieces(level, lines, rest);
    }
  }

  // ---------------------------------------------------------------------
  // Child lines

  lemma EndedLinesCons(level: nat, lines: seq<string>, endings: seq<string>, rest: string)
    requires level > 0 && lines != [] && AreLines(lines)
    requires |endings| == |lines| && AreLineEndings(endings, rest == [])
    requires ManyLines(level, EndedLines(level, lines[1..], endings[1..], rest)) == Done(rest, lines[1..])
    ensures ManyLines(level, EndedLines(level, lines, endings, rest)) == Done(rest, lines)
  {
    var after := EndedLines(level, lines[1..], endings[1..], rest);
    LineEndingsTail(endings, rest == []);
    LineRoundTrip(level, lines[0], endings[0], after);
    ManyLinesStep(level, EndedLines(level, lines, endings, rest), lines[0], after, lines[1..], rest);
    ConsSplit(lines);
  }

  /** `many0(indented_parse_line(level))` reads back every line, whatever
      its ending, and stops where the line parser stops */
  lemma {:induction false} EndedLinesRoundTrip(level: nat, lines: seq<string>, endings: seq<string>, rest: string)
    requires level > 0 && AreLines(lines)
    requires |endings| == |lines| && AreLineEndings(endings, rest == [])
    requires IndentedParseLine(level, rest).Fail?
    ensures ManyLines(level, EndedLines(level, lines, endings, rest)) == Done(rest, lines)
  {
    if lines != [] {
      LineEndingsTail(endings, rest == []);
      EndedLinesRoundTrip(level, lines[1..], endings[1..], rest);
      EndedLinesCons(level, lines, endings, rest);
    }
  }

  /** `s` is the lines at `level`, each with an ending, then `rest` */
  ghost predicate IsEndedLines(level: nat, s: string, lines: seq<string>, rest: string) {
    exists endings :: |endings| == |lines| && AreLineEndings(endings, rest == []) && s == EndedLines(level, lines, endings, rest)
  }

  /** Whatever the line loop reads is the lines it yields, each with an
      ending */
  lemma {:induction false} LinesParsedAreEnded(level: nat, s: string)
    requires level > 0
    ensures IsEndedLines(level, s, ManyLines(level, s).value, ManyLines(level, s).rest)
    decreases |s|
  {
    var r := ManyLines(level, s);
    if r.value == [] {
      assert s == EndedLines(level, [], [], r.rest);
      assert AreLineEndings([], r.rest == []);
    } else {
      var line := IndentedParseLine(level, s);
      var more := ManyLines(level, line.rest);
      assert r == Done(more.rest, [line.value] + more.value);
      LinesParsedAreEnded(level, line.rest);
      var endings :| |endings| == |more.value| && AreLineEndings(endings, more.rest == [])
        && line.rest == EndedLines(level, more.value, endings, more.rest);
      var e := if s == Indent(level) + line.value + "\n" + line.rest then "\n"
               else if s == Indent(level) + line.value + "\r\n" + line.rest then "\r\n"
               else [];
      assert s == Indent(level) + (line.value + (e + line.rest));
      if e == [] {
        assert line.rest == [];
        assert more.value == [];
      }
      LinesParsedStep(level, s, line.value, e, more.value, endings, more.rest);
    }
  }

  lemma LinesParsedStep(level: nat, s: string, line: string, e: string, lines: seq<string>,
                        endings: seq<string>, rest: string)
    requires |endings| == |lines| && AreLineEndings(endings, rest == [])
    requires IsLineEnding(e, rest == [] && lines == [])
    requires s == Indent(level) + (line + (e + EndedLines(level, lines, endings, rest)))
    ensures IsEndedLines(level, s, [line] + lines, rest)
  {
    LineEndingsCons(e, endings, rest == []);
    assert ([line] + lines)[1..] == lines && ([e] + endings)[1..] == endings;
    assert s == EndedLines(level, [line] + lines, [e] + endings, rest);
  }

  /** The line loop reads `lines` up to `rest` exactly when the text is
      those lines with their endings and no further line starts `rest` */
  lemma LinesCharacterised(level: nat, s: string, lines: seq<string>, rest: string)
    requires level > 0
    ensures ManyLines(level, s) == Done(rest, lines)
        <==> AreLines(lines) && IsEndedLines(level, s, lines, rest) && IndentedParseLine(level, rest).Fail?
  {
    if ManyLines(level, s) == Done(rest, lines) {
      LinesParsedAreEnded(level, s);
    }
    if AreLines(lines) && IsEndedLines(level, s, lines, rest) && IndentedParseLine(level, rest).Fail? {
      var endings :| |endings| == |lines| && AreLineEndings(endings, rest == []) && s == EndedLines(level, lines, endings, rest);
      EndedLinesRoundTrip(level, lines, endings, rest);
    }
  }

  // ---------------------------------------------------------------------
  // Constructs

  /** A spaced construct with any line endings is read back with its
      trailing empty lines dropped, and reading stops where the line parser
      one level deeper stops. */
  lemma SpacedConstructRoundTrip(mark: string, level: nat, name: string, options: seq<KeyValue>,
                                 hs: HeaderSpacing, lines: seq<string>, endings: seq<string>, rest: string)
    requires mark == "=" || mark == "=*"
    requires IsName(name) && AreKeyValues(options) && IsHeaderSpacing(hs, |options|) && AreLines(lines)
    requires |endings| == |lines| && AreLineEndings(endings, rest == [])
    requires IndentedParseLine(level + 1, rest).Fail?
    ensures ParseConstructWithMark(mark, level, SpacedHeader(level, mark, name, options, hs, EndedLines(level + 1, lines, endings, rest)))
         == Done(rest, Construct(name, options, Values(TrimEmptyStringsAtVecEnd(lines))))
  {
    var body := EndedLines(level + 1, lines, endings, rest);
    var s := SpacedHeader(level, mark, name, options, hs, body);
    var gap := MarkGap(options, hs);
    var t := gap + (mark + (hs.afterMark + ("\n" + body)));
    SpacedHeaderInfoRoundTrip(level, mark, name, options, hs, body);
    StartMarkRoundTrip(mark, gap, hs.afterMark, body);
    EndedLinesRoundTrip(level + 1, lines, endings, rest);
    ConstructStep(mark, level, s, t, body, name, options, lines, rest);
  }

  /** `s` is a construct `b` at `level`: a spaced header with `mark`, then
      child lines with their endings whose trimmed values are the
      children, then `rest` */
  ghost predicate IsSpacedConstruct(mark: string, level: nat, s: string, b: Block, rest: string) {
    && b.Construct?
    && exists hs, lines, endings ::
         && IsHeaderSpacing(hs, |b.options|) && AreLines(lines)
         && |endings| == |lines| && AreLineEndings(endings, rest == [])
         && b.childs == Values(TrimEmptyStringsAtVecEnd(lines))
         && s == SpacedHeader(level, mark, b.name, b.options, hs, EndedLines(level + 1, lines, endings, rest))
  }

  /** Whatever a construct parser reads is a spaced construct of the block
      it yields */
  lemma ConstructParsedIsSpaced(mark: string, level: nat, s: string)
    ensures var r := ParseConstructWithMark(mark, level, s); r.Done? ==> IsSpacedConstruct(mark, level, s, r.value, r.rest)
  {
    var r := ParseConstructWithMark(mark, level, s);
    if r.Done? {
      var info := IndentedParseConstructInfo(level, s);
      var start := CustomParseChildStartMark(mark, info.rest);
      var lines := ManyLines(level + 1, start.rest);
      var name := info.value.0;
      var options := info.value.1;
      assert r == Done(lines.rest, Construct(name, options, Values(TrimEmptyStringsAtVecEnd(lines.value))));
      ConstructPartsAreSpaced(mark, level, s, info.rest, name, options, start.rest, lines.value, lines.rest);
    }
  }

  lemma ConstructPartsAreSpaced(mark: string, level: nat, s: string, tail: string, name: string, options: seq<KeyValue>,
                                body: string, lines: seq<string>, rest: string)
    requires IndentedParseConstructInfo(level, s) == Done(tail, (name, options))
    requires CustomParseChildStartMark(mark, tail) == Done(body, ())
    requires ManyLines(level + 1, body) == Done(rest, lines)
    ensures IsSpacedConstruct(mark, level, s, Construct(name, options, Values(TrimEmptyStringsAtVecEnd(lines))), rest)
  {
    HeaderInfoParsedIsSpaced(level, s);
    var hs :| IsHeaderSpacing(hs, |options|) && hs.beforeMark == [] && s == SpacedHeaderThen(level, name, options, hs, tail);
    StartMarkParsedIsSpaced(mark, tail);
    var gap, gap' :| IsSpaces(gap) && IsSpaces(gap') && tail == gap + (mark + (gap' + ("\n" + body)));
    LinesParsedAreEnded(level + 1, body);
    var endings :| |endings| == |lines| && AreLineEndings(endings, rest == [])
      && body == EndedLines(level + 1, lines, endings, rest);
    if options == [] {
      SpacesBeforeNonSpace(gap, mark + (gap' + ("\n" + body)));
    }
    var hs' := hs.(beforeMark := gap, afterMark := gap');
    ConstructParsedStep(mark, level, s, Construct(name, options, Values(TrimEmptyStringsAtVecEnd(lines))),
                        hs, hs', tail, body, lines, endings, rest);
  }

  /** Spaces before text that does not start with a space are none */
  lemma SpacesBeforeNonSpace(gap: string, t: string)
    requires IsSpaces(gap)
    requires gap + t == [] || !IsSpace((gap + t)[0])
    ensures gap == []
  {
  }

  lemma ConstructParsedStep(mark: string, level: nat, s: string, b: Block, hs: HeaderSpacing, hs': HeaderSpacing,
                            tail: string, body: string, lines: seq<string>, endings: seq<string>, rest: string)
    requires b.Construct? && IsHeaderSpacing(hs, |b.options|) && hs.beforeMark == []
    requires IsSpaces(hs'.beforeMark) && IsSpaces(hs'.afterMark)
    requires hs' == hs.(beforeMark := hs'.beforeMark, afterMark := hs'.afterMark)
    requires b.options == [] ==> hs'.beforeMark == []
    requires s == SpacedHeaderThen(level, b.name, b.options, hs, tail)
    requires tail == hs'.beforeMark + (mark + (hs'.afterMark + ("\n" + body)))
    requires AreLines(lines) && |endings| == |lines| && AreLineEndings(endings, rest == [])
    requires b.childs == Values(TrimEmptyStringsAtVecEnd(lines))
    requires body == EndedLines(level + 1, lines, endings, rest)
    ensures IsSpacedConstruct(mark, level, s, b, rest)
  {
    var marked := mark + (hs'.afterMark + ("\n" + body));
    assert IsHeaderSpacing(hs', |b.options|);
    if b.options == [] {
      assert tail == marked;
    } else {
      assert [] + tail == hs'.beforeMark + marked;
    }
    assert SpacedOptions(b.options, hs, tail) == SpacedOptions(b.options, hs', marked);
    assert s == SpacedHeader(level, mark, b.name, b.options, hs', body);
  }

  /** A construct parser reads the block `b` up to `rest` exactly when the
      text is a spaced construct of `b` and no child line starts `rest` */
  lemma ConstructCharacterised(mark: string, level: nat, s: string, b: Block, rest: string)
    requires mark == "=" || mark == "=*"
    ensures ParseConstructWithMark(mark, level, s) == Done(rest, b)
        <==> && b.Construct? && IsName(b.name) && AreKeyValues(b.options) && IsSpacedConstruct(mark, level, s, b, rest)
             && IndentedParseLine(level + 1, rest).Fail?
  {
    if ParseConstructWithMark(mark, level, s) == Done(rest, b) {
      ConstructParsedIsSpaced(mark, level, s);
    }
    if b.Construct? && IsName(b.name) && AreKeyValues(b.options) && IsSpacedConstruct(mark, level, s, b, rest)
       && IndentedParseLine(level + 1, rest).Fail? {
      SpacedConstructIsRead(mark, level, s, b, rest);
    }
  }

  lemma SpacedConstructIsRead(mark: string, level: nat, s: string, b: Block, rest: string)
    requires mark == "=" || mark == "=*"
    requires b.Construct? && IsName(b.name) && AreKeyValues(b.options) && IsSpacedConstruct(mark, level, s, b, rest)
    requires IndentedParseLine(level + 1, rest).Fail?
    ensures ParseConstructWithMark(mark, level, s) == Done(rest, b)
  {
    var hs, lines, endings :|
       && IsHeaderSpacing(hs, |b.options|) && AreLines(lines)
       && |endings| == |lines| && AreLineEndings(endings, rest == [])
       && b.childs == Values(TrimEmptyStringsAtVecEnd(lines))
       && s == SpacedHeader(level, mark, b.name, b.options, hs, EndedLines(level + 1, lines, endings, rest));
    SpacedConstructRoundTrip(mark, level, b.name, b.options, hs, lines, endings, rest);
  }

  // ---------------------------------------------------------------------
  // Runs of constructs

  /** A spacing for each construct's header */
  predicate AreHeaderSpacings(bs: seq<Block>, hss: seq<HeaderSpacing>)
    requires AreSourceConstructs(bs)
  {
    |hss| == |bs| && forall i :: 0 <= i < |bs| ==> IsHeaderSpacing(hss[i], |bs[i].options|)
  }

  /** A sequence of endings for each construct's child lines */
  predicate FitsChildren(bs: seq<Block>, ends: seq<seq<string>>)
    requires AreSourceConstructs(bs)
  {
    |ends| == |bs| && forall i :: 0 <= i < |bs| ==> |ends[i]| == |bs[i].childs|
  }

  /** Only the last line of the last construct may lack an ending, and
      only when the input ends there */
  predicate AreChildEndings(bs: seq<Block>, ends: seq<seq<string>>, atEnd: bool)
    requires AreSourceConstructs(bs)
  {
    FitsChildren(bs, ends) && forall i :: 0 <= i < |bs| ==> AreLineEndings(ends[i], atEnd && i == |bs| - 1)
  }

  lemma ChildEndingsTail(bs: seq<Block>, ends: seq<seq<string>>, atEnd: bool)
    requires bs != [] && AreSourceConstructs(bs) && AreChildEndings(bs, ends, atEnd)
    ensures AreSourceConstructs(bs[1..])
    ensures AreLineEndings(ends[0], atEnd && |bs| == 1)
    ensures AreChildEndings(bs[1..], ends[1..], atEnd)
  {
    assert forall i :: 0 <= i < |bs| - 1 ==> bs[1..][i] == bs[i + 1] && ends[1..][i] == ends[i + 1];
  }

  /** Constructs written one after the other, each with the `=` mark, the
      spaces of its header spacing and the endings of its lines, then
      `rest` */
  function SpacedBlocks(level: nat, bs: seq<Block>, hss: seq<HeaderSpacing>, ends: seq<seq<string>>, rest: string): (s: string)
    requires AreSourceConstructs(bs) && AreHeaderSpacings(bs, hss) && FitsChildren(bs, ends)
  {
    if bs == [] then rest
    else
      SourceConstructsTail(bs);
      SpacedHeader(level, "=", bs[0].name, bs[0].options, hss[0],
        EndedLines(level + 1, Texts(bs[0].childs), ends[0], SpacedBlocks(level, bs[1..], hss[1..], ends[1..], rest)))
  }

  /** What follows a spaced construct is never a line of its children */
  lemma SpacedBlocksNotIndentedDeeper(level: nat, bs: seq<Block>, hss: seq<HeaderSpacing>, ends: seq<seq<string>>, rest: string)
    requires AreSourceConstructs(bs) && AreHeaderSpacings(bs, hss) && FitsChildren(bs, ends)
    requires !(Indent(level + 1) <= rest)
    ensures !(Indent(level + 1) <= SpacedBlocks(level, bs, hss, ends, rest))
  {
    if bs != [] {
      var s := SpacedBlocks(level, bs, hss, ends, rest);
      var t := s[2 * level..];
      assert s == Indent(level) + t;
      assert t[0] == 'b';
      NotIndentedDeeper(level, t);
    }
  }

  /** Endings that never stop at the end of the input fit anywhere */
  lemma ClosedLineEndings(endings: seq<string>, atEnd: bool)
    requires AreLineEndings(endings, false)
    ensures AreLineEndings(endings, atEnd)
  {
  }

  /** One more spaced construct in front of constructs that are read back */
  lemma SpacedBlocksCons(level: nat, bs: seq<Block>, hss: seq<HeaderSpacing>, ends: seq<seq<string>>, rest: string)
    requires bs != [] && AreSourceConstructs(bs) && AreHeaderSpacings(bs, hss) && AreChildEndings(bs, ends, rest == [])
    requires !(Indent(level + 1) <= rest)
    requires IndentedParseBlocks(level, SpacedBlocks(level, bs[1..], hss[1..], ends[1..], rest)) == Done(rest, NormalizeAll(bs[1..]))
    ensures IndentedParseBlocks(level, SpacedBlocks(level, bs, hss, ends, rest)) == Done(rest, NormalizeAll(bs))
  {
    var b := bs[0];
    SourceConstructsTail(bs);
    ChildEndingsTail(bs, ends, rest == []);
    var after := SpacedBlocks(level, bs[1..], hss[1..], ends[1..], rest);
    var s := SpacedHeader(level, "=", b.name, b.options, hss[0], EndedLines(level + 1, Texts(b.childs), ends[0], after));
    assert SpacedBlocks(level, bs, hss, ends, rest) == s;
    SpacedBlocksNotIndentedDeeper(level, bs[1..], hss[1..], ends[1..], rest);
    if |bs| > 1 {
      ClosedLineEndings(ends[0], after == []);
    }
    SpacedBlockRead(level, b, hss[0], ends[0], after);
    BlocksStep(level, s, Normalize(b), after, NormalizeAll(bs[1..]), rest);
  }

  lemma SpacedBlockRead(level: nat, b: Block, hs: HeaderSpacing, endings: seq<string>, after: string)
    requires IsSourceConstruct(b) && IsHeaderSpacing(hs, |b.options|)
    requires |endings| == |b.childs| && AreLineEndings(endings, after == [])
    requires !(Indent(level + 1) <= after)
    ensures IndentedParseConstruct(level, SpacedHeader(level, "=", b.name, b.options, hs, EndedLines(level + 1, Texts(b.childs), endings, after)))
         == Done(after, Normalize(b))
  {
    SpacedConstructRoundTrip("=", level, b.name, b.options, hs, Texts(b.childs), endings, after);
  }

  /** `indented_parse_blocks(level)` reads back every spaced construct,
      whatever its line endings, each with its trailing empty lines
      dropped. */
  lemma {:induction false} SpacedBlocksRoundTrip(level: nat, bs: seq<Block>, hss: seq<HeaderSpacing>,
                                                 ends: seq<seq<string>>, rest: string)
    requires AreSourceConstructs(bs) && AreHeaderSpacings(bs, hss) && AreChildEndings(bs, ends, rest == [])
    requires !(Indent(level + 1) <= rest) && !(Indent(level) + "block" <= rest)
    ensures IndentedParseBlocks(level, SpacedBlocks(level, bs, hss, ends, rest)) == Done(rest, NormalizeAll(bs))
  {
    if bs == [] {
      assert IndentedParseConstruct(level, rest).Fail?;
    } else {
      SourceConstructsTail(bs);
      ChildEndingsTail(bs, ends, rest == []);
      SpacedBlocksRoundTrip(level, bs[1..], hss[1..], ends[1..], rest);
      SpacedBlocksCons(level, bs, hss, ends, rest);
    }
  }
}
