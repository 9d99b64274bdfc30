/**
 * The header syntax with every run of spaces the parsers allow: around the
 * colon of a pair, around each comma, inside the brackets, after `block`
 * and after the name, and on both sides of the mark.  The written forms of
 * NotebookFormat are the instances with single spaces.  The option list
 * is characterised exactly: a list is read if and only if the text is a
 * spaced list, and a list that is not closed reads nothing.
 */
module NotebookSpacing {
  import opened Nom
  import opened NotebookParser
  import opened NotebookFormat

  /** The runs of spaces before and after a colon or a comma */
  datatype Gaps = Gaps(before: string, after: string)

  predicate IsGaps(g: Gaps) {
    IsSpaces(g.before) && IsSpaces(g.after)
  }

  predicate AreGaps(gs: seq<Gaps>) {
    forall i :: 0 <= i < |gs| ==> IsGaps(gs[i])
  }

  lemma GapsCons(g: Gaps, gs: seq<Gaps>)
    requires IsGaps(g) && AreGaps(gs)
    ensures AreGaps([g] + gs)
  {
    assert forall i :: 0 < i < |gs| + 1 ==> ([g] + gs)[i] == gs[i - 1];
  }

  // ---------------------------------------------------------------------
  // Spaced option lists

  /** `key <spaces>:<spaces> value`, then `tail` */
  function SpacedKeyValue(kv: KeyValue, colon: Gaps, tail: string): (s: string) {
    kv.0 + (colon.before + (":" + (colon.after + (kv.1 + tail))))
  }

  /** `<spaces>,<spaces>`, then `tail` */
  function SpacedComma(comma: Gaps, tail: string): (s: string) {
    comma.before + ("," + (comma.after + tail))
  }

  /** A comma and a pair for each pair, then `tail` */
  function SpacedMoreKeyValues(kvs: seq<KeyValue>, commas: seq<Gaps>, colons: seq<Gaps>, tail: string): (s: string)
    requires |commas| == |kvs| && |colons| == |kvs|
  {
    if kvs == [] then tail
    else SpacedComma(commas[0], SpacedKeyValue(kvs[0], colons[0], SpacedMoreKeyValues(kvs[1..], commas[1..], colons[1..], tail)))
  }

  /** One pair or more, separated by commas, then `tail` */
  function SpacedKeyValues(kvs: seq<KeyValue>, colons: seq<Gaps>, commas: seq<Gaps>, tail: string): (s: string)
    requires kvs != [] && |colons| == |kvs| && |commas| == |kvs| - 1
  {
    SpacedKeyValue(kvs[0], colons[0], SpacedMoreKeyValues(kvs[1..], commas, colons[1..], tail))
  }

  /** The spaces of a bracketed list: after `[`, around each colon and
      comma, and before `]` */
  datatype ListSpacing = ListSpacing(open: string, colons: seq<Gaps>, commas: seq<Gaps>, close: string)

  /** Spacing for a list of `n` pairs */
  predicate IsListSpacing(sp: ListSpacing, n: nat) {
    && n > 0 && IsSpaces(sp.open) && IsSpaces(sp.close)
    && |sp.colons| == n && |sp.commas| == n - 1
    && AreGaps(sp.colons) && AreGaps(sp.commas)
  }

  /** `[`, the pairs and `]` with the spaces of `sp`, then `rest` */
  function SpacedList(kvs: seq<KeyValue>, sp: ListSpacing, rest: string): (s: string)
    requires kvs != [] && IsListSpacing(sp, |kvs|)
  {
    "[" + (sp.open + SpacedKeyValues(kvs, sp.colons, sp.commas, sp.close + ("]" + rest)))
  }

  // ---------------------------------------------------------------------
  // Reading a spaced list

  /** A spaced pair starts with the first character of its name */
  lemma SpacedKeyValueStart(kv: KeyValue, colon: Gaps, tail: string)
    requires IsKeyValue(kv)
    ensures var t := SpacedKeyValue(kv, colon, tail); t != [] && t[0] == kv.0[0] && IsNameChar(t[0]) && !IsSpace(t[0])
  {
    WordCharsAreNotSpaces(kv.0[0]);
  }

  lemma SpacedKeyValueRoundTrip(kv: KeyValue, colon: Gaps, tail: string)
    requires IsKeyValue(kv) && IsGaps(colon)
    requires tail == [] || !IsValueChar(tail[0])
    ensures ParseKeyValue(SpacedKeyValue(kv, colon, tail)) == Done(tail, kv)
  {
    KeyValueRoundTrip(kv, colon.before, colon.after, tail);
  }

  /** A comma between spaces, before a pair, is one separator */
  lemma SpacedCommaRoundTrip(comma: Gaps, tail: string)
    requires IsGaps(comma) && tail != [] && !IsSpace(tail[0])
    ensures Separator(SpacedComma(comma, tail)) == Done(tail, ",")
  {
    assert !IsSpace(',');
    Space0Then(comma.before, ",", comma.after + tail);
    TagPrefix(",", comma.after + tail);
    Space0Exact(comma.after, tail);
  }

  /** What ends the pairs: no value character, and no separator before a pair */
  predicate EndsPairs(tail: string) {
    (tail == [] || !IsValueChar(tail[0])) && MoreKeyValues(tail) == Done(tail, [])
  }

  /** The spaced pairs after the first start with a space or a comma, or
      are the tail */
  lemma SpacedMoreStart(kvs: seq<KeyValue>, commas: seq<Gaps>, colons: seq<Gaps>, tail: string)
    requires |commas| == |kvs| && |colons| == |kvs| && AreGaps(commas)
    requires tail == [] || !IsValueChar(tail[0])
    ensures var t := SpacedMoreKeyValues(kvs, commas, colons, tail); t == [] || !IsValueChar(t[0])
  {
    if kvs != [] {
      var t := SpacedMoreKeyValues(kvs, commas, colons, tail);
      assert t[0] == ',' || IsSpace(t[0]);
      assert !IsValueChar(',') && !IsValueChar(' ') && !IsValueChar('\t');
    }
  }

  lemma {:induction false} SpacedMoreRoundTrip(kvs: seq<KeyValue>, commas: seq<Gaps>, colons: seq<Gaps>, tail: string)
    requires AreKeyValues(kvs) && |commas| == |kvs| && |colons| == |kvs|
    requires AreGaps(commas) && AreGaps(colons) && EndsPairs(tail)
    ensures MoreKeyValues(SpacedMoreKeyValues(kvs, commas, colons, tail)) == Done(tail, kvs)
  {
    if kvs != [] {
      var after := SpacedMoreKeyValues(kvs[1..], commas[1..], colons[1..], tail);
      var pair := SpacedKeyValue(kvs[0], colons[0], after);
      SpacedMoreRoundTrip(kvs[1..], commas[1..], colons[1..], tail);
      SpacedMoreStart(kvs[1..], commas[1..], colons[1..], tail);
      SpacedKeyValueRoundTrip(kvs[0], colons[0], after);
      SpacedKeyValueStart(kvs[0], colons[0], after);
      SpacedCommaRoundTrip(commas[0], pair);
      MoreKeyValuesStep(SpacedComma(commas[0], pair), pair, kvs[0], after, kvs[1..], tail);
      ConsSplit(kvs);
    }
  }

  /** `separated_list1(separator, parse_key_value)` reads every spaced pair
      and stops at the tail */
  lemma SpacedKeyValuesRoundTrip(kvs: seq<KeyValue>, colons: seq<Gaps>, commas: seq<Gaps>, tail: string)
    requires kvs != [] && AreKeyValues(kvs) && |colons| == |kvs| && |commas| == |kvs| - 1
    requires AreGaps(colons) && AreGaps(commas) && EndsPairs(tail)
    ensures SeparatedKeyValues(SpacedKeyValues(kvs, colons, commas, tail)) == Done(tail, kvs)
  {
    var after := SpacedMoreKeyValues(kvs[1..], commas, colons[1..], tail);
    SpacedMoreRoundTrip(kvs[1..], commas, colons[1..], tail);
    SpacedMoreStart(kvs[1..], commas, colons[1..], tail);
    SpacedKeyValueRoundTrip(kvs[0], colons[0], after);
    SeparatedKeyValuesStep(SpacedKeyValues(kvs, colons, commas, tail), kvs[0], after, kvs[1..], tail);
    ConsSplit(kvs);
  }

  /** Spaces and `]` end the pairs */
  lemma ClosingEndsPairs(close: string, rest: string)
    requires IsSpaces(close)
    ensures EndsPairs(close + ("]" + rest))
    ensures Space0(close + ("]" + rest)) == Done("]" + rest, close)
  {
    assert !IsSpace(']') && !IsValueChar(']') && !IsValueChar(' ') && !IsValueChar('\t');
    Space0Then(close, "]", rest);
    assert Tag(",", "]" + rest).Fail?;
  }

  /** `parse_key_value_list` reads back a list written with any spaces the
      grammar allows, whatever follows it */
  lemma SpacedListRoundTrip(kvs: seq<KeyValue>, sp: ListSpacing, rest: string)
    requires kvs != [] && AreKeyValues(kvs) && IsListSpacing(sp, |kvs|)
    ensures ParseKeyValueList(SpacedList(kvs, sp, rest)) == Done(rest, kvs)
  {
    var closing := sp.close + ("]" + rest);
    var pairs := SpacedKeyValues(kvs, sp.colons, sp.commas, closing);
    ClosingEndsPairs(sp.close, rest);
    SpacedKeyValuesRoundTrip(kvs, sp.colons, sp.commas, closing);
    SpacedKeyValueStart(kvs[0], sp.colons[0], SpacedMoreKeyValues(kvs[1..], sp.commas, sp.colons[1..], closing));
    TagPrefix("[", sp.open + pairs);
    Space0Exact(sp.open, pairs);
    TagPrefix("]", rest);
    BracketedPieces(SpacedList(kvs, sp, rest), sp.open + pairs, pairs, closing, "]" + rest, rest, sp.open, sp.close, kvs);
  }

  // ---------------------------------------------------------------------
  // Every list read is a spaced list

  lemma PairParsedIsSpaced(s: string)
    ensures var r := ParseKeyValue(s);
      r.Done? ==> exists colon :: IsGaps(colon) && s == SpacedKeyValue(r.value, colon, r.rest)
  {
    var key := ParseValidName(s);
    if ParseKeyValue(s).Done? {
      var gap := Space0(key.rest);
      var colon := Tag(":", gap.rest);
      var gap' := Space0(colon.rest);
      var value := ParseValueString(gap'.rest);
      assert IsGaps(Gaps(gap.value, gap'.value));
      assert s == SpacedKeyValue(ParseKeyValue(s).value, Gaps(gap.value, gap'.value), ParseKeyValue(s).rest);
    }
  }

  lemma CommaParsedIsSpaced(s: string)
    ensures var r := Separator(s);
      r.Done? ==> exists comma :: IsGaps(comma) && s == SpacedComma(comma, r.rest)
  {
    var gap := Space0(s);
    if Separator(s).Done? {
      var comma := Tag(",", gap.rest);
      var gap' := Space0(comma.rest);
      assert IsGaps(Gaps(gap.value, gap'.value));
      assert s == SpacedComma(Gaps(gap.value, gap'.value), Separator(s).rest);
    }
  }

  /** `s` is the pairs `kvs`, each after a comma, with spaces, then `rest` */
  ghost predicate IsSpacedMore(s: string, kvs: seq<KeyValue>, rest: string) {
    exists commas, colons :: |commas| == |kvs| && |colons| == |kvs|
      && AreGaps(commas) && AreGaps(colons) && s == SpacedMoreKeyValues(kvs, commas, colons, rest)
  }

  /** Whatever the loop after the first pair reads is a comma and a pair,
      with spaces, for each pair it yields */
  lemma {:induction false} MoreParsedIsSpaced(s: string)
    ensures IsSpacedMore(s, MoreKeyValues(s).value, MoreKeyValues(s).rest)
    decreases |s|
  {
    var r := MoreKeyValues(s);
    if r.value == [] {
      assert s == SpacedMoreKeyValues([], [], [], r.rest);
    } else {
      var sep := Separator(s);
      var kv := ParseKeyValue(sep.rest);
      var more := MoreKeyValues(kv.rest);
      assert r == Done(more.rest, [kv.value] + more.value);
      CommaParsedIsSpaced(s);
      var comma :| IsGaps(comma) && s == SpacedComma(comma, sep.rest);
      PairParsedIsSpaced(sep.rest);
      var colon :| IsGaps(colon) && sep.rest == SpacedKeyValue(kv.value, colon, kv.rest);
      MoreParsedIsSpaced(kv.rest);
      var commas, colons :| |commas| == |more.value| && |colons| == |more.value|
        && AreGaps(commas) && AreGaps(colons) && kv.rest == SpacedMoreKeyValues(more.value, commas, colons, more.rest);
      MoreParsedStep(s, kv.value, more.value, comma, colon, commas, colons, more.rest);
    }
  }

  lemma MoreParsedStep(s: string, kv: KeyValue, kvs: seq<KeyValue>, comma: Gaps, colon: Gaps,
                       commas: seq<Gaps>, colons: seq<Gaps>, rest: string)
    requires |commas| == |kvs| && |colons| == |kvs|
    requires IsGaps(comma) && IsGaps(colon) && AreGaps(commas) && AreGaps(colons)
    requires s == SpacedComma(comma, SpacedKeyValue(kv, colon, SpacedMoreKeyValues(kvs, commas, colons, rest)))
    ensures IsSpacedMore(s, [kv] + kvs, rest)
  {
    GapsCons(comma, commas);
    GapsCons(colon, colons);
    assert ([kv] + kvs)[1..] == kvs && ([comma] + commas)[1..] == commas && ([colon] + colons)[1..] == colons;
    assert s == SpacedMoreKeyValues([kv] + kvs, [comma] + commas, [colon] + colons, rest);
  }

  /** `s` is the pairs `kvs` in brackets, with spaces, then `rest` */
  ghost predicate IsSpacedList(s: string, kvs: seq<KeyValue>, rest: string) {
    exists sp :: IsListSpacing(sp, |kvs|) && s == SpacedList(kvs, sp, rest)
  }

  /** Whatever `parse_key_value_list` reads as a non-empty list is a spaced
      list of exactly those pairs */
  lemma ListParsedIsSpaced(s: string)
    ensures var r := ParseKeyValueList(s); r.value != [] ==> IsSpacedList(s, r.value, r.rest)
  {
    var r := ParseKeyValueList(s);
    if r.value != [] {
      var open := Tag("[", s);
      var gap := Space0(open.rest);
      var first := ParseKeyValue(gap.rest);
      var more := MoreKeyValues(first.rest);
      var gap' := Space0(more.rest);
      var close := Tag("]", gap'.rest);
      assert r == Done(close.rest, [first.value] + more.value);
      PairParsedIsSpaced(gap.rest);
      var colon :| IsGaps(colon) && gap.rest == SpacedKeyValue(first.value, colon, first.rest);
      MoreParsedIsSpaced(first.rest);
      var commas, colons :| |commas| == |more.value| && |colons| == |more.value|
        && AreGaps(commas) && AreGaps(colons) && first.rest == SpacedMoreKeyValues(more.value, commas, colons, more.rest);
      ListParsedStep(s, first.value, more.value, ListSpacing(gap.value, [colon] + colons, commas, gap'.value), close.rest);
    }
  }

  lemma ListParsedStep(s: string, kv: KeyValue, kvs: seq<KeyValue>, sp: ListSpacing, rest: string)
    requires IsSpaces(sp.open) && IsSpaces(sp.close) && sp.colons != []
    requires |sp.commas| == |kvs| && |sp.colons| == |kvs| + 1
    requires IsGaps(sp.colons[0]) && AreGaps(sp.colons[1..]) && AreGaps(sp.commas)
    requires s == "[" + (sp.open + SpacedKeyValue(kv, sp.colons[0],
                    SpacedMoreKeyValues(kvs, sp.commas, sp.colons[1..], sp.close + ("]" + rest))))
    ensures IsSpacedList(s, [kv] + kvs, rest)
  {
    GapsCons(sp.colons[0], sp.colons[1..]);
    assert [sp.colons[0]] + sp.colons[1..] == sp.colons;
    assert ([kv] + kvs)[1..] == kvs;
    assert IsListSpacing(sp, |[kv] + kvs|) && s == SpacedList([kv] + kvs, sp, rest);
  }

  /** `parse_key_value_list` reads a non-empty list of pairs exactly when
      the text is that list, bracketed, with spaces the grammar allows */
  lemma KeyValueListCharacterised(s: string, kvs: seq<KeyValue>, rest: string)
    requires kvs != []
    ensures ParseKeyValueList(s) == Done(rest, kvs) <==> AreKeyValues(kvs) && IsSpacedList(s, kvs, rest)
  {
    if ParseKeyValueList(s) == Done(rest, kvs) {
      ListParsedIsSpaced(s);
    }
    if AreKeyValues(kvs) && IsSpacedList(s, kvs, rest) {
      var sp :| IsListSpacing(sp, |kvs|) && s == SpacedList(kvs, sp, rest);
      SpacedListRoundTrip(kvs, sp, rest);
    }
  }

  // ---------------------------------------------------------------------
  // A list that is not closed reads nothing

  /** `[` and spaces, then no pair: nothing is read */
  lemma EmptyListReadsNothing(open: string, t: string)
    requires IsSpaces(open)
    requires t == [] || (!IsNameChar(t[0]) && !IsSpace(t[0]))
    ensures ParseKeyValueList("[" + (open + t)) == Done("[" + (open + t), [])
  {
    TagPrefix("[", open + t);
    Space0Exact(open, t);
    assert ParseKeyValue(t).Fail?;
  }

  /** Pairs after `[`, then a tail that neither continues the pairs nor
      closes the list after its spaces: nothing is read, because the
      option list is optional and backs out whole */
  lemma UnclosedPairsReadNothing(kvs: seq<KeyValue>, open: string, colons: seq<Gaps>, commas: seq<Gaps>, tail: string)
    requires kvs != [] && AreKeyValues(kvs) && |colons| == |kvs| && |commas| == |kvs| - 1
    requires IsSpaces(open) && AreGaps(colons) && AreGaps(commas) && EndsPairs(tail)
    requires !("]" <= Space0(tail).rest)
    ensures var s := "[" + (open + SpacedKeyValues(kvs, colons, commas, tail));
      ParseKeyValueList(s) == Done(s, [])
  {
    var pairs := SpacedKeyValues(kvs, colons, commas, tail);
    TagPrefix("[", open + pairs);
    SpacedKeyValueStart(kvs[0], colons[0], SpacedMoreKeyValues(kvs[1..], commas, colons[1..], tail));
    Space0Exact(open, pairs);
    SpacedKeyValuesRoundTrip(kvs, colons, commas, tail);
  }

  /** A comma after the last pair, not followed by a pair (`[a: 1,]`): the
      loop leaves the comma, which does not close the list */
  lemma TrailingCommaReadsNothing(kvs: seq<KeyValue>, open: string, colons: seq<Gaps>, commas: seq<Gaps>,
                                  comma: Gaps, t: string)
    requires kvs != [] && AreKeyValues(kvs) && |colons| == |kvs| && |commas| == |kvs| - 1
    requires IsSpaces(open) && AreGaps(colons) && AreGaps(commas) && IsGaps(comma)
    requires t == [] || (!IsNameChar(t[0]) && !IsSpace(t[0]))
    ensures var s := "[" + (open + SpacedKeyValues(kvs, colons, commas, SpacedComma(comma, t)));
      ParseKeyValueList(s) == Done(s, [])
  {
    var tail := SpacedComma(comma, t);
    assert !IsSpace(',') && !IsValueChar(',') && !IsValueChar(' ') && !IsValueChar('\t');
    assert tail[0] == ',' || IsSpace(tail[0]);
    Space0Then(comma.before, ",", comma.after + t);
    TagPrefix(",", comma.after + t);
    Space0Exact(comma.after, t);
    assert Separator(tail) == Done(t, ",");
    assert ParseKeyValue(t).Fail?;
    UnclosedPairsReadNothing(kvs, open, colons, commas, tail);
  }

  /** Two pairs with spaces but no comma between them (`[a: 1 b: 2]`): the
      loop stops after the first, and what follows is not `]` */
  lemma MissingCommaReadsNothing(kvs: seq<KeyValue>, open: string, colons: seq<Gaps>, commas: seq<Gaps>,
                                 gap: string, t: string)
    requires kvs != [] && AreKeyValues(kvs) && |colons| == |kvs| && |commas| == |kvs| - 1
    requires IsSpaces(open) && AreGaps(colons) && AreGaps(commas)
    requires gap != [] && IsSpaces(gap) && t != [] && IsNameChar(t[0])
    ensures var s := "[" + (open + SpacedKeyValues(kvs, colons, commas, gap + t));
      ParseKeyValueList(s) == Done(s, [])
  {
    WordCharsAreNotSpaces(t[0]);
    assert !IsValueChar(' ') && !IsValueChar('\t') && !IsNameChar(',') && !IsNameChar(']');
    Space0Exact(gap, t);
    assert Tag(",", t).Fail?;
    UnclosedPairsReadNothing(kvs, open, colons, commas, gap + t);
  }

  /** The input ends, after spaces perhaps, before the list is closed
      (`[a: 1`): nothing is read */
  lemma CutOffListReadsNothing(kvs: seq<KeyValue>, open: string, colons: seq<Gaps>, commas: seq<Gaps>, gap: string)
    requires kvs != [] && AreKeyValues(kvs) && |colons| == |kvs| && |commas| == |kvs| - 1
    requires IsSpaces(open) && AreGaps(colons) && AreGaps(commas) && IsSpaces(gap)
    ensures var s := "[" + (open + SpacedKeyValues(kvs, colons, commas, gap));
      ParseKeyValueList(s) == Done(s, [])
  {
    assert !IsValueChar(' ') && !IsValueChar('\t');
    Space0Exact(gap, []);
    assert gap + [] == gap;
    UnclosedPairsReadNothing(kvs, open, colons, commas, gap);
  }

  // ---------------------------------------------------------------------
  // Spaced headers

  /** The spaces of a header: after `block`, after the name, those of the
      option list, before the mark when there are options, and after the
      mark */
  datatype HeaderSpacing = HeaderSpacing(afterKeyword: string, afterName: string, list: ListSpacing,
                                         beforeMark: string, afterMark: string)

  /** Spacing for a header with `n` options; `space1` asks for at least
      one space after `block` and after the name */
  predicate IsHeaderSpacing(hs: HeaderSpacing, n: nat) {
    && hs.afterKeyword != [] && IsSpaces(hs.afterKeyword)
    && hs.afterName != [] && IsSpaces(hs.afterName)
    && IsSpaces(hs.beforeMark) && IsSpaces(hs.afterMark)
    && (n > 0 ==> IsListSpacing(hs.list, n))
  }

  /** The option list, if any, then `marked` */
  function SpacedOptions(options: seq<KeyValue>, hs: HeaderSpacing, marked: string): (s: string)
    requires IsHeaderSpacing(hs, |options|)
  {
    if options == [] then marked else SpacedList(options, hs.list, hs.beforeMark + marked)
  }

  /** `block <name> [k: v, ...]` at `level`, with the spaces of `hs`, then
      `marked`: the mark and whatever follows it */
  function SpacedHeaderThen(level: nat, name: string, options: seq<KeyValue>,
                            hs: HeaderSpacing, marked: string): (s: string)
    requires IsHeaderSpacing(hs, |options|)
  {
    Indent(level) + ("block" + (hs.afterKeyword + (name + (hs.afterName + SpacedOptions(options, hs, marked)))))
  }

  /** `block <name> [k: v, ...] <mark>` and a newline at `level`, with the
      spaces of `hs`, then `body` */
  function SpacedHeader(level: nat, mark: string, name: string, options: seq<KeyValue>,
                        hs: HeaderSpacing, body: string): (s: string)
    requires IsHeaderSpacing(hs, |options|)
  {
    SpacedHeaderThen(level, name, options, hs, mark + (hs.afterMark + ("\n" + body)))
  }

  /** The spaces before the mark that are left after the options: with
      no options, the spaces after the name took them all */
  function MarkGap(options: seq<KeyValue>, hs: HeaderSpacing): (gap: string)
    ensures IsSpaces(hs.beforeMark) ==> IsSpaces(gap)
  {
    if options == [] then [] else hs.beforeMark
  }

  /** What may follow the spaces after the name when a header has no
      options: no more spaces, and nothing the option list reads */
  predicate NoOptionsFollow(t: string) {
    (t == [] || !IsSpace(t[0])) && ParseKeyValueList(t).value == []
  }

  /** `indented_parse_construct_info(level)` reads a spaced header up to
      whatever follows its options */
  lemma HeaderInfoReadsUpTo(level: nat, name: string, options: seq<KeyValue>, hs: HeaderSpacing, marked: string)
    requires IsName(name) && AreKeyValues(options) && IsHeaderSpacing(hs, |options|)
    requires options == [] ==> NoOptionsFollow(marked)
    ensures IndentedParseConstructInfo(level, SpacedHeaderThen(level, name, options, hs, marked))
        == Done(MarkGap(options, hs) + marked, (name, options))
  {
    var tail := MarkGap(options, hs) + marked;
    var s4 := SpacedOptions(options, hs, marked);
    var s3 := hs.afterName + s4;
    var s2 := name + s3;
    var s1 := hs.afterKeyword + s2;
    WordCharsAreNotSpaces(name[0]);
    TakeWhile1Exact(IsSpace, hs.afterKeyword, s2);
    assert !IsNameChar(' ') && !IsNameChar('\t');
    TakeWhile1Exact(IsNameChar, name, s3);
    assert !IsSpace('[');
    TakeWhile1Exact(IsSpace, hs.afterName, s4);
    if options == [] {
      assert tail == s4;
      assert ParseKeyValueList(s4) == Done(tail, []);
    } else {
      SpacedListRoundTrip(options, hs.list, hs.beforeMark + marked);
    }
    ConstructInfoStep(level, s1, s2, name, s3, s4, options, tail, hs.afterKeyword, hs.afterName);
  }

  /** A mark leaves no room for options */
  lemma MarkEndsOptions(mark: string, t: string)
    requires mark == "=" || mark == "=*"
    ensures NoOptionsFollow(mark + t)
  {
    assert (mark + t)[0] == '=';
    assert !("[" <= mark + t);
  }

  /** `indented_parse_construct_info(level)` reads back a spaced header
      and leaves the spaces before its mark */
  lemma SpacedHeaderInfoRoundTrip(level: nat, mark: string, name: string, options: seq<KeyValue>,
                                  hs: HeaderSpacing, body: string)
    requires mark == "=" || mark == "=*"
    requires IsName(name) && AreKeyValues(options) && IsHeaderSpacing(hs, |options|)
    ensures IndentedParseConstructInfo(level, SpacedHeader(level, mark, name, options, hs, body))
        == Done(MarkGap(options, hs) + (mark + (hs.afterMark + ("\n" + body))), (name, options))
  {
    MarkEndsOptions(mark, hs.afterMark + ("\n" + body));
    HeaderInfoReadsUpTo(level, name, options, hs, mark + (hs.afterMark + ("\n" + body)));
  }

  // ---------------------------------------------------------------------
  // Every header read is a spaced header

  /** `s` is a header at `level` naming `name` and `options`, with spaces
      the grammar allows, then `tail` */
  ghost predicate IsSpacedHeaderInfo(level: nat, s: string, name: string, options: seq<KeyValue>, tail: string) {
    exists hs :: IsHeaderSpacing(hs, |options|) && hs.beforeMark == [] && s == SpacedHeaderThen(level, name, options, hs, tail)
  }

  /** Whatever `indented_parse_construct_info(level)` reads is a spaced
      header of the name and options it yields */
  lemma HeaderInfoParsedIsSpaced(level: nat, s: string)
    ensures var r := IndentedParseConstructInfo(level, s);
      r.Done? ==> IsSpacedHeaderInfo(level, s, r.value.0, r.value.1, r.rest)
                  && (r.value.1 == [] ==> NoOptionsFollow(r.rest))
  {
    var r := IndentedParseConstructInfo(level, s);
    if r.Done? {
      var indentation := Tag(Indent(level), s);
      var keyword := Tag("block", indentation.rest);
      var gap := Space1(keyword.rest);
      var name := ParseValidName(gap.rest);
      var gap' := Space1(name.rest);
      var options := ParseKeyValueList(gap'.rest);
      assert r == Done(options.rest, (name.value, options.value));
      assert s == Indent(level) + ("block" + (gap.value + (name.value + (gap'.value + gap'.rest))));
      HeaderInfoPiecesAreSpaced(level, s, gap.value, name.value, gap'.value, gap'.rest, options.value, options.rest);
    }
  }

  lemma HeaderInfoPiecesAreSpaced(level: nat, s: string, gap: string, name: string, gap': string, s4: string,
                                  options: seq<KeyValue>, tail: string)
    requires gap != [] && IsSpaces(gap) && gap' != [] && IsSpaces(gap')
    requires s == Indent(level) + ("block" + (gap + (name + (gap' + s4))))
    requires s4 == [] || !IsSpace(s4[0])
    requires ParseKeyValueList(s4) == Done(tail, options)
    ensures IsSpacedHeaderInfo(level, s, name, options, tail)
    ensures options == [] ==> NoOptionsFollow(tail)
  {
    if options == [] {
      var hs := HeaderSpacing(gap, gap', ListSpacing([], [], [], []), [], []);
      HeaderInfoStep(level, s, name, [], hs, tail);
    } else {
      ListParsedIsSpaced(s4);
      var sp :| IsListSpacing(sp, |options|) && s4 == SpacedList(options, sp, tail);
      var hs := HeaderSpacing(gap, gap', sp, [], []);
      assert [] + tail == tail;
      HeaderInfoStep(level, s, name, options, hs, tail);
    }
  }

  lemma HeaderInfoStep(level: nat, s: string, name: string, options: seq<KeyValue>, hs: HeaderSpacing, tail: string)
    requires IsHeaderSpacing(hs, |options|) && hs.beforeMark == []
    requires s == Indent(level) + ("block" + (hs.afterKeyword + (name + (hs.afterName + SpacedOptions(options, hs, tail)))))
    ensures IsSpacedHeaderInfo(level, s, name, options, tail)
  {
    assert s == SpacedHeaderThen(level, name, options, hs, tail);
  }

  /** `indented_parse_construct_info(level)` reads a name and options up
      to `tail` exactly when the text is a spaced header of them followed
      by `tail`, and, without options, `tail` starts neither with a space
      nor with an option list */
  lemma HeaderInfoCharacterised(level: nat, s: string, name: string, options: seq<KeyValue>, tail: string)
    ensures IndentedParseConstructInfo(level, s) == Done(tail, (name, options))
        <==> && IsName(name) && AreKeyValues(options) && IsSpacedHeaderInfo(level, s, name, options, tail)
             && (options == [] ==> NoOptionsFollow(tail))
  {
    if IndentedParseConstructInfo(level, s) == Done(tail, (name, options)) {
      HeaderInfoParsedIsSpaced(level, s);
    }
    if IsName(name) && AreKeyValues(options) && IsSpacedHeaderInfo(level, s, name, options, tail)
       && (options == [] ==> NoOptionsFollow(tail)) {
      var hs :| IsHeaderSpacing(hs, |options|) && hs.beforeMark == [] && s == SpacedHeaderThen(level, name, options, hs, tail);
      HeaderInfoReadsUpTo(level, name, options, hs, tail);
      assert MarkGap(options, hs) + tail == tail;
    }
  }

  // ---------------------------------------------------------------------
  // The start mark

  /** `s` is spaces, `mark`, spaces and a newline, then `body` */
  ghost predicate IsSpacedStartMark(mark: string, s: string, body: string) {
    exists gap, gap' :: IsSpaces(gap) && IsSpaces(gap') && s == gap + (mark + (gap' + ("\n" + body)))
  }

  /** Whatever `custom_parse_child_start_mark(mark)` reads is the mark
      with spaces on both sides, and the newline */
  lemma StartMarkParsedIsSpaced(mark: string, s: string)
    ensures var r := CustomParseChildStartMark(mark, s); r.Done? ==> IsSpacedStartMark(mark, s, r.rest)
  {
    var r := CustomParseChildStartMark(mark, s);
    if r.Done? {
      var lead := Space0(s);
      var marked := Tag(mark, lead.rest);
      var trail := Space0(marked.rest);
      var nl := Newline(trail.rest);
      assert r.rest == nl.rest;
      assert trail.rest == "\n" + nl.rest;
      assert s == lead.value + (mark + (trail.value + ("\n" + r.rest)));
    }
  }

  /** `custom_parse_child_start_mark(mark)` reads up to `body` exactly
      when the text is the mark with spaces on both sides, a newline and
      `body` */
  lemma StartMarkCharacterised(mark: string, s: string, body: string)
    requires mark == "=" || mark == "=*"
    ensures CustomParseChildStartMark(mark, s) == Done(body, ()) <==> IsSpacedStartMark(mark, s, body)
  {
    if CustomParseChildStartMark(mark, s) == Done(body, ()) {
      StartMarkParsedIsSpaced(mark, s);
    }
    if IsSpacedStartMark(mark, s, body) {
      var gap, gap' :| IsSpaces(gap) && IsSpaces(gap') && s == gap + (mark + (gap' + ("\n" + body)));
      StartMarkRoundTrip(mark, gap, gap', body);
    }
  }

  /** A header line ended by `\r\n`: `newline` does not accept the `\r`,
      so neither construct parser reads the header */
  lemma CrlfHeaderRefused(mark: string, level: nat, name: string, options: seq<KeyValue>,
                          hs: HeaderSpacing, body: string)
    requires mark == "=" || mark == "=*"
    requires IsName(name) && AreKeyValues(options) && IsHeaderSpacing(hs, |options|)
    ensures ParseConstructWithMark(mark, level,
              SpacedHeaderThen(level, name, options, hs, mark + (hs.afterMark + ("\r\n" + body)))).Fail?
  {
    var marked := mark + (hs.afterMark + ("\r\n" + body));
    var gap := MarkGap(options, hs);
    MarkEndsOptions(mark, hs.afterMark + ("\r\n" + body));
    HeaderInfoReadsUpTo(level, name, options, hs, marked);
    CrlfStartMarkRefused(mark, gap, hs.afterMark, body);
    ConstructNeedsStartMark(mark, level, SpacedHeaderThen(level, name, options, hs, marked), gap + marked);
  }

  lemma CrlfStartMarkRefused(mark: string, gap: string, gap': string, body: string)
    requires mark == "=" || mark == "=*"
    requires IsSpaces(gap) && IsSpaces(gap')
    ensures CustomParseChildStartMark(mark, gap + (mark + (gap' + ("\r\n" + body)))).Fail?
  {
    Space0Then(gap, mark, gap' + ("\r\n" + body));
    TagPrefix(mark, gap' + ("\r\n" + body));
    assert !IsSpace('\r');
    Space0Exact(gap', "\r\n" + body);
    assert Newline("\r\n" + body).Fail?;
  }

  /** A construct parser fails where the start mark fails after the header */
  lemma ConstructNeedsStartMark(mark: string, level: nat, s: string, t: string)
    requires IndentedParseConstructInfo(level, s).Done? && IndentedParseConstructInfo(level, s).rest == t
    requires CustomParseChildStartMark(mark, t).Fail?
    ensures ParseConstructWithMark(mark, level, s).Fail?
  {
  }

  /** A notebook whose first header line ends in `\r\n` reads as no
      construct at all */
  lemma CrlfNotebookReadsNothing(level: nat, name: string, options: seq<KeyValue>, hs: HeaderSpacing, body: string)
    requires IsName(name) && AreKeyValues(options) && IsHeaderSpacing(hs, |options|)
    ensures var s := SpacedHeaderThen(level, name, options, hs, "=" + (hs.afterMark + ("\r\n" + body)));
      IndentedParseBlocks(level, s) == Done(s, [])
  {
    CrlfHeaderRefused("=", level, name, options, hs, body);
  }
}
