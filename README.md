# Notebook parser and kernel message queue, in Dafny

This project models two pieces of the notebook application and proves what
they do.

**The notebook text parser** (`crates/document/src/notebook/parser.rs`) is
written with nom 7's `complete` parser combinators. A notebook is a sequence
of constructs. Each construct has:

- a header line `block <name> [key: value, ...] =`, or one ending in `=*`;
- then its child lines, each indented one level (two spaces) deeper than the
  header.

Module `Nom` restates the nom combinators the parser uses, first-order: each
parser maps the input to `Done(rest, value)` or `Fail`. That covers `tag`,
`take_while1`, `space0`, `space1`, `newline`, `line_ending` and
`not_line_ending`. The last of these rejects a carriage return that is not
followed by a newline.

Module `NotebookParser` holds one function per parser function of the source.
The combinators `opt`, `peek`, `delimited`, `tuple`, `many0` and
`separated_list1` are written out inline. Every function's contract states
that it only ever consumes a prefix of its input, and the shape of what it
returns. For the name, value, line and end-mark parsers it also states
exactly when they succeed and what they read. The option-list reader and the
run-of-constructs reader never fail, and their contracts state when they read
nothing. The other parsers (pair, separator, bracketed list, header info,
start mark, line loop, construct) are characterised in both directions by
the lemmas of `NotebookSpacing` and `NotebookConstructs` instead. Each such
lemma states that the parser reads exactly the texts of a given form: a
round trip for one direction, and a converse for the other.

Module `NotebookFormat` writes blocks back out as text, with single spaces.
Its round-trip lemmas prove that a pair, an option list, a line and a header
are read back exactly as written. A construct, and a run of constructs, are
read back with each construct's trailing empty child lines dropped.

Module `NotebookSpacing` allows every spacing the parsers accept: spaces
after `[`, around `:` and `,`, before `]`, after `block` and the name, and
around the start mark. It proves the same round trips for any such spacing.
For the option list, the header info and the start mark it also proves the
converse: whatever is read comes from such a spaced text. Together these
give if-and-only-if characterisations (`KeyValueListCharacterised`,
`HeaderInfoCharacterised`, `StartMarkCharacterised`). It then shows that an
empty, unclosed, cut-off list, or one with a trailing or missing comma,
yields no options and consumes nothing.

Module `NotebookConstructs` gives each child line its own ending: `\n`,
`\r\n`, or nothing when the line ends the input. It proves that the line
loop, a construct and a run of constructs read back such text with any
header spacing. It also proves the converses and the if-and-only-if
characterisations of the line loop (`LinesCharacterised`) and of a
construct (`ConstructCharacterised`).

Module `NotebookExamples` proves each unit test of `parser.rs` as a lemma. It
also proves what the nested-block test (marked as ignored in the source)
actually gets.

**The kernel message queue** (`crates/kernel/src/message_queue.rs`) is a
first-in first-out queue. It records a capacity when it is created. Module
`MessageQueues` models it as a class over a `seq` of messages, whose methods
are proved against the value-level functions `PushBack` and `PopFront`.
Client methods show that:

- the pops return what was pushed, in order, and then nothing;
- the capacity never changes;
- the size may pass the capacity, because `push` never checks it.

Module `Wrappers` holds `Option`.

Facts the proofs bring out:

- `indented_block` tries the line parser first. Every header that
  `indented_parse_block_with_child_as_block` accepts is itself a line of the
  same indentation (`NotebookParser.HeaderIsLine`). So the second alternative
  of `indented_block` never succeeds, and `indented_block` reads exactly
  lines, as values (`NotebookParser.IndentedBlock`). Its construct branch is
  dead code.
- `indented_parse_construct` refuses the `=*` header of the nested-block test.
  `indented_parse_block_with_child_as_block` accepts it, but it returns the
  inner headers and lines as plain values (`NotebookExamples.NestedExample`).
  Nesting is not implemented in the source, and its test is marked ignored.
- An empty child line that is not indented ends a construct. No construct
  starts on that line, so `indented_parse_blocks` stops there and leaves the
  following blocks unread (`NotebookExamples.UnindentedEmptyLineExample`).
  The comment at `parser.rs:290-291` warns about this.
- Child lines may end in `\r\n` (`line_ending`, `parser.rs:89-90`), but the
  header line may not: the start mark is followed by `newline`
  (`parser.rs:129`), which reads only `\n`. So a header ending in `\r\n` is
  refused by both construct parsers (`NotebookSpacing.CrlfHeaderRefused`).
  A notebook written with CRLF line breaks reads as no construct at all
  (`NotebookSpacing.CrlfNotebookReadsNothing`).
- `QueueError::MessageOverload` is declared but never raised. `push` appends
  past the capacity (`MessageQueues.PushPastCapacity`).

## Model

| member | source | states |
|---|---|---|
| NotebookParser.Indent | crates/document/src/notebook/parser.rs:86 | `TAB.repeat(level)` is `2 * level` spaces |
| NotebookParser.AlphanumericByteIsModulo | crates/document/src/notebook/parser.rs:44 | `is_alphanumeric(c as u8)` tests the low eight bits of the code point, i.e. the code point modulo 256, so some non-ASCII characters pass as letters or digits |
| NotebookParser.ParseValidName | crates/document/src/notebook/parser.rs:43-46 | succeeds exactly when the first character is a name character; reads the longest run of name characters and stops before a character that is not one |
| NotebookParser.ParseValueString | crates/document/src/notebook/parser.rs:48-51 | the same for value characters (alphanumeric, `.`, `_`, `-`) |
| NotebookParser.ParseKeyValue | crates/document/src/notebook/parser.rs:53-61 | fails on input that does not start with a name character; on success consumes a non-empty prefix and yields a valid name and value |
| NotebookParser.Separator | crates/document/src/notebook/parser.rs:64 | on success consumes at least the comma and leaves a suffix |
| NotebookParser.MoreKeyValues | crates/document/src/notebook/parser.rs:70 | the repetition inside `separated_list1` never fails; it yields valid pairs and reads nothing exactly when it yields nothing |
| NotebookParser.SeparatedKeyValues | crates/document/src/notebook/parser.rs:70 | on success yields at least one valid pair and consumes input |
| NotebookParser.BracketedKeyValues | crates/document/src/notebook/parser.rs:65-72 | on success the input starts with `[` and a non-empty list of valid pairs is read |
| NotebookParser.ParseKeyValueList | crates/document/src/notebook/parser.rs:63-82 | never fails; reads nothing exactly when it yields no pair, and yields pairs only from input starting with `[` |
| NotebookParser.IndentedParseLine | crates/document/src/notebook/parser.rs:84-94 | succeeds exactly when the input starts with the indentation and the line holds no lone carriage return; yields the line without the indentation, and consumes one line ending or reaches the end |
| NotebookParser.ManyLines | crates/document/src/notebook/parser.rs:155 | at a level above 0, never fails; yields lines without line breaks and stops where the next line parser fails |
| NotebookParser.IndentedParseConstructInfo | crates/document/src/notebook/parser.rs:105-123 | on success the input starts with the indentation and `block`; yields a valid name and valid options |
| NotebookParser.CustomParseChildStartMark | crates/document/src/notebook/parser.rs:125-134 | on success consumes a non-empty prefix |
| NotebookParser.PeekHeaderLine | crates/document/src/notebook/parser.rs:143 | succeeds exactly when the input starts with a newline, the indentation and `block`, and consumes nothing |
| NotebookParser.IndentedParseChildEndMark | crates/document/src/notebook/parser.rs:136-147 | never fails and never consumes; yields `Some` exactly when a header line at the level follows |
| NotebookParser.ReverseAt | crates/document/src/notebook/parser.rs:217 | reversing puts the element at position `j` from the start at position `j` from the end |
| NotebookParser.SkipEmpty | crates/document/src/notebook/parser.rs:218 | `skip_while` keeps a suffix that does not start with an empty string, and everything skipped is empty |
| NotebookParser.TrimEmptyStringsAtVecEnd | crates/document/src/notebook/parser.rs:214-223 | the result is a prefix of the input that does not end in an empty string, and everything dropped is empty |
| NotebookParser.TrimCharacterised | crates/document/src/notebook/parser.rs:214-223 | in both directions: a sequence is the result exactly when it is such a prefix |
| NotebookParser.TrimmedIsUnchanged | crates/document/src/notebook/parser.rs:214-223 | a sequence that does not end in an empty string is returned unchanged |
| NotebookParser.TrimIdempotent | crates/document/src/notebook/parser.rs:214-223 | trimming twice is trimming once |
| NotebookParser.TrimDropsTrailingEmpty | crates/document/src/notebook/parser.rs:214-223 | appending empty strings does not change the result, so empty strings in the middle are kept |
| NotebookParser.TrimIsDropTrailingEmpty | crates/document/src/notebook/parser.rs:214-223 | reverse, skip, reverse equals the reference definition that removes the last string while it is empty |
| NotebookParser.TrimmedLinesAreFlatChildren | crates/document/src/notebook/parser.rs:164-167 | the children built from the trimmed lines are values without line breaks, and the last one is not empty |
| NotebookParser.ParseConstructWithMark | crates/document/src/notebook/parser.rs:149-197 | on success the input starts with the header keyword; yields a construct with a valid name, valid options and flat children; stops where no child line follows |
| NotebookParser.IndentedParseBlocks | crates/document/src/notebook/parser.rs:199-201 | never fails; reads nothing exactly when no construct starts the input; yields well-formed constructs and stops where no construct starts |
| NotebookParser.KeyValueOnLine | crates/document/src/notebook/parser.rs:53-61 | a pair is read within one line: what it consumes holds no line break |
| NotebookParser.KeyValueListOnLine | crates/document/src/notebook/parser.rs:63-82 | the option list is read within one line |
| NotebookParser.ConstructInfoOnLine | crates/document/src/notebook/parser.rs:105-123 | after the indentation, the header info is read within one line |
| NotebookParser.StartMarkOnLine | crates/document/src/notebook/parser.rs:125-134 | the start mark and its spaces lie on one line, and the newline that ends it is consumed |
| NotebookParser.HeaderIsLine | crates/document/src/notebook/parser.rs:84-134 | whenever a construct parser accepts its input, the line parser at the same level accepts that input too |
| NotebookParser.StartMarksExclusive | crates/document/src/notebook/parser.rs:125-134 | input accepted by the `=` start mark is refused by the `=*` start mark |
| NotebookParser.ConstructMarksExclusive | crates/document/src/notebook/parser.rs:149-197 | input accepted by the `=` construct parser is refused by the `=*` one |
| NotebookParser.IndentedParseConstruct | crates/document/src/notebook/parser.rs:149-171 | on success yields a well-formed construct and consumes part of the input, and `indented_parse_block_with_child_as_block` refuses that input |
| NotebookParser.IndentedParseBlockWithChildAsBlock | crates/document/src/notebook/parser.rs:173-197 | on success yields a well-formed construct and consumes part of the input, and the line parser at the same level accepts that input |
| NotebookParser.IndentedBlock | crates/document/src/notebook/parser.rs:203-212 | succeeds exactly when the line parser does, and then returns that line as a value: the construct alternative never succeeds |
| NotebookFormat.KeyValueRoundTrip | crates/document/src/notebook/parser.rs:53-61 | a name, any spaces, a colon, any spaces and a value are read back as that pair, up to the value's end |
| NotebookFormat.RenderedKeyValueRoundTrip | crates/document/src/notebook/parser.rs:53-61 | the written `key: value` is read back |
| NotebookFormat.MoreKeyValuesRoundTrip | crates/document/src/notebook/parser.rs:70 | the written `, key: value` pairs are read back, stopping before `]` |
| NotebookFormat.SeparatedKeyValuesRoundTrip | crates/document/src/notebook/parser.rs:70 | a written non-empty pair list is read back, stopping before `]` |
| NotebookFormat.KeyValueListRoundTrip | crates/document/src/notebook/parser.rs:63-82 | a written bracketed list is read back, whatever follows it |
| NotebookFormat.LineRoundTrip | crates/document/src/notebook/parser.rs:84-94 | a line written at a level is read back, with `\n`, `\r\n` or the end of the input after it |
| NotebookFormat.LinesRoundTrip | crates/document/src/notebook/parser.rs:155 | written lines are all read back, stopping where the indentation stops |
| NotebookFormat.HeaderInfoRoundTrip | crates/document/src/notebook/parser.rs:105-123 | a written header is read back as its name and options, leaving the mark unread |
| NotebookFormat.StartMarkRoundTrip | crates/document/src/notebook/parser.rs:125-134 | any spaces, the mark, any spaces and the newline are consumed, and the body after them is left |
| NotebookFormat.StartMarkMismatch | crates/document/src/notebook/parser.rs:125-134 | `=` is refused where `=*` is written, and the other way round |
| NotebookFormat.ChildLinesRoundTrip | crates/document/src/notebook/parser.rs:153-157 | a construct's child lines, written one level deeper, are read back |
| NotebookFormat.ConstructRoundTrip | crates/document/src/notebook/parser.rs:149-197 | a written construct is read back with its trailing empty lines dropped, up to the first line not indented one level deeper |
| NotebookFormat.ConstructMarkMismatch | crates/document/src/notebook/parser.rs:149-197 | each construct parser refuses a header with the other mark |
| NotebookFormat.BlocksRoundTrip | crates/document/src/notebook/parser.rs:199-201 | constructs written one after another are all read back, each with its trailing empty lines dropped |
| NotebookSpacing.SpacedKeyValueRoundTrip | crates/document/src/notebook/parser.rs:53-61 | a name, any spaces, `:`, any spaces and a value are read back as that pair |
| NotebookSpacing.SpacedCommaRoundTrip | crates/document/src/notebook/parser.rs:64 | a comma with any spaces around it is consumed, up to the next non-space |
| NotebookSpacing.SpacedMoreRoundTrip | crates/document/src/notebook/parser.rs:70 | pairs each preceded by a spaced comma are all read back, stopping at what ends the pairs |
| NotebookSpacing.SpacedKeyValuesRoundTrip | crates/document/src/notebook/parser.rs:70 | a non-empty pair list with any spacing is read back |
| NotebookSpacing.SpacedListRoundTrip | crates/document/src/notebook/parser.rs:63-82 | a bracketed list with any spacing after `[`, around `:` and `,` and before `]` is read back, whatever follows |
| NotebookSpacing.PairParsedIsSpaced | crates/document/src/notebook/parser.rs:53-61 | every pair read is a valid name, spaced colon and value followed by the rest |
| NotebookSpacing.CommaParsedIsSpaced | crates/document/src/notebook/parser.rs:64 | every separator read is a comma with spaces around it followed by the rest |
| NotebookSpacing.MoreParsedIsSpaced | crates/document/src/notebook/parser.rs:70 | whatever the repetition reads is a run of spaced commas and pairs, yielding those pairs |
| NotebookSpacing.ListParsedIsSpaced | crates/document/src/notebook/parser.rs:63-82 | every non-empty option list read comes from a spaced bracketed text of those pairs |
| NotebookSpacing.KeyValueListCharacterised | crates/document/src/notebook/parser.rs:63-82 | in both directions: the list reader yields a non-empty list of pairs and a rest exactly when the pairs are valid and the input is a spaced bracketed list of them followed by that rest |
| NotebookSpacing.EmptyListReadsNothing | crates/document/src/notebook/parser.rs:65-74 | `[` with no pair (`[]`, `[ ]`) yields no options and consumes nothing |
| NotebookSpacing.UnclosedPairsReadNothing | crates/document/src/notebook/parser.rs:65-74 | pairs not followed by `]` yield no options and consume nothing, since `opt` backs out of the whole list |
| NotebookSpacing.TrailingCommaReadsNothing | crates/document/src/notebook/parser.rs:64-74 | a trailing comma (`[a:1,]`) yields no options and consumes nothing |
| NotebookSpacing.MissingCommaReadsNothing | crates/document/src/notebook/parser.rs:64-74 | two pairs without a comma (`[a:1 b:2]`) yield no options and consume nothing |
| NotebookSpacing.CutOffListReadsNothing | crates/document/src/notebook/parser.rs:66-74 | a list cut off before `]` (`[a:1`) yields no options and consumes nothing |
| NotebookSpacing.SpacedHeaderInfoRoundTrip | crates/document/src/notebook/parser.rs:105-123 | a header with any spacing after `block`, the name and inside the list is read back as its name and options, leaving the mark |
| NotebookSpacing.HeaderInfoReadsUpTo | crates/document/src/notebook/parser.rs:105-123 | a header with any spacing is read as its name and options, up to what follows the options; without options, that must start with no space and no option list |
| NotebookSpacing.HeaderInfoParsedIsSpaced | crates/document/src/notebook/parser.rs:105-123 | whatever the header-info parser reads is a spaced header of the name and options it yields; without options, the rest starts with no space and no option list |
| NotebookSpacing.HeaderInfoCharacterised | crates/document/src/notebook/parser.rs:105-123 | in both directions: the header-info parser yields a name, options and a rest exactly when they are valid and the input is a spaced header of them followed by that rest |
| NotebookSpacing.StartMarkParsedIsSpaced | crates/document/src/notebook/parser.rs:125-134 | whatever the start-mark parser reads is spaces, the mark, spaces and a newline |
| NotebookSpacing.StartMarkCharacterised | crates/document/src/notebook/parser.rs:125-134 | in both directions: the start-mark parser reads up to a rest exactly when the input is spaces, the mark, spaces, a newline and that rest |
| NotebookSpacing.CrlfHeaderRefused | crates/document/src/notebook/parser.rs:125-134 | a header whose mark is followed by `\r\n` is refused by both construct parsers, because `newline` does not read `\r` |
| NotebookSpacing.CrlfNotebookReadsNothing | crates/document/src/notebook/parser.rs:199-201 | a notebook whose first header line ends in `\r\n` yields no construct and consumes nothing |
| NotebookConstructs.NewlineEndedLines | crates/document/src/notebook/parser.rs:84-94 | lines each ended by `\n` are the written form of `NotebookFormat` |
| NotebookConstructs.EndedLinesRoundTrip | crates/document/src/notebook/parser.rs:155 | lines at a level, each ended by `\n`, `\r\n` or the end of the input, are all read back, stopping where the line parser stops |
| NotebookConstructs.LinesParsedAreEnded | crates/document/src/notebook/parser.rs:155 | whatever the line loop reads is the lines it yields, each with one of those endings |
| NotebookConstructs.LinesCharacterised | crates/document/src/notebook/parser.rs:155 | in both directions: the line loop yields lines and a rest exactly when the lines hold no line break, the input is those lines with their endings followed by the rest, and no line starts the rest |
| NotebookConstructs.SpacedConstructRoundTrip | crates/document/src/notebook/parser.rs:149-197 | a construct with any header spacing and any child line endings is read back with its trailing empty lines dropped |
| NotebookConstructs.ConstructParsedIsSpaced | crates/document/src/notebook/parser.rs:149-197 | whatever a construct parser reads is a spaced header with that mark and child lines with their endings, whose trimmed values are the children |
| NotebookConstructs.ConstructCharacterised | crates/document/src/notebook/parser.rs:149-197 | in both directions: a construct parser yields a block and a rest exactly when the block is a valid construct, the input is such a spaced construct of it, and no child line starts the rest |
| NotebookConstructs.SpacedBlocksRoundTrip | crates/document/src/notebook/parser.rs:199-201 | constructs written one after another, each with its own header spacing and child line endings, are all read back |
| NotebookExamples.KeyValueExample | crates/document/src/notebook/parser.rs:231-237 | `a: 1.00` reads as `("a", "1.00")` and consumes everything |
| NotebookExamples.KeyValueListExample | crates/document/src/notebook/parser.rs:239-248 | `[ a:1 ,b:2]` reads as two pairs and consumes everything |
| NotebookExamples.IndentedLineExample | crates/document/src/notebook/parser.rs:250-256 | `indented_parse_line(1)` strips the two leading spaces |
| NotebookExamples.ConstructExample | crates/document/src/notebook/parser.rs:269-286 | the `executable` block reads with its option and two child values |
| NotebookExamples.MultiBlocksExample | crates/document/src/notebook/parser.rs:288-314 | two `text` blocks with indented empty lines read as two constructs, without the empty children |
| NotebookExamples.UnindentedEmptyLineExample | crates/document/src/notebook/parser.rs:290-291 | with an unindented empty line, only the first block is read and the rest is left over |
| NotebookExamples.EmptyConfigExample | crates/document/src/notebook/parser.rs:316-329 | a header without options reads with no options |
| NotebookExamples.NestedExample | crates/document/src/notebook/parser.rs:331-371 | the nested input is refused by `indented_parse_construct(0)`; the `=*` parser returns its inner lines as flat values, not the nested constructs the test expects |
| MessageQueues.PushBack | crates/kernel/src/message_queue.rs:25-27 | the message goes behind every message already queued |
| MessageQueues.PopFront | crates/kernel/src/message_queue.rs:29-31 | an empty queue yields `None` and stays empty; otherwise the front is yielded and the rest stays |
| MessageQueues.PopAfterPush | crates/kernel/src/message_queue.rs:25-31 | a pop after a push yields the pushed message on an empty queue, otherwise the old front |
| MessageQueues.PushAllAppends | crates/kernel/src/message_queue.rs:25-27 | pushing messages in order appends them in order |
| MessageQueues.DrainYieldsQueue | crates/kernel/src/message_queue.rs:29-31 | popping until `None` yields the queue front first |
| MessageQueues.FifoRoundTrip | crates/kernel/src/message_queue.rs:25-31 | messages pushed on an empty queue are popped in the same order |
| MessageQueues.MessageQueue.WithCapacity | crates/kernel/src/message_queue.rs:9-15 | the new queue is empty and records `n` |
| MessageQueues.MessageQueue.Push | crates/kernel/src/message_queue.rs:25-27 | the queue becomes `PushBack` of the old queue; the capacity is unchanged |
| MessageQueues.MessageQueue.Pop | crates/kernel/src/message_queue.rs:29-31 | result and new queue are `PopFront` of the old queue; the capacity is unchanged |
| MessageQueues.PushThenPopAll | crates/kernel/src/message_queue.rs:25-31 | pushes then pops through the object: the pops return the pushed messages in order, then `None` |
| MessageQueues.PushPastCapacity | crates/kernel/src/message_queue.rs:25-27 | any number of pushes succeeds: the size equals the number pushed, even past the capacity, and the capacity stays `n` |
| MessageQueues.CreatedWithCapacity | crates/kernel/src/message_queue.rs:39-44 | a queue made with capacity 10 reports capacity 10 and size 0 |
| MessageQueues.PushedMessageIsCounted | crates/kernel/src/message_queue.rs:46-54 | one push gives size 1 |
| MessageQueues.PushedMessageIsPopped | crates/kernel/src/message_queue.rs:56-65 | the pushed message is popped, the next pop yields `None`, and the size is 0 |

## Left out

- `NotebookParsed::parse` (`parser.rs:17-29`) is not modelled: its body is `unimplemented!()`, so it has no behaviour to model.
- nom's error values are reduced to a single `Fail`. The error kind and position of `Err::Error` are not modelled. `Err::Failure` and `Err::Incomplete` cannot arise from the `complete` parsers used.
- Input is modelled as a sequence of characters. nom slices `&str` by bytes, but that changes no result.
- The progress guards of `many0` and `separated_list1`, which fail when an item consumes nothing, are kept. In the source they could fire only for `many0` over lines at level 0, which the source never builds.
- The round trips of `NotebookFormat` use the written form, with single spaces and `\n` endings. `NotebookSpacing` proves them again for every spacing the parsers accept, and `NotebookConstructs` for every child line ending; the child lines are arbitrary text without line breaks throughout.
- Nesting is not modelled. The ignored nested-block test expects nested constructs, but the source does not build them; `NestedExample` proves what it builds instead.
- `MessageQueue.Capacity` and `MessageQueue.Size` are plain accessors without contracts. Their values are stated through the client methods' contracts.
- MessageQueues.MessageQueue.WithCapacity: does not model `VecDeque::with_capacity` preallocating storage, which has no visible effect.
- MessageQueues.MessageQueue.Push: does not model memory exhaustion or `usize` overflow of the length, because the size is an unbounded `nat`.
- `QueueError::MessageOverload` (`lib.rs:17-21`) is not modelled as an error path, because no code raises it. `PushPastCapacity` proves that `push` never fails.
- The kernel (`kernel.rs`), the REPL (`repl.rs`), the message type (`message.rs`), `notebook.rs` and the editor are not part of this model.
- Concurrency is not modelled: the queue has no locking, and the model covers one caller at a time.
