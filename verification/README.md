# Verified models of the web server

This project models the parts of the server whose behaviour is hardest to see from one function at
a time, and proves what they are for.

* **Markdown blocks** (`Markup`, `MarkdownLines`, `MarkdownBlocks`, `MarkdownTags`,
  `MarkdownNesting`, `MarkdownSteps`, `MarkdownDocument`, `MarkdownTables`, `MarkdownItems`,
  `MarkdownTrees`, `MarkdownPages`, `MarkdownTablePages`, `MarkdownParser`).
  A document goes line by line through a chain of nested block parsers. Each list parser rewrites
  the line and hands it down; a nested list closes because it finds the closing tags of an ancestor
  in the text. `MarkdownBlocks.AddLine` is that step on values, `MarkdownParser.BlockParser` is the
  object that does it in place. `Markup.Run` reads HTML one character at a time with a stack of open
  tags; all statements about nesting and kept text are made through it. `MarkdownNesting.Left` and
  `MarkdownSteps.Kept` say, by the width of markers and indentation and without any tags, which text
  a line leaves. `MarkdownItems`, `MarkdownTrees`, `MarkdownPages` and `MarkdownTablePages` start from
  the other end: from literal markers, and from documents with the HTML they must render to.
* **Configuration files** (`ConfigLexer`, `ConfigGrammar`, `ConfigMachine`, `ConfigText`,
  `ConfigEnding`, `ConfigLayout`, `ConfigLookup`, `ConfigObjects`, `ConfigObjectParser`). The
  tokenizer, the machine with its stack of open blocks, the recursive printer and the depth-first
  lookup, first on values and then as the original's linked objects. The grammar is an independent
  reference: `Block = (word+ (";" | "{" Block "}"))*`. `ConfigLayout` says character by character where
  a word ends, and that the layout of a file does not matter.
* **HTTP** (`HttpRequest`, `HttpGrammar`, `HttpLanguage`, `HttpContinuation`, `HttpSession`,
  `HttpNewlines`, `HttpObjects`, `ProxyRequest`, `HttpReply`, `HttpRoundTrip`, `LinkRewrite`). The
  request parser with its twenty states, the session that normalises newlines and may call itself
  again, the text the reverse proxy forwards, the reply writer and the proxy's reader of replies, and
  the rewriting of links.
* **Dispatch and decoding** (`Handlers`, `Dispatcher`, `DispatchPaths`, `UrlDecode`). The handler
  table built from a configuration, from the words of a location to the answer for a request, the
  longest-prefix dispatch, and the decoder of form-encoded text.

`Shared` holds what several of them use.

Some statements one would expect are false of the code. Each is proved with its exact condition, and
with an input that shows it:

* A forwarded request comes back whole exactly when no folded header line was stored
  (`ProxyRequest.ForwardRoundTrip`; `ProxyRequest.FoldedRequestIsLost` is a request that is accepted
  and forwarded as a bad one). The other half of that condition, a method among the nine, is about
  the model's `None`: a method field that was never set may hold anything, and `None` stands for
  every value outside the enumeration. `ProxyRequest.AcceptedRequestForwards` holds whatever the field
  held before the request was read.
* Rewritten links can be put back exactly when the location begins with a slash or is empty without
  its last one (`LinkRewrite.UndoIff`, with the page of `LinkRewrite.LostLink`).
* The handler count and the described paths match the table exactly when no location clashes
  (`Dispatcher.CountsInStepIff`, with the single location of `Dispatcher.BadRequestElsewhere`).
* A request with the standard's line ends is understood exactly when the whole read ends with CRLF, so
  one with an ordinary body is refused (`HttpNewlines.StandardRequestIff`, with the request of
  `HttpNewlines.BodyIsRefused`).
* A table stays inside the parser's vectors exactly when its separators all follow a row
  (`MarkdownTables.TablesFitIff`, with the document of `MarkdownTables.GapOverruns`).
* A buffer as long as the encoded text is long enough for the decoded one exactly when there is an
  escape in it (`UrlDecode.CallerBufferFits`, with the text of `UrlDecode.LetterOverruns`).
* A bare word that the end of the file cuts off is dropped without an error exactly when the text before
  it does not end in a comment, or the word has no carriage return, or no token and no open quote comes
  after its first one (`ConfigEnding.CutWordIsDropped`, with the word of `ConfigEnding.CutWordInComment`).
* A written reply is read back whole exactly when its header names are trimmed, not empty, and without
  carriage returns or a colon after the first character, and its header values are trimmed and without
  carriage returns (`HttpRoundTrip.WriteThenRead`, with the header of `HttpRoundTrip.ColonIsLost`).

How the code was read where it leaves room:

* Every class of block parser shares one base class; the model has one class with a `kind`.
* The regular expressions that choose and strip blocks are the prefix tests they denote; `.*` stops
  at a line feed and at a carriage return, so a line that contains a carriage return starts no list.
* The order in which `std::map` is walked is a parameter, and nothing proved depends on it.
* `std::string::npos` plus four wraps around to three: the proxy's reader takes a reply without a
  blank line to have a body that starts at its fourth byte. Where the original reads a line past its
  end, or cuts with a start past it, the reader gives no reply.
* A reverse proxy whose port is no number is made as a null pointer, which the table then holds.
* A tree of configuration objects is the value kept in the ghost field `view`; `Closed` says that
  complete objects agree with it all the way down.

## Model

| member | source | states |
|---|---|---|
| MarkdownNesting.ClosingStep | include/maddy/blockparser.h:68-97 | a line that carries an ancestor's closing tags ends the whole chain it reaches in that one step, at any depth and for any mix of lists: the output is the old output, all closers innermost first, then the line |
| MarkdownNesting.TurnStep | include/maddy/unorderedlistparser.h:87-125 | when a list ends or turns to a new item, every descendant ends in the same step and its closers come out before the list's own tags |
| MarkdownNesting.CloseAllRuns | include/maddy/orderedlistparser.h:111-120 | the closers of a chain take exactly the chain's open tags off the reader's stack, whatever is open around it |
| MarkdownNesting.ItemStep | include/maddy/unorderedlistparser.h:121-124 | a new item leaves the list open with no child and puts out the inner closers, the item tags and the text |
| MarkdownNesting.ListLine | include/maddy/blockparser.h:68-97 | one line through a running or fresh chain of any depth: the open tags stay [list, li, ...] of the chain that results, and the text put out is just what `Left` says: the line without each level's marker or two characters of indentation; which lines start an item is said by `MarkdownItems.MarkerStartsItem` and `MarkdownItems.TextJoinsItem` |
| MarkdownNesting.ItemStripped | include/maddy/orderedlistparser.h:93-96 | stripping takes off exactly a bullet, or a number with perhaps a bullet, and nothing where there is none |
| MarkdownNesting.ChecklistStripped | include/maddy/checklistparser.h:93-102 | stripping takes off a bullet and turns a box into an input element, each only where there is one |
| MarkdownItems.MarkerStartsItem | include/maddy/unorderedlistparser.h:58-125 | in a running list of any depth, `+ `, `* ` or `- ` before text starts an item of an unordered list, `1. ` or `* ` one of an ordered list and `- [ ] `, `- [x] ` or the same with a bar one of a checklist: everything nested ends, and the end of an item, the start of an item and the text come out, in a checklist behind its box |
| MarkdownItems.MarkerOpensList | include/maddy/orderedlistparser.h:87-112 | the first such line opens the list with its tags, the checklist with its class |
| MarkdownItems.TextJoinsItem | include/maddy/checklistparser.h:108-126 | text without a marker and without indentation is added to the innermost item, at any depth, and no tag opens or closes |
| MarkdownItems.ReturnJoinsItem | include/maddy/orderedlistparser.h:133-138 | a marker with a carriage return behind it starts no item; it goes, and the text joins the open item |
| MarkdownItems.IndentedGoesInside | include/maddy/unorderedlistparser.h:96-107 | two spaces or tabs hand the rest of the line to the nested list, or open the one that the rest starts |
| MarkdownTrees.TreeFeed | include/maddy/blockparser.h:68-97 | the lines of a tree of lists through a new parser: what it has put out, with the closers it owes, is the HTML of the tree |
| MarkdownTrees.TreeRenders | include/maddy/parser.h:80-118 | a document that is a tree of unordered, ordered and check lists, nested to any depth by two spaces for each level and with further lines of text in its items, renders to exactly the HTML of that tree |
| MarkdownTrees.BulletsRender | include/maddy/unorderedlistparser.h:87-125 | one dash to a line renders to `<ul><li>`, the texts joined by `</li><li>`, and `</li></ul>` |
| MarkdownDocument.ListRun | include/maddy/orderedlistparser.h:87-127 | over a whole run of lines the open-tag stack is that of the chain, and the text is, line after line, what `Left` leaves of each; what was cut off is white space and markers, at most one piece for each level |
| MarkdownDocument.NoTextEndsList | include/maddy/checklistparser.h:117-126 | an empty line or a marker alone ends a list of any depth and adds exactly its closers |
| MarkdownSteps.HeadlineRounds | include/maddy/headlineparser.h:130-133 | of the six replacement rounds only the one of the line's own level changes it |
| MarkdownSteps.HeadlineLine | include/maddy/headlineparser.h:110-134 | a headline is one element of its level around the text after its marks |
| MarkdownTags.TableRuns | include/maddy/tableparser.h:147-235 | a rendered table is well nested and its text is all its cells in reading order |
| MarkdownSteps.TableLine | include/maddy/tableparser.h:75-118 | one line of a table keeps the output well nested; no text comes out before the closing line, and then all cells do |
| MarkdownSteps.ParagraphLine | include/maddy/paragraphparser.h:89-107 | one line of a paragraph opens, continues or closes its tag in step with its flags, and leaves the line and a space as text, nothing for the line that ends it |
| MarkdownSteps.CodeLine | include/maddy/codeblockparser.h:107-129 | one line of a code block opens, continues or closes both its tags in step with its flags, and leaves the line as text; the fences leave none of theirs |
| MarkdownSteps.QuoteLine | include/maddy/quoteparser.h:71-118 | one line of a quote, with a child of any kind and depth or none, leads from the old stack of open tags to the new one, and leaves the text that the child leaves of the line without its mark |
| MarkdownSteps.BlockLine | include/maddy/blockparser.h:68-97 | any line through a block of any kind, with any nesting of quotes and lists: the tags put out lead from the open tags before to those after, and the text put out is what `Kept` says for that kind |
| MarkdownDocument.TakeLinesSound | include/maddy/parser.h:86-103 | after every line of the driver the collected output is well nested and the waiting block has put out exactly its open tags |
| MarkdownDocument.DocumentNested | include/maddy/parser.h:80-118 | a document whose lines are free of `<`, except for the line that closes an open table, renders to a well-nested sequence of tags |
| MarkdownDocument.PlainDocumentNested | include/maddy/parser.h:80-118 | every document without `<` renders to a well-nested sequence of tags |
| MarkdownDocument.DocumentKeeps | include/maddy/parser.h:80-118 | the text of the rendered document is `KeptLines` of its lines: what each line leaves without its markers, in input order, and nothing else; if the last block does not complete, it is that of the lines before the one that opened that block |
| MarkdownDocument.EmptyLine | include/maddy/quoteparser.h:80-115 | one empty line completes a block if and only if it is no code block, no table and no quote with an open child; it then adds closing tags only |
| MarkdownDocument.EmptyLineInQuote | include/maddy/quoteparser.h:93-104 | an empty line that reaches a quote with an open child goes to the child alone: a child that can end ends, any other takes the line, and the quote stays open |
| MarkdownDocument.FlushKeeps | include/maddy/parser.h:105-115 | at the end of a document the pending block's text is kept exactly when one empty line completes it; otherwise the output is that of the finished blocks |
| MarkdownTrees.OpenLastLine | include/maddy/parser.h:86 | the lines of a text are those before each newline, and what stands after the last one if there is anything |
| MarkdownTrees.MarkerOpensBlock | include/maddy/parser.h:196-207 | an item marker before text opens the list of its kind, unless a dash and a box make it a checklist |
| MarkdownTrees.MarkerAloneOpens | include/maddy/parser.h:200-207 | a marker with nothing behind it opens a list too |
| MarkdownTrees.MarkerAloneEnds | include/maddy/unorderedlistparser.h:109-119 | in a running list of any depth a marker with nothing behind it ends the list and adds exactly its closers |
| MarkdownPages.FixedStarts | include/maddy/parser.h:161-195 | three backticks alone open code, three dashes a rule, a bar with `table>` a table, and an empty line nothing |
| MarkdownPages.HeadlineStarts | include/maddy/headlineparser.h:76-80 | one to six hash marks, a space and text open a headline |
| MarkdownPages.QuoteOrTextStarts | include/maddy/parser.h:182-222 | a line with `>` in front opens a quote, and one whose first character starts no other block a paragraph |
| MarkdownPages.HashMisses | include/maddy/headlineparser.h:76-80 | without the space, or with a seventh mark, it is text |
| MarkdownPages.MarkerMisses | include/maddy/unorderedlistparser.h:56-60 | a bullet without the space is text |
| MarkdownPages.NumberMisses | include/maddy/orderedlistparser.h:56-60 | so is a number without it |
| MarkdownPages.ReturnIsText | include/maddy/unorderedlistparser.h:56-60 | and so is a marker with a carriage return anywhere behind it |
| MarkdownPages.HeadlineRenders | include/maddy/headlineparser.h:110-134 | a headline of level n renders to the element `hn` around its text |
| MarkdownPages.HeadlineStopsAtReturn | include/maddy/headlineparser.h:113-120 | a replacement round takes the text up to a carriage return and leaves the rest behind the element |
| MarkdownPages.RuleRenders | include/maddy/horizontallineparser.h:59-99 | three dashes render to a rule |
| MarkdownPages.ParagraphRenders | include/maddy/paragraphparser.h:89-107 | a paragraph takes every line up to the first empty one, whatever it starts with, each with a space behind it |
| MarkdownPages.CodeRenders | include/maddy/codeblockparser.h:107-129 | the lines between the fences come out as they are, each with its newline |
| MarkdownPages.QuoteRenders | include/maddy/quoteparser.h:71-157 | a line of a quote and an empty line render to a quoted paragraph |
| MarkdownPages.QuoteMarkGoes | include/maddy/quoteparser.h:145-157 | a quote mark goes with the space behind it, and after that space a second mark goes as well |
| MarkdownTables.RowPlacedIff | include/maddy/tableparser.h:101-116 | a row is placed inside the vectors if and only if every separator of the table so far followed a row |
| MarkdownTables.TablesFitIff | include/maddy/tableparser.h:84-117 | a whole document keeps inside the vectors of its tables if and only if, in every table section, each row comes after separators that all followed a row, the empty line of the flush included |
| MarkdownTables.GapOverruns | include/maddy/tableparser.h:84-117 | a table that starts with a separator and goes on with a row leaves the vectors |
| MarkdownTables.GridFitsIff | include/maddy/tableparser.h:84-117 | after a leading or doubled separator the block index stays behind the vectors for good; otherwise it is the last block or the next one |
| MarkdownTablePages.SegmentsOfRow | include/maddy/tableparser.h:107-114 | the cells of a row are what stands between its bars |
| MarkdownTablePages.LastBarIsFree | include/maddy/tableparser.h:107-114 | a bar at the end makes no further cell |
| MarkdownTablePages.TableIs | include/maddy/tableparser.h:147-235 | one block is printed as the body; of two the first is the head, with cells of its own; of more the last is the foot |
| MarkdownTablePages.TableRenders | include/maddy/tableparser.h:75-235 | a table written as rows between separators renders to its head, bodies and foot with every cell in its place |
| MarkdownBlocks.TargetHasLess | include/maddy/blockparser.h:73-80 | the recursion from parser to child ends: depth, quote marks left in the line, or the kinds of child still to open get smaller |
| MarkdownParser.GetIndentationWidth | include/maddy/blockparser.h:156-184 | the counting loop with its captured flag gives the length of the longest white-space prefix |
| MarkdownParser.ParseHeadline | include/maddy/headlineparser.h:130-133 | the loop over six levels does the six rounds that `HeadlineRounds` resolves |
| MarkdownParser.BlockParser.ParseListLine | include/maddy/unorderedlistparser.h:87-125 | the in-place rewriting of the line and the two flags are those of the step whose chains are proved above |
| MarkdownParser.BlockParser.ParseBlock | include/maddy/quoteparser.h:145-157 | the rewriting of a line by every kind of block but tables, in place, with its flags |
| MarkdownParser.BlockParser.PrepareLine | include/maddy/quoteparser.h:74-86 | the opening tag of a quote, once, and then the rewriting of the line |
| MarkdownParser.BlockParser.KeepLine | include/maddy/quoteparser.h:106-117 | a line no child takes is put out, after the closing tag of a quote that it ends |
| MarkdownParser.BlockParser.AddTableLine | include/maddy/tableparser.h:75-118 | rows and blocks land where the value model puts them, within bounds |
| MarkdownParser.BlockParser.OpenChild | include/maddy/blockparser.h:73-76 | a block without a child gets the one its kind opens for the rewritten line, or stays without |
| MarkdownParser.BlockParser.GiveToChild | include/maddy/blockparser.h:78-89 | the child takes the line; if it is finished its output moves to the parent and it goes away |
| MarkdownParser.BlockParser.AddLine | include/maddy/blockparser.h:68-97 | the object chain, with its children created, fed, absorbed and dropped in place, does the step on values and touches only objects of the chain |
| MarkdownParser.SplitRow | include/maddy/tableparser.h:107-114 | the splitting loop yields the segments between bars |
| MarkdownParser.PrintTable | include/maddy/tableparser.h:147-235 | the nested loops with their header and footer flags print head, body and foot as the model assigns them |
| MarkdownParser.GetLine | include/maddy/parser.h:86 | reading a line cuts the text at the next newline and the lines of the rest are those that follow |
| MarkdownParser.DriveLine | include/maddy/parser.h:88-102 | one turn of the driver loop on live parser objects is one turn on values |
| MarkdownParser.Parse | include/maddy/parser.h:80-118 | the driver loop over live parser objects returns the rendering that the document theorems are about |
| ConfigLexer.LexedWordIsValid | src/config_parser/nginx_config_parser.cc:38-119 | every word the tokenizer returns is a bare word or is closed by the quote it starts with |
| ConfigLexer.LexedDoubleQuote | src/config_parser/nginx_config_parser.cc:89-94 | a token that starts with a double quote has at least two characters, ends in one and has none between |
| ConfigLexer.LexWord | src/config_parser/nginx_config_parser.cc:101-110 | a valid word before a character that ends words is read back whole and that character is left in the input; `ConfigLayout.WordEndsBefore` says which characters these are |
| ConfigLayout.WordEndsBefore | src/config_parser/nginx_config_parser.cc:101-110 | a word ends before a space, tab, newline, semicolon or brace, which stays in the input, and takes in every other character, a carriage return included |
| ConfigLayout.BlankIsSkipped | src/config_parser/nginx_config_parser.cc:70-74 | a space, tab, newline or carriage return before a token is skipped |
| ConfigLayout.MarksAreTokens | src/config_parser/nginx_config_parser.cc:48-69 | a semicolon and each brace is a token of its own |
| ConfigLayout.QuotesEnclose | src/config_parser/nginx_config_parser.cc:57-94 | either quote encloses whatever has no such quote in it, and both quotes stay in the word |
| ConfigEnding.TokenizeAfter | src/config_parser/nginx_config_parser.cc:38-119 | the tokens of a text with more text behind it are those of the text and then those found in what follows, from the state and the pending text at its end |
| ConfigEnding.CutWordIsDropped | src/config_parser/nginx_config_parser.cc:112-118 | a bare word cut off by the end of the file after any accepted text is dropped, so that the parse gives what it gave without it, if and only if the text does not end in a comment, the word has no carriage return, or what follows its first one has neither a token nor an open quote |
| ConfigEnding.CutWordInComment | src/config_parser/nginx_config_parser.cc:95-100 | a word that is not dropped: in a comment, with a carriage return that ends the comment and a quote after it, it fails the parse |
| ConfigEnding.CutQuoteIsRejected | src/config_parser/nginx_config_parser.cc:112-116 | an unclosed quote at the end of the file fails the whole parse, after every accepted text that ends between two tokens |
| ConfigEnding.CommentIsSkipped | src/config_parser/nginx_config_parser.cc:138-141 | a comment leaves the token stream, and so the machine, as if it were not there |
| ConfigMachine.TakeReads | src/config_parser/nginx_config_parser.cc:143-193 | every accepted token keeps the stack derivable and adds itself to what the stacked blocks have read |
| ConfigMachine.StackReads | src/config_parser/nginx_config_parser.cc:124-194 | at every moment the stacked blocks, bottom to top, are derivable up to their open last statements and spell exactly the tokens read so far, with one opening brace between neighbours |
| ConfigMachine.YieldTaken | src/config_parser/nginx_config_parser.cc:143-181 | from any state between statements the sentence of a derivable tree is taken and appends just that tree to the open block |
| ConfigMachine.AcceptIffDerives | src/config_parser/nginx_config_parser.cc:122-198 | a token stream is accepted with a tree if and only if the grammar derives it from that tree; the grammar is unambiguous |
| ConfigText.ParseIsAccept | src/config_parser/nginx_config_parser.cc:130-193 | tokenizing and parsing in one loop decides what the machine decides on the whole token stream |
| ConfigText.TokenizePrint | src/config_parser/nginx_config_statement.cc:21-44 | the tokens of a printed tree are its sentence, at every depth and whatever follows |
| ConfigText.PrintThenParse | src/config_parser/nginx_config_statement.cc:21-44 | every tree of non-empty statements with valid words, printed at any depth and parsed, comes back as it was |
| ConfigLayout.TokenizeSpelled | src/config_parser/nginx_config_parser.cc:38-119 | tokens are read back however they are laid out: with white space and whole comments between them, where a word needs a space, tab or newline behind it unless a mark follows |
| ConfigLayout.AnyLayoutParses | src/config_parser/nginx_config_parser.cc:122-198 | so a tree is read back from its sentence in any layout, not only the printer's |
| ConfigLayout.PrintTightThenParse | src/config_parser/nginx_config_parser.cc:122-198 | a second printer, with tabs between words and nothing anywhere else, is undone as well |
| ConfigLayout.PrintIsLines | src/config_parser/nginx_config_statement.cc:21-44 | printed text is one line for each statement, two spaces in for each block around it, with a brace at the end of a block's first line and alone on its last |
| ConfigLayout.ListenIsRead | src/config_parser/nginx_config.cc:32-57 | one configuration in three layouts, one of them the printed one: all give the same tree, and its port is found |
| ConfigText.ParseIsCanonical | src/config_parser/nginx_config_parser.cc:122-198 | every accepted text gives a printable tree, and printing it at any depth and parsing again gives the same tree |
| ConfigText.ParseIffGrammar | src/config_parser/nginx_config_parser.cc:122-198 | a text parses to a tree if and only if it tokenizes and the grammar derives its tokens from that tree; `ConfigLayout.TokenizeSpelled` says which texts have which tokens |
| ConfigLookup.GetConfigAnswers | src/config_parser/nginx_config.cc:32-57 | in a tree without empty words the lookup gives the word after the first occurrence of the key among all neighbouring words in reading order, and the empty string if and only if there is none |
| ConfigLookup.ParsedConfigAnswers | src/config_parser/nginx_config.cc:32-57 | the same for every accepted text and every key |
| ConfigObjects.ParseToken | src/config_parser/nginx_config_parser.cc:38-119 | the loop over the stream with its `unget` returns the token of the value model and leaves exactly the rest unread |
| ConfigObjects.NginxConfigStatement.ToString | src/config_parser/nginx_config_statement.cc:21-44 | printing the linked objects gives the text of the tree they stand for |
| ConfigObjects.NginxConfig.ToString | src/config_parser/nginx_config.cc:23-29 | the same for a block |
| ConfigObjects.NginxConfig.GetConfig | src/config_parser/nginx_config.cc:32-57 | the loops over linked objects give the lookup on the tree they stand for |
| ConfigObjectParser.NewStatement | src/config_parser/nginx_config_parser.cc:151-156 | the first word of a statement hangs a new object under the top block and leaves all others alone |
| ConfigObjectParser.AddWord | src/config_parser/nginx_config_parser.cc:155-156 | a further word goes to the last statement of the top block and nothing else changes |
| ConfigObjectParser.NestBlock | src/config_parser/nginx_config_parser.cc:164-172 | the new block hangs under the open statement and becomes the top of the stack |
| ConfigObjectParser.TakeToken | src/config_parser/nginx_config_parser.cc:143-193 | the object step succeeds exactly when the machine takes the token; the brace counter stays one below the height of the stack, and every stacked object is the child of the last statement of the one below |
| ConfigObjectParser.Parse | src/config_parser/nginx_config_parser.cc:122-198 | the loop that grows the tree through a stack of references succeeds exactly on the texts of the value model, and then the objects stand for what the configuration held followed by the parsed tree |
| HttpLanguage.SentenceAccepted | src/http/request_parser.cc:60-244 | every sentence of the request grammar is good at its last byte, with the request being its meaning, whatever follows |
| HttpLanguage.AcceptedIsSentence | src/http/request_parser.cc:60-244 | every text the machine is good on starts with a sentence, and what it left unread is what follows it |
| HttpGrammar.AlphabetIs | src/http/request_parser.cc:246-269 | the classes of bytes the machine asks for, byte by byte: method and header names are of letters, digits and fifteen marks, the hyphen among them; a URI has the bytes above 32 and a value those above 31, without 127; digits are the ten |
| HttpLanguage.GoodIffSentence | include/http/request_parser.h:40-55 | from a fresh parser the verdict is good after k bytes if and only if these k bytes are a sentence of the grammar, which is stated over that alphabet and not over the machine's; URI, decimal version numbers and the last-wins header map are then the sentence's meaning |
| HttpContinuation.BadIffNoContinuation | src/http/request_parser.cc:60-244 | from every state the machine is bad on a text if and only if no continuation would make it good, so it fails at the first hopeless byte and never before |
| HttpSession.GoodEndsAtBlankLine | src/http/request_parser.cc:239-240 | a good verdict comes exactly at the end of the first CRLF CRLF |
| HttpSession.EndsAtLineStart | src/http/request_parser.cc:161-168 | a text that ends in CRLF is undecided only at the start of a header line with nothing pending |
| HttpSession.BlankLineDecides | src/http/request_parser.cc:170-240 | from any state, a text that ends in a blank line gets a verdict |
| HttpSession.ReformattedDecides | src/session.cc:50-59 | text the session reformatted is never undecided |
| HttpSession.SecondReadingIsBad | src/session.cc:123-125 | reading the same text again from the start of a header line always ends in bad |
| HttpSession.AtMostOneRetry | src/session.cc:36-130 | a read ends after at most one re-entry, which happens only for text that ended in CRLF and always gives bad |
| HttpNewlines.StandardRequestIff | src/session.cc:45-59 | a read of a sentence with CRLF line ends and any body is good if it ends in CRLF and bad otherwise, because its line ends are rewritten again |
| HttpNewlines.BodyIsRefused | src/session.cc:50-59 | a request with CRLF line ends and a body of one letter is bad, although its head is a sentence |
| HttpNewlines.BareRequestIff | src/session.cc:45-59 | a read of a sentence with bare newlines and any body is bad if it ends in CRLF; otherwise it is good and is read with the meaning of the sentence |
| HttpObjects.RequestParser.Consume | src/http/request_parser.cc:60-244 | the in-place step on parser and request objects has the verdict and both new states of the machine, whose classes of bytes `HttpGrammar.AlphabetIs` spells out |
| HttpObjects.RequestParser.Parse | include/http/request_parser.h:40-55 | the loop stops after the byte that decides, having looked up the method in three bytes and set the body to the whole buffer |
| HttpContinuation.StaleFieldsAreCleared | src/http/request_parser.cc:161-168 | a key and a value left from an earlier request change no verdict, request or rest of a parser that has not come to the headers, whatever the text |
| HttpObjects.RequestParser.Reset | src/http/request_parser.cc:25-27 | although only the state goes back to the start, no text and no request can tell the parser from a new one afterwards |
| HttpObjects.Session.Format | src/session.cc:52-56 | the trimming loop and the replacement yield the normalised text |
| HttpObjects.Session.ReadOnce | src/session.cc:45-59 | one reading of the live buffer, reformatted in place where it does not end in CRLF, has the outcome of the parser on the normalised text |
| HttpObjects.Session.HandleRead | src/session.cc:36-130 | the call on the live buffer, parser and request returns 0, 1 or -1 as the at-most-one-retry model says, counts two requests on a retry, leaves the buffer alone unless it reformats, and rewrites the URI of every request that is not good |
| ProxyRequest.FirstIndex | src/request_handler/reverse_proxy_handler.cc:68 | the first position where the part occurs, and none only if it occurs nowhere |
| ProxyRequest.EraseFirst | src/request_handler/reverse_proxy_handler.cc:68 | what stands before and behind the first occurrence of the location, or the whole URI where it has none |
| ProxyRequest.TargetIs | src/request_handler/reverse_proxy_handler.cc:68-72 | the URI written is what is left around the first occurrence of the location, the URI itself if there is none, and the root if nothing is left |
| ProxyRequest.LocationIsErased | src/request_handler/reverse_proxy_handler.cc:68-72 | a URI that begins with the location goes to what follows the location, or to the root |
| ProxyRequest.CrlfIsRemoved | src/request_handler/reverse_proxy_handler.cc:101-106 | a CRLF in a header value is dropped and all around it is kept |
| ProxyRequest.BuildRequest | src/request_handler/reverse_proxy_handler.cc:74-107 | the appending loop writes the request line with the target of `ProxyRequest.TargetIs`, the two overriding headers and every other header once |
| ProxyRequest.ForwardIsSentence | src/request_handler/reverse_proxy_handler.cc:97-107 | the written text is the text of a sentence of the request grammar's shape |
| ProxyRequest.AcceptedIsReadable | src/http/request_parser.cc:60-244 | every accepted request has a URI without spaces or control characters, and header names and values that can be written back, except for the empty name |
| ProxyRequest.FoldedIffEmptyName | src/http/request_parser.cc:229-235 | the empty header name is in the map if and only if a folded line was read |
| ProxyRequest.ForwardRoundTrip | src/request_handler/reverse_proxy_handler.cc:68-107 | the forwarded text is good if the method is one of the nine and no folded line was stored, and bad otherwise; a good one gives back the method, the rewritten URI, version 1.1 and the header map with Host and Connection overridden, and nothing is left over |
| ProxyRequest.AcceptedRequestForwards | src/request_handler/reverse_proxy_handler.cc:68-107 | the same for every text a fresh parser accepts, whatever the two method fields held before; a URI under the location is read on the far side as what follows the location, or as the root |
| ProxyRequest.FoldedRequestIsLost | src/request_handler/reverse_proxy_handler.cc:100-106 | a request with one folded line is accepted and what is forwarded for it is bad |
| ProxyRequest.MethodOfIff | src/http/request_parser.cc:30-58 | a text has a method if and only if it begins with the first three bytes of the word that is written for that method |
| ProxyRequest.UnknownMethodIsKept | src/http/request_parser.cc:30-58 | where there is none the request keeps the method it had |
| HttpReply.ToBuffers | src/http/reply.cc:101-116 | the buffers in a row are the reply text, and there are three of them and four for each header |
| HttpReply.StatusLineIs | src/http/reply.cc:18-92 | each of the sixteen known codes is written with its own phrase, and every other one as 500 |
| HttpReply.BlankLineAt | src/request_handler/reverse_proxy_handler.cc:135-136 | the first blank line of a written reply is the one before its body |
| HttpReply.StatusLineReads | src/request_handler/reverse_proxy_handler.cc:137-148 | the digit scanner reads the code from every status line, 500 for an unknown one |
| HttpReply.LastCodeIsRead | src/request_handler/reverse_proxy_handler.cc:137-148 | of any first line the code read is the first three digits of the last stretch of digits that has as many, and there is none if no stretch has |
| HttpReply.ScanHeaderLine | src/request_handler/reverse_proxy_handler.cc:162-179 | the scanner splits a written header line into its name and its value |
| HttpReply.ReadHeaderBlock | src/request_handler/reverse_proxy_handler.cc:155-181 | the consuming loop ends, since each turn shortens the text, with the header map of the recursive reader |
| HttpReply.ReadResponse | src/request_handler/reverse_proxy_handler.cc:130-181 | code, headers and body as the value reader cuts them, with a blank line or without |
| HttpReply.BodyRead | src/request_handler/reverse_proxy_handler.cc:135-153 | the body read is what follows the first blank line if there is a blank line, and all but the first three bytes if there is none |
| HttpReply.ShortestReply | src/request_handler/reverse_proxy_handler.cc:134-153 | two bytes are no reply, and a line of one character with its line end is one, without headers and without a body |
| HttpReply.CutReplyReads | src/request_handler/reverse_proxy_handler.cc:135-153 | a reply cut off after its status line is read with its code and with that line as its body |
| HttpReply.GoodReplyReads | src/http/reply.cc:101-116 | reading the bytes of a reply with good headers gives its headers and its body, and its code if and only if that is one of the sixteen known ones |
| HttpRoundTrip.ReplyIsStored | src/request_handler/reverse_proxy_handler.cc:155-181 | whatever the text, every name and value read is trimmed and without a carriage return, and no name has a colon after its first character |
| HttpRoundTrip.NamelessIsLost | src/request_handler/reverse_proxy_handler.cc:162-179 | a line written for an empty name is read with a name, or with another value than was written |
| HttpRoundTrip.WriteThenRead | src/http/reply.cc:101-116 | a written reply is read back with the shown code, its headers and its body if and only if its header names are trimmed, not empty, without carriage return and without a colon after the first character, and its values are trimmed and without carriage return |
| HttpRoundTrip.ColonIsLost | src/request_handler/reverse_proxy_handler.cc:168-174 | the name of a header is cut at a colon inside it: `a:b: c` is read as the name `a` |
| LinkRewrite.AppendRelativeUri | src/request_handler/reverse_proxy_handler.cc:236-245 | both replacements in place, with the trimmed prefix |
| LinkRewrite.PrefixIs | src/request_handler/reverse_proxy_handler.cc:238-241 | one slash at the end of the location is taken off, so that the root becomes the empty prefix |
| LinkRewrite.LinksMove | src/request_handler/reverse_proxy_handler.cc:236-245 | a local link in `href` or `src` is moved under the location, written with or without a last slash, and stays where it is for the root |
| LinkRewrite.ReplaceBack | src/request_handler/reverse_proxy_handler.cc:243-244 | replacing a pattern by a text that begins with it makes no new occurrence and is undone by the opposite replacement |
| LinkRewrite.UndoIff | src/request_handler/reverse_proxy_handler.cc:236-245 | replacing the rewritten prefixes back, in reverse order, restores every body if and only if the trimmed location is empty or begins with a slash |
| LinkRewrite.LostLink | src/request_handler/reverse_proxy_handler.cc:236-245 | for a prefix without a leading slash there is a page that rewriting leaves alone and undoing changes |
| DispatchPaths.PathOfIff | src/request_handler/dispatcher.cc:78-93 | a location has a path if and only if its second word is a text in double quotes; both quotes go, and all slashes at the end unless nothing else is left, then one stays |
| DispatchPaths.TypeOfIff | src/request_handler/dispatcher.cc:23-44 | each of the nine type words asks for its own type of handler, and no other word for any |
| DispatchPaths.OneLocationTable | src/request_handler/dispatcher.cc:15-148 | a server with one location has one handler, filed under the path, or under the fixed key of a not-found or bad-request location, and one description |
| DispatchPaths.OneLocationAnswers | src/request_handler/dispatcher.cc:49-71 | and it answers every URI that begins with that key, and no other, with that handler |
| DispatchPaths.EchoIsAnswered | src/request_handler/dispatcher.cc:15-71 | an echo location at `/echo`, written with or without a last slash, answers `/echo` and whatever begins so |
| Dispatcher.RequestHandlerDispatcher.constructor | src/request_handler/dispatcher.cc:15-46 | the nested loops fill the table from the statements of all `server` blocks in order; only a location that gets a handler needs a block |
| Dispatcher.RequestHandlerDispatcher.AddHandler | src/request_handler/dispatcher.cc:74-148 | one location adds one handler, one description and one to the count at the path of `DispatchPaths.PathOfIff`, or nothing when it has no path or that is already in the table, with or without a block |
| Handlers.Init | src/request_handler/reverse_proxy_handler.cc:17-41 | the loop over the block gives a null handler exactly for a reverse proxy with a port that is no number |
| Handlers.MadeIff | src/request_handler/reverse_proxy_handler.cc:17-41 | a handler fails to be made if and only if it is a reverse proxy with a `proxy_port` that is no number |
| Handlers.IntIff | src/request_handler/reverse_proxy_handler.cc:24-32 | a port is a number if it has white space, perhaps a sign, and digits whose decimal value fits 32 bits, whatever follows; without a digit it is none |
| Dispatcher.FirstLocationWins | src/request_handler/dispatcher.cc:94-97 | a key other than `/` and `/badrequest` is in the table if and only if a location of another type than not-found and bad-request has it as its path, which `DispatchPaths.PathOfIff` tells from the word, and it holds the handler made for the first such location |
| Dispatcher.CountsInStepIff | src/request_handler/dispatcher.cc:99-144 | the count is the table's size and the described paths are its keys if and only if no location clashes with those before it: no not-found location at a free path other than the root once the root is taken, no bad-request location at a free path other than `/badrequest` |
| Dispatcher.KeyKnown | src/request_handler/dispatcher.cc:94-97 | without such a clash the keys of the table are those the locations claim, told from the statements alone |
| Dispatcher.BadRequestElsewhere | src/request_handler/dispatcher.cc:140-144 | a single bad-request location at another path puts them out of step |
| Dispatcher.FixedPathsCount | src/request_handler/dispatcher.cc:115-144 | not-found locations at `/` and bad-request locations at `/badrequest` are enough for that |
| Dispatcher.ParsedPathIsQuoted | src/request_handler/dispatcher.cc:82-89 | in a configuration with valid words, as `ConfigText.ParseIsCanonical` gives for every accepted text, a location's path is used exactly when its word begins with a double quote, so both quotes can be taken off safely |
| Dispatcher.RequestHandlerDispatcher.Dispatch | src/request_handler/dispatcher.cc:49-71 | the answer is what the table holds, a handler or a null pointer, under the longest non-empty key that begins the slash-trimmed URI, and null if no key does, whatever the order of the map |
| Dispatcher.AnswerIsUnique | src/request_handler/dispatcher.cc:58-68 | there is only one such answer |
| Dispatcher.SlashDispatchesAlike | src/request_handler/dispatcher.cc:53-56 | a slash added to a non-empty URI does not change the answer |
| UrlDecode.DecodedLength | src/request_handler/markdown_handler.cc:144-172 | every decoded escape makes the text two characters shorter and nothing else changes its length |
| UrlDecode.EscapeDecoded | src/request_handler/markdown_handler.cc:144-163 | a per cent sign and two hexadecimal digits, each in either case, decode to their byte |
| UrlDecode.OtherIsKept | src/request_handler/markdown_handler.cc:164-171 | everything else stands for itself, a stray per cent sign included, and a plus for a space |
| UrlDecode.UrlDecode2 | src/request_handler/markdown_handler.cc:144-172 | nothing is read behind the zero byte of the source; a target long enough, and only such a one, gets exactly the decoded text and a zero byte and keeps the rest, and any other is filled with the start of the decoded text |
| UrlDecode.CallerBufferFits | src/request_handler/markdown_handler.cc:115-116 | the caller's buffer of as many characters as the text is long enough if and only if the text has an escape |
| UrlDecode.LetterOverruns | src/request_handler/markdown_handler.cc:115-116 | for a text of one letter it is not |
| UrlDecode.DecodeEncoded | src/request_handler/markdown_handler.cc:144-172 | decoding inverts form encoding (section 2.1 of RFC 3986, with `+` for a space) on every byte string |

## Left out

- Sockets, asynchronous reads and writes, threads, DNS, files, logging and the database: input and output without a visible result; `handle_read` is modelled up to its verdict and return code.
- Compression and its headers, the fixed-body handlers, the status page, the stock replies and the static, redirect and health handlers: easy members.
- Following redirects in the proxy: whether it ends depends on the remote server.
- Inline Markdown (emphasis, links, images, code, line breaks) is the identity, and tags written by the user are outside the nesting theorems, as is the block parser for raw HTML, which the default configuration never chooses.
- MarkdownParser.Parse: requires that no row of a table is indexed out of range, which the original does not check; `MarkdownTables.TablesFitIff` says for which documents that is so.
- MarkdownDocument.DocumentNested: the document has no `<` of its own apart from the line that closes a table.
- MarkdownTrees.TreeRenders: texts of items have no `<` and no line end, a list holds lists of the kinds it can open, and no text begins with a marker that its line would lose as well.
- MarkdownTablePages.TableRenders: the last cell of a row is not empty, because `MarkdownTablePages.LastBarIsFree` drops one that is.
- ConfigLayout.AnyLayoutParses: a carriage return does not stand right behind a word, because the tokenizer takes it into the word.
- ConfigObjectParser.Parse: says nothing about the objects when parsing fails; the original leaves a partly built tree.
- HttpLanguage.GoodIffSentence: version numbers are unbounded integers, so their overflow is not modelled.
- HttpObjects.RequestParser.Parse: requires three readable bytes, which the original reads without a check.
- HttpObjects.Session.HandleRead: requires at least two bytes, and for reformatted text that it has no zero byte and fits the buffer; the request and the parser stay as the source leaves them between reads, and only a parser that is fresh or in a retry is allowed.
- HttpReply.ReadResponse: where the original reads past the end of a header line, or cuts with a start past the end, it gives no reply.
- LinkRewrite.UndoIff: the location has no double quote, and characters with a meaning in replacement formats are taken literally.
- Dispatcher.RequestHandlerDispatcher.constructor: `server` statements, and locations that get a handler, are required to have a block, because the original follows a null pointer there; a handler that is made is known only by its type, path and statement, and the static fields belong to one object.
- Dispatcher.RequestHandlerDispatcher.AddHandler: a path that is one lone double quote, which no parsed configuration has, is skipped.
- UrlDecode.UrlDecode2: the two buffers are different, and where the original writes past the end of its target the model stops and says so.
- ConfigEnding.CutQuoteIsRejected: after a text that ends inside a comment or a bare word the quote is part of that comment or word, so nothing is said there beyond `ConfigEnding.TokenizeAfter`.
