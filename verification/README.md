# M5cet: verified models

This project models the parts of M5cet in which state, branching or arithmetic
carry the meaning, and proves properties of the models with Dafny 4.11:

    dafny verify dfyconfig.toml

Each module follows one component of the repository. Code that computes is
written as functions. Code that changes things step by step is written as
methods and classes, each proved equal to a step function, and what the
component promises is proved about those functions, over every input and every
run.

**Languages and formats.**
`ExprLexer`, `ExprParser`, `ExprPrinter`, `ExprNormal`, `ExprEval`,
`ExprLaws`, `ExprTemplate`, `ExprSlots` and `ExprMemo` are the Android screens'
expression and template language: the lexer's loop, the cursor parser with its
depth limit, a printer and the round trip between them, evaluation and its laws,
templates, the placeholders they accept, and the memo table that expressions and
templates share. `Sse` is the console's reader of server-sent events (sections
9.2.5 and 9.2.6 of the WHATWG HTML standard), which must not care how the
network cuts the text. `AddressGroup` reads every spelling of an IPv6 address
(section 2.2 of RFC 4291). `AuditCsv` is the export of the audit log, with a
reader of section 2 of RFC 4180.

**Graph editing.**
`AutoLayout` is the builder's in-place relaxation and the placement of nodes in
columns; `FlowBuilder` is the builder's wiring rules and its history.

**Bounded stores and protocols.**
`FileProxy`, `ShareStore`, `DesktopAuth`, `MessageBudget`, `DeviceState`,
`AdminDirectory` with `AdminRuns` and `AdminAnswers`, and `Retention` are the
server's in-memory stores. Several are checked against an independent account: a ledger kept from
calls and answers alone, a history without bounds, or the transfers without
their index. `Signalling` is the two-party negotiation of the
browser-only client, with every interleaving of its asynchronous steps.

**Tree manifests.**
`ReleaseTree` and `ReleaseManifest` list a tree with a walk that skips whole
directories, and check a tree against such a list.

`Text`, `Base64Url`, `Sequences`, `Finite` and `OrderedMap` hold JavaScript's
string operations, bytes as text, `filter`, finite sets and maps, and
JavaScript's insertion-ordered `Map`.

Conventions: the clock, random ids and tokens, and the environment's settings
are arguments; a hash is a function, injective where a claim needs it; an
argument that JavaScript checks with `typeof` is an `Option`. Where a store
walks a `Map` in an order that cannot matter, the model walks it in any order.

## Where code and documentation disagree

The model follows the code.

- server/address-group.ts:9-12 says that an IPv4-mapped address counts as its
  IPv4 address. It does in the dotted form only (`AddressGroup.MappedInHexadecimal`,
  and `AddressGroup.GroupOf` for the exact condition).
- server/address-group.ts:14 says that anything else is its own group. Only its
  first 64 characters are, without brackets and zone; "[]" has no group, and is
  not counted; a text that ends like a mapped address counts as that IPv4 address
  (`AddressGroup.NoGroup`, `AddressGroup.UnknownGroup`).
- server/message-audit.ts:103 says that the oldest window goes. The window that
  was put first goes, which may be the newest (`MessageBudget.NewestGoes`, and
  `MessageBudget.OldestGoesExactly` for the exact condition).
- server/desktop-auth.ts:13 says that five wrong secrets end a request. Wrong
  secrets given to `cancel` are not counted (`DesktopAuth.CancelDoesNotCount`).
- script/release-manifest.ts:57 says that secrets and keys are skipped at any
  depth, by globs whose only sign is `*`. The stars do not match a line end. A
  name with U+2028 or U+2029 passes, and its file is listed in the manifest; a
  name with a line feed or carriage return stops the making of a manifest
  (`ReleaseManifest.KeyListed`; `ReleaseTree.GlobLines`,
  `ReleaseManifest.SecretInManifest` and `ReleaseManifest.SecretRefused` for the
  exact conditions).
- A wire of the builder is meant to join ports that are there. While one is
  drawn the keyboard can undo or delete the node it hangs on, and
  admin-ui/public/functions-builder.js:471-477 does not look it up again
  (`FlowBuilder.LostEnd`, and `FlowBuilder.RunKeeps` for the exact condition).
- The memo table of admin-ui/public/android-expr.js:46 is shared, so that a
  stored template can answer for an expression that begins with `t:`
  (`ExprMemo.Confusion`, and `ExprMemo.Memo.ParseCached` for the exact condition).
- server/file-proxy.ts:78 cuts an id to 128 characters when a transfer begins
  but not when a chunk comes (`FileProxy.LongIdLost`, and
  `FileProxy.BegunThenPushed` for the exact condition).
- server/admin-users.ts:239 does not cut spaces after the token, which
  `authenticate` does, so that the session shown may go on (`AdminRuns.EndsShownToken`).

## Model

| member | source | states |
|---|---|---|
| `ExprLexer.Lex` | admin-ui/public/android-expr.js:11-44 | the loop with its cursor and growing list makes the token list that the recursive reading of the text defines, or its error |
| `ExprLexer.LexLayout` | admin-ui/public/android-expr.js:11-44 | any layout of a token list, with blanks wherever two tokens would run together, lexes to exactly that list and the end token |
| `ExprLexer.LexMakes` | admin-ui/public/android-expr.js:11-44 | every token of an accepted text is one that source text can hold, and the end token comes last |
| `ExprLexer.LongestNumeral` | admin-ui/public/android-expr.js:17-20 | at a digit, or at a point before a digit, the lexer takes the longest numeral that the text begins with |
| `ExprLexer.NumeralExactly` | admin-ui/public/android-expr.js:17-20 | number tokens are just the numerals: digits, a fraction or both, and perhaps an exponent with its letter, sign and digits |
| `ExprParser.ParseExpr` | admin-ui/public/android-expr.js:56-57 | a tree is read from at least one token and the cursor stays before the end of the list; past 40 levels there is an error |
| `ExprParser.Cursor.Expression` | admin-ui/public/android-expr.js:56 | the cursor method moves its cursor just as far as the functional parser reads and brings the depth counter back |
| `ExprParser.Cursor.Conditional` | admin-ui/public/android-expr.js:57 | the conditional on the cursor: same tree, same error, same place as the functional parser |
| `ExprParser.Cursor.Infixes` | admin-ui/public/android-expr.js:58-63 | the six operator loops on the cursor agree with the functional parser at every level |
| `ExprParser.Cursor.Unary` | admin-ui/public/android-expr.js:64 | unary operators on the cursor agree with the functional parser |
| `ExprParser.Cursor.Postfix` | admin-ui/public/android-expr.js:65-72 | the member loop on the cursor agrees with the functional parser |
| `ExprParser.Cursor.Primary` | admin-ui/public/android-expr.js:73-88 | literals, variables, translations and parentheses on the cursor agree with the functional parser |
| `ExprParser.RunParse` | admin-ui/public/android-expr.js:48-94 | the whole of parse without the memo table: length limit, lexer, cursor, and nothing left over |
| `ExprPrinter.RoundTripLayout` | admin-ui/public/android-expr.js:11-94 | every well formed tree printed with only the parentheses its operators' levels need, in any layout within the length limit, parses to that tree, or to the nesting error exactly when it is nested deeper than 40 |
| `ExprPrinter.RoundTrip` | admin-ui/public/android-expr.js:11-94 | the same for the tightest layout |
| `ExprNormal.Normal` | admin-ui/public/android-expr.js:48-94 | whatever parse accepts is well formed, within the nesting limit, and its printed form has no more tokens; that form, when it is within the length limit, parses to the same tree |
| `ExprEval.EvalRelevant` | admin-ui/public/android-expr.js:122-150 | an expression's value depends only on the variables and translation keys written in it; what the value is, the rows of ExprLaws say |
| `ExprEval.DefinedExactly` | admin-ui/public/android-expr.js:100-150 | an expression yields undefined exactly when what it returns, followed through the logical operators and conditionals, is the character of a text at a place between two characters |
| `ExprEval.SolidDefined` | admin-ui/public/android-expr.js:100-150 | an expression that, by its text alone, returns no member but one named by a word never yields undefined |
| `ExprEval.BetweenUndefined` | admin-ui/public/android-expr.js:100-106 | an input that yields undefined: a text indexed by a number, for just the numbers that point between two characters |
| `ExprEval.RenderAppendIn` | admin-ui/public/android-expr.js:231-242 | in every scope, templates that parse render one after the other as each renders alone |
| `ExprLaws.TextsJoined` | admin-ui/public/android-expr.js:133-137 | a sum of texts, of any length and however bracketed, is those texts in the order of the source |
| `ExprLaws.TextGrows` | admin-ui/public/android-expr.js:106-137 | a text to which anything is added, any number of times, is that text and then the texts of all that |
| `ExprLaws.TextsCompared` | admin-ui/public/android-expr.js:132-146 | between two texts the operators go by the first difference; exactly one of <, == and > holds, and <=, >= and != are the opposites of >, < and == |
| `ExprLaws.NumbersEvaluate` | admin-ui/public/android-expr.js:96-146 | with exact numbers, an expression of numbers, unary minus, the five operations and comparisons has its value in mathematics, null for a zero divisor |
| `ExprLaws.OneMeaning` | admin-ui/public/android-expr.js:132-146 | such an expression means one thing only |
| `ExprLaws.ChoicesByFalsy` | admin-ui/public/android-expr.js:96-131 | conditionals, the logical operators and ! go by the falsy values, listed one by one |
| `ExprLaws.PathFollowed` | admin-ui/public/android-expr.js:100-126 | a path evaluates to the value to which its steps lead: own fields, items, characters, lengths |
| `ExprLaws.NoStep` | admin-ui/public/android-expr.js:100-111 | where no step leads on the value is null |
| `ExprLaws.TruthText` | admin-ui/public/android-expr.js:113-120 | the text of a truth value, read as an expression, is that truth value |
| `ExprLaws.ListText` | admin-ui/public/android-expr.js:113-120 | the text of a list is the texts of its items with a comma and a blank between |
| `ExprLaws.FiltersInTurn` | admin-ui/public/android-expr.js:231-241 | filters work one after the other in the order of the source |
| `ExprLaws.DefaultShows` | admin-ui/public/android-expr.js:201-208 | default shows its argument for just the falsy values |
| `ExprLaws.CountCounts` | admin-ui/public/android-expr.js:201-209 | count is the number of items or characters |
| `ExprLaws.TrimCuts` | admin-ui/public/android-expr.js:201-206 | trim cuts blanks, and only blanks, at both ends |
| `ExprTemplate.RenderAppend` | admin-ui/public/android-expr.js:164-197 | render(a + b) is render(a) followed by render(b), whatever placeholders show |
| `ExprTemplate.RenderDoubled` | admin-ui/public/android-expr.js:164-197 | a text with every opening brace doubled renders as that text |
| `ExprTemplate.TemplateRoundTrip` | admin-ui/public/android-expr.js:152-197 | a printed template, literals doubled, trees as {=...}, and paths and translations with their chains of filters, parses to the parts it was printed from |
| `ExprSlots.FilterExactly` | admin-ui/public/android-expr.js:154-162 | a filter is read from just the texts that write it: a known name, an argument in quotes or a whole number, blanks around them |
| `ExprSlots.PlaceholderExactly` | admin-ui/public/android-expr.js:175-191 | a placeholder is accepted exactly when it is a translation, a path or an expression, with its filters, and shows just that; what is written between a translation and its first bar is not looked at |
| `ExprMemo.TemplateKeyFails` | admin-ui/public/android-expr.js:48-50 | no source that begins with t: parses |
| `ExprMemo.Confusion` | admin-ui/public/android-expr.js:48-50 | two calls on a new table show that the two uses of it meet: after the template x is parsed, the expression t:x, which has no parse, is answered with the template's parts |
| `ExprMemo.Memo.ParseCached` | admin-ui/public/android-expr.js:48-94 | the memo table changes an answer exactly for a stored source that begins with t:; what it stores, and when it is emptied |
| `ExprMemo.Memo.ParseTemplateCached` | admin-ui/public/android-expr.js:164-197 | with the memo table a template that parses has the same parts; one that does not can only succeed by a stored confusion |
| `AutoLayout.Relax` | admin-ui/public/functions-builder.js:345-350 | the relaxation ends after at most as many passes as there are nodes; each depth is the length of some path, and covers all paths of up to that many wires |
| `AutoLayout.LongestPaths` | admin-ui/public/functions-builder.js:345-350 | on an acyclic flow each depth is the length of the longest path into the node |
| `AutoLayout.ForwardIffAcyclic` | admin-ui/public/functions-builder.js:345-350 | every wire leads to a deeper node exactly when the flow has no cycle |
| `AutoLayout.Place` | admin-ui/public/functions-builder.js:351-358 | nodes are put in the column of their depth, one below the other in the order of their old heights |
| `AutoLayout.SortStable` | admin-ui/public/functions-builder.js:354 | sorting keeps nodes at the same height in the order they had |
| `AutoLayout.PlacedAt` | admin-ui/public/functions-builder.js:353-357 | columns are 280 apart and start at 40; a column starts at 40, and each node is 40 below the one above it, whose height is 90 when it has no element |
| `AutoLayout.Tidy` | admin-ui/public/functions-builder.js:342-359 | the whole layout: columns by depth, no two nodes of a column overlap, and on an acyclic flow every wire runs at least one column to the right |
| `FlowBuilder.ConnectedKeeps` | admin-ui/public/functions-builder.js:471-477 | connecting keeps a flow well wired exactly when the wire starts at a port its source has and ends at one its target has; the new wire replaces just the input's old one |
| `FlowBuilder.AddedKeeps` | admin-ui/public/functions-builder.js:289-305 | a new node, with the wire let go on the canvas, keeps the flow well wired exactly when a wire that it takes hangs on a port that is still there |
| `FlowBuilder.NodeRemovedKeeps` | admin-ui/public/functions-builder.js:642-653 | removing a node removes its wires too |
| `FlowBuilder.ParamSetKeeps` | admin-ui/public/functions-builder.js:789-801 | a changed setting keeps the flow well wired although ports come and go with it |
| `FlowBuilder.ParamSetIs` | admin-ui/public/functions-builder.js:789-801 | a setting gets its value and nothing else of any node changes; just the wires stay that end at a port which is there |
| `FlowBuilder.NodeRemovedIs` | admin-ui/public/functions-builder.js:642-653 | a removed node goes with its wires, and nothing else does |
| `FlowBuilder.EdgeRemovedIs` | admin-ui/public/functions-builder.js:560-653 | a removed wire goes alone, and grabbing a wired input takes just its wire |
| `FlowBuilder.DropPortFirst` | admin-ui/public/functions-builder.js:289-297 | a new node takes a wire at its first required port, or at its first |
| `FlowBuilder.CopiedIs` | admin-ui/public/functions-builder.js:655-666 | a copy has the kind, settings, values and caption, with an input told apart by its name |
| `FlowBuilder.SelectedAfter` | admin-ui/public/functions-builder.js:289-666 | a new node or copy is the one selected, and after a removal nothing is |
| `FlowBuilder.HandAfter` | admin-ui/public/functions-builder.js:471-602 | a wire in hand is gone once it is made or let go, offered when it is dropped on the canvas, and untouched by other edits |
| `FlowBuilder.OtherGraphs` | admin-ui/public/functions-builder.js:98-801 | an edit of the canvas leaves the other functions' graphs and the flow's name, summary and language alone |
| `FlowBuilder.FunctionsIs` | admin-ui/public/functions-builder.js:195-220 | functions come and go with nothing else; one that is there is only shown |
| `FlowBuilder.StepKeeps` | admin-ui/public/functions-builder.js:98-801 | an edit keeps every graph, on the canvas and in the history, well wired exactly when the wire it makes, if any, hangs on a port that is still there; the history stays within 150 steps |
| `FlowBuilder.RunKeeps` | admin-ui/public/functions-builder.js:98-801 | over any run each wire joins two different nodes of the flow, from a port its source has to a port its target still has, and no input port has two wires, exactly when every wire that was made hung on a port still there |
| `FlowBuilder.CarefulRunKeeps` | admin-ui/public/functions-builder.js:496-602 | a run in which nothing takes ports off the canvas while a wire is in hand keeps all that, and the port of the wire in hand |
| `FlowBuilder.LostEnd` | admin-ui/public/functions-builder.js:496-602 | from any good state: a node is added, a wire begun at it, the node undone by the keyboard, and the wire let go on an input; it starts at a node that is gone |
| `FlowBuilder.WellWiredIsClosed` | admin-ui/public/functions-builder.js:342-350 | the layout's assumption that wires end at nodes of the flow holds of every well wired flow |
| `FlowBuilder.HistoryMoves` | admin-ui/public/functions-builder.js:98-100 | undo and redo move along one timeline and change nothing on it |
| `FlowBuilder.UndosRedos` | admin-ui/public/functions-builder.js:98-100 | k undos and then k redos give flow and history back exactly when there were k steps to undo or nothing to redo |
| `FlowBuilder.EditUndone` | admin-ui/public/functions-builder.js:98-801 | after any edit as many undos as it made snapshots give the flow back |
| `FlowBuilder.RunUndone` | admin-ui/public/functions-builder.js:98-801 | after any run of edits that makes up to 150 snapshots, whatever was undone before it, as many undos give back the flow at its start |
| `FlowBuilder.Builder.UndoStep` | admin-ui/public/functions-builder.js:99 | undo on the builder's fields: the whole new state |
| `FlowBuilder.Builder.RedoStep` | admin-ui/public/functions-builder.js:100 | redo on the builder's fields: the whole new state |
| `FlowBuilder.Builder.ConnectPorts` | admin-ui/public/functions-builder.js:471-477 | connect on the builder's fields, for any two ends and with or without a snapshot: the whole new state |
| `FlowBuilder.Builder.AddNodeAt` | admin-ui/public/functions-builder.js:289-305 | addNode on the builder's fields, with the wire from the box if there is one: the node and the whole new state |
| `FlowBuilder.Builder.StartWire` | admin-ui/public/functions-builder.js:560-575 | the pointer goes down on a port: a wired input gives its wire, which then hangs on its source; the whole new state |
| `FlowBuilder.Builder.DropWire` | admin-ui/public/functions-builder.js:584-595 | the pointer goes up over a port: the wire is made from the names in hand, which are not looked up again |
| `FlowBuilder.Builder.PickNode` | admin-ui/public/functions-builder.js:606-640 | a node is picked in the box for a wire that was let go on the canvas |
| `FlowBuilder.Builder.RemoveSelection` | admin-ui/public/functions-builder.js:642-653 | removeSelected on the builder's fields: the whole new state |
| `FlowBuilder.Builder.SetNodeParam` | admin-ui/public/functions-builder.js:789-801 | setParam on the builder's fields: the whole new state |
| `Sse.ReadBlock` | admin-ui/public/ai-console.js:486-498 | one block's lines make at most one event, as the recursive reading of the lines defines |
| `Sse.BlockSays` | admin-ui/public/ai-console.js:486-498 | a block of any lines makes one event, of the name given last or message, with the value of its data lines joined; none without data or JSON |
| `Sse.Drain` | admin-ui/public/ai-console.js:484-499 | the inner loop yields the events of the buffer's complete blocks and keeps the rest |
| `Sse.ReadSse` | admin-ui/public/ai-console.js:478-500 | after every chunk, and at the end, what has been yielded is exactly the events of the complete blocks of the text so far, however it was cut |
| `Sse.StreamBack` | server/admin-api.ts:346-371 | frames as the live stream writes them, mixed with keep-alive comments, are read back in order |
| `Sse.ChunksBack` | admin-ui/public/ai-console.js:478-500 | of a stream of such frames, cut anywhere, the reader has yielded after each chunk just the events of the frames that are whole by then, and in the end all of them |
| `AddressGroup.SpellingRead` | server/address-group.ts:19-40 | every lower-case spelling of section 2.2 of RFC 4291 (leading zeros, one ::, dotted tail) is read as exactly the eight words it means |
| `AddressGroup.MappedOf` | server/address-group.ts:49-50 | the mapped-address pattern finds the quad of exactly the spellings that mean a mapped address and are written with a dotted tail |
| `AddressGroup.GroupOf` | server/address-group.ts:43-56 | the group of any spelling is the IPv4 address it names or the /64 of its words |
| `AddressGroup.PrefixRead` | server/address-group.ts:50-56 | the group's text, read back, is the address's first four words and zeros |
| `AddressGroup.SameGroup` | server/address-group.ts:58-62 | two spellings that name no IPv4 address count as one exactly when their first four words agree |
| `AddressGroup.MappedInHexadecimal` | server/address-group.ts:1-16 | a mapped address counts as its IPv4 address only in the dotted form: one address, two spellings, two groups |
| `AddressGroup.DressedAlike` | server/address-group.ts:43-56 | white space, brackets, a zone and capitals make no difference to an address's group |
| `AddressGroup.QuadGroup` | server/address-group.ts:43-51 | an IPv4 address is its own group, however it is dressed |
| `AddressGroup.SameQuads` | server/address-group.ts:43-62 | two IPv4 addresses count as one exactly when they are the same |
| `AddressGroup.MappedIsQuad` | server/address-group.ts:49-62 | a mapped address in the dotted form and its plain IPv4 address are one group |
| `AddressGroup.UnknownGroup` | server/address-group.ts:43-55 | a text that is neither IPv4 nor IPv6 counts as its first 64 plain characters, unless it ends like a mapped address |
| `AddressGroup.NoGroup` | server/address-group.ts:43-55 | there is no group exactly when nothing is left of the text without white space, brackets and zone |
| `AuditCsv.ExportRead` | server/admin-api.ts:680-690 | a reader of section 2 of RFC 4180 with LF record ends gets the column names and the guarded texts; one that takes no bare carriage return fails exactly when a cell without quotes holds one |
| `AuditCsv.ExportBack` | server/admin-api.ts:680-690 | with line feeds as record ends every export is read back, cell by cell |
| `AuditCsv.ColumnsBack` | server/admin-api.ts:680-690 | under the names of the columns each entry is read back: its time in the second column, its fields by their names |
| `AuditCsv.TableRead` | server/admin-api.ts:681-687 | the same for any table of at least two columns |
| `AuditCsv.GuardedTexts` | server/admin-api.ts:683-684 | no text that is read back begins a formula, and two texts read alike only when one is the other with the guard |
| `FileProxy.Proxy.Begin` | server/file-proxy.ts:73-119 | the outcome and the new transfers in terms of the transfers alone, while index and counter keep saying the same as the transfers |
| `FileProxy.Proxy.ActiveFrom` | server/file-proxy.ts:66-71 | the loop counts the transfers of one address |
| `FileProxy.Proxy.PushChunk` | server/file-proxy.ts:121-138 | which chunks are refused and why, and what an accepted one changes |
| `FileProxy.Proxy.End` | server/file-proxy.ts:140-148 | only the sender's end is taken, and it renews the transfer |
| `FileProxy.Proxy.Cancel` | server/file-proxy.ts:150-156 | just that transfer goes |
| `FileProxy.Proxy.DropSender` | server/file-proxy.ts:163-172 | all transfers of the sender go, and no other |
| `FileProxy.Proxy.HasRoomForNewTransfer` | server/file-proxy.ts:180-183 | idle transfers go first, then the answer is about those that stay |
| `FileProxy.Proxy.Finalize` | server/file-proxy.ts:196-206 | a transfer leaves the transfers, the index and the counter together; no empty set stays in the index |
| `FileProxy.Proxy.Gc` | server/file-proxy.ts:213-221 | deleting while walking leaves just the transfers that are not idle too long |
| `FileProxy.IndexRemove` | server/file-proxy.ts:196-206 | what removal does to the inverse index |
| `FileProxy.RunCapped` | server/file-proxy.ts:73-221 | after any calls the caps per sender, per address, in total and in bytes hold and no stored transfer is cancelled |
| `FileProxy.NeverCancelled` | server/file-proxy.ts:125 | the branch for a cancelled transfer is never taken |
| `FileProxy.BytesConserved` | server/file-proxy.ts:131-137 | a stored transfer has counted exactly its accepted chunks since it began |
| `FileProxy.BegunThenPushed` | server/file-proxy.ts:78-124 | a begun transfer takes its sender's chunk exactly when the id was not cut to 128 characters |
| `FileProxy.LongIdLost` | server/file-proxy.ts:78-124 | an id of 129 characters that is accepted and then not found |
| `FileProxy.StoryAgrees` | server/file-proxy.ts:73-221 | over any run, what is stored under an id is just what the calls taken for it tell: sender, sizes, numbers and times |
| `FileProxy.ChunkAnswer` | server/file-proxy.ts:121-148 | over any run every chunk and every end is taken or refused as that says, the first reason first |
| `FileProxy.FirstObjection` | server/file-proxy.ts:73-99 | a transfer is refused for the first objection there is, and begins exactly when there is none |
| `FileProxy.BytesCounted` | server/file-proxy.ts:131-133 | a chunk without a size counts just the bytes that its base64url text holds |
| `FileProxy.PerAddressIs` | server/file-proxy.ts:30-33 | the limit per address |
| `FileProxy.GoodIdIs` | server/file-proxy.ts:78-81 | which ids a transfer can begin with |
| `ShareStore.Store.Gc` | server/share.ts:91-94 | deleting while walking leaves just the invitations that are not over |
| `ShareStore.Store.OwnedBy` | server/share.ts:97-101 | the loop counts the invitations of one owner |
| `ShareStore.Store.Create` | server/share.ts:104-143 | answer and new store for every input, first fault first |
| `ShareStore.Store.Redeem` | server/share.ts:145-166 | answer and new store for every id and code |
| `ShareStore.Store.Revoke` | server/share.ts:168-175 | answer and new store for every id and token |
| `ShareStore.LedgerAgrees` | server/share.ts:85-176 | over any run the store holds an invitation exactly when the ledger, kept from inputs and answers alone, says it is open, with the same counts, end and owner |
| `ShareStore.Conserved` | server/share.ts:129-165 | successful redemptions and uses left make up the uses, wrong codes and attempts left make five, and both that are left are above zero |
| `ShareStore.ReleasedExactly` | server/share.ts:145-166 | a secret is released exactly for the creator's code while uses and attempts are left, unrevoked and before the end; and it is the secret put in |
| `ShareStore.RedeemAnswer` | server/share.ts:145-166 | over any run every redemption is answered as the ledger says: the secret and the uses left, the tries left, the end after five, or nothing there |
| `ShareStore.RevokeAnswer` | server/share.ts:168-175 | a revocation is done exactly with the creator's token, for an invitation that is open |
| `ShareStore.FirstFault` | server/share.ts:104-121 | an input is refused for its first field that is not as asked, and for nothing else |
| `ShareStore.CreateAnswer` | server/share.ts:104-143 | a good input makes an invitation exactly when its id is free, its owner has room and all together have room; it may be used as often, and ends as many seconds later, as asked |
| `ShareStore.OwnedIs` | server/share.ts:97-125 | what counts for an address group are the open invitations that it has made |
| `ShareStore.PerOwnerIs` | server/share.ts:124-125 | the limit per owner |
| `ShareStore.StaysClosed` | server/share.ts:85-176 | over any later calls a used up, burned, revoked or ended invitation stays closed and releases nothing, until a new one is made under its id |
| `ShareStore.RunCapped` | server/share.ts:124-125 | at most 2,000 invitations, and at most the limit for one address group |
| `DesktopAuth.Store.Sweep` | server/desktop-auth.ts:68-71 | deleting while walking leaves just the requests that are not over |
| `DesktopAuth.Store.Start` | server/desktop-auth.ts:73-87 | answer and new store, with the count over the address's requests |
| `DesktopAuth.Store.Live` | server/desktop-auth.ts:89-95 | a request that is over is deleted when it is looked up |
| `DesktopAuth.Store.Info` | server/desktop-auth.ts:97-101 | answer and new store |
| `DesktopAuth.Store.Complete` | server/desktop-auth.ts:103-111 | answer and new store |
| `DesktopAuth.Store.Take` | server/desktop-auth.ts:120-132 | answer and new store |
| `DesktopAuth.Store.Cancel` | server/desktop-auth.ts:134-139 | answer and new store |
| `DesktopAuth.LedgerAgrees` | server/desktop-auth.ts:62-140 | over any run a request has accepted at most one result and handed out at most that one, once; the store has it exactly while it is open, with the key, address and end that its start gave |
| `DesktopAuth.HandedExactly` | server/desktop-auth.ts:120-132 | a result is handed out exactly to who gives the poll secret of an open request that has one: never after the end, cancelling or five wrong secrets |
| `DesktopAuth.AcceptedExactly` | server/desktop-auth.ts:103-111 | a result is accepted exactly by an open request that has none |
| `DesktopAuth.AnswersTold` | server/desktop-auth.ts:97-139 | over any run every call about a request is answered as its ledger says: what the page is shown, whether a result is accepted, what the app gets |
| `DesktopAuth.NoIdUnknown` | server/desktop-auth.ts:97-139 | a call with a name that is no id is answered as one about a request that is not there, and changes nothing |
| `DesktopAuth.StartAnswer` | server/desktop-auth.ts:73-87 | a request starts exactly with a key, a hash and room for it, under the drawn id and for the set time; otherwise the first reason is told |
| `DesktopAuth.SealedIs` | server/desktop-auth.ts:55-60 | what a sealed result is, and that it is stored as it came |
| `DesktopAuth.KeysAndIds` | server/desktop-auth.ts:28-53 | public keys and ids |
| `Base64Url.DecodeEncode` | server/desktop-auth.ts:48-53 | bytes that are written are read back |
| `Base64Url.CanonicalIs` | server/desktop-auth.ts:48-53 | text is what some n bytes are written as exactly when it has their length and no stray bits |
| `Base64Url.AlphabetIs` | server/desktop-auth.ts:48-53 | the digits are those of table 2 of RFC 4648 |
| `DesktopAuth.StaysOver` | server/desktop-auth.ts:62-140 | over any later calls a request that is over stays over, with what it accepted and handed out, and hands nothing out, until a new one starts under its id |
| `DesktopAuth.CancelDoesNotCount` | server/desktop-auth.ts:134-139 | wrong secrets given to cancel leave the request as it was |
| `DesktopAuth.RunCapped` | server/desktop-auth.ts:79-82 | at most 2,000 requests pending and at most 20 from one address |
| `ReleaseTree.Walk` | script/release-manifest.ts:117-129 | the recursive walk pushes into the shared array just the paths that its definition lists, in order |
| `ReleaseTree.WalkIsFilter` | script/release-manifest.ts:93-129 | skipping whole directories loses and adds nothing: the pruned walk lists exactly the files that the rule for one path covers |
| `ReleaseTree.NotCovered` | script/release-manifest.ts:93-107 | every file below an excluded directory is excluded |
| `ReleaseTree.GlobLines` | script/release-manifest.ts:87-90 | for every glob on one line: it matches just the names on one line that it would match if its stars stood for any characters |
| `ReleaseTree.GlobEnding` | script/release-manifest.ts:87-90 | a glob that begins with its star matches the names with that ending and nothing but one line before it |
| `ReleaseTree.SecretCovered` | script/release-manifest.ts:100-107 | a file whose name looks like one to leave out is covered all the same exactly when its name has a line end and no directory excludes it |
| `ReleaseTree.LineEndEscapes` | script/release-manifest.ts:87-90 | a name with U+2028 before .pem has the shape of a key file and is not caught |
| `ReleaseManifest.ListedExactly` | script/release-manifest.ts:161-173 | a release lists just the covered files of the whole tree, each once, in strictly ascending order |
| `ReleaseManifest.SecretListed` | script/release-manifest.ts:161-173 | of the files that only their names could leave out, a release lists just those with a line end in the name |
| `ReleaseManifest.EntriesExactly` | script/release-manifest.ts:185-191 | entries can be made exactly when all paths are safe, and each describes its file |
| `ReleaseManifest.SecretInManifest` | script/release-manifest.ts:109-191 | a manifest holds such a file exactly when its name has U+2028 or U+2029 |
| `ReleaseManifest.SecretRefused` | script/release-manifest.ts:109-191 | with a line feed or carriage return in such a name no manifest of the tree can be made |
| `ReleaseManifest.KeyListed` | script/release-manifest.ts:161-191 | a key file that gets into the manifest of its tree |
| `ReleaseManifest.VerifyTree` | script/release-manifest.ts:314-361 | the loops over listed and present files compute the report that the definitions give |
| `ReleaseManifest.MissingAndModified` | script/release-manifest.ts:333-341 | missing are the listed paths where there is nothing, modified those where there is something else than a file of that size and digest |
| `ReleaseManifest.ExtraAndExecutable` | script/release-manifest.ts:343-355 | extra are the files of the tree that are not listed, and extraExecutable those of them that can run |
| `ReleaseManifest.LowerIs` | script/release-manifest.ts:300-301 | names are compared without regard to the case of their ASCII letters, and of no others |
| `ReleaseManifest.OneVerdict` | script/release-manifest.ts:333-355 | no path is in two of the lists |
| `ReleaseManifest.SamePlace` | script/release-manifest.ts:336-341 | single dots and doubled slashes in a listed path make no difference to what is found |
| `ReleaseManifest.SafePathIs` | script/release-manifest.ts:109-115 | which paths can be written |
| `ReleaseManifest.PassesExactly` | script/release-manifest.ts:333-355 | a tree passes exactly when every listed file is as listed, nothing that can run is unlisted, and the signature is not a wrong one |
| `ReleaseManifest.SameContent` | script/release-manifest.ts:336-341 | a file that is as listed has the very content it was listed with |
| `ReleaseManifest.DistInferred` | script/release-manifest.ts:343-347 | whether the list has a file of dist is enough to know how the tree was walked |
| `ReleaseManifest.UnchangedPasses` | script/release-manifest.ts:161-361 | an unchanged tree, with release.json and its signature added, has nothing missing, modified or extra |
| `MessageBudget.Budgets.DropOver` | server/message-audit.ts:102 | deleting while walking leaves just the running windows |
| `MessageBudget.Budgets.Take` | server/message-audit.ts:98-112 | grant and new table, in the table's order |
| `MessageBudget.WindowBound` | server/message-audit.ts:98-112 | a window has counted just what it granted since it began, and that is within the limit |
| `MessageBudget.GrantedMost` | server/message-audit.ts:98-112 | a call is granted as much as it wants and its window has left; nothing more would fit |
| `MessageBudget.HourBound` | server/message-audit.ts:98-112 | in any hour a caller is granted at most twice its limit, unless its running window is thrown out |
| `MessageBudget.HourBoundReached` | server/message-audit.ts:98-112 | twice the limit is reached within a millisecond |
| `MessageBudget.FirstGoes` | server/message-audit.ts:101-105 | in a full table of running windows the first one put goes, and its caller starts over |
| `MessageBudget.NewestGoes` | server/message-audit.ts:98-107 | a sequence of calls after which the window that goes is the newest of all: one begun anew keeps its place |
| `MessageBudget.OldestGoes` | server/message-audit.ts:101-105 | whenever a window is thrown out, the table is full of running ones and it is the first: the one at place k goes exactly when k is 0 |
| `MessageBudget.InOrderExactly` | server/message-audit.ts:98-112 | by a clock that does not go back, the windows are in the order of their starts exactly when none that was begun anew in its place is ahead of an older one |
| `MessageBudget.OldestGoesExactly` | server/message-audit.ts:98-112 | over any run, the window thrown out is an oldest one exactly when the first was not begun anew after another that is still there |
| `DeviceState.Store.BoundedSet` | server/device-state.ts:38-45 | delete, insert and the loop at the head give the bounded table of the definition |
| `DeviceState.Store.ReadFresh` | server/device-state.ts:48-52 | a record past the cutoff is deleted when it is read |
| `DeviceState.PutDeviceSettings` | server/device-state.ts:57-64 | which settings are stored, and what the table is then |
| `DeviceState.PutConsent` | server/device-state.ts:73-78 | what consent is stored, and what the table is then |
| `DeviceState.WriteLeaves` | server/device-state.ts:36-45 | a write leaves the newest 5,000 of the records that are not expired, the new one last, ordered by time; nothing else is dropped |
| `DeviceState.ReadsHistory` | server/device-state.ts:36-82 | after any writes, reads and sweeps a device reads its last write exactly when that is not expired and among the newest 5,000 such writes of an unbounded history |
| `AdminDirectory.Directory.Authenticate` | server/admin-users.ts:101-132 | principal and new state for every header, with the loop over administrators and their tokens |
| `AdminDirectory.Directory.Create` | server/admin-users.ts:150-158 | answer and new state |
| `AdminDirectory.Directory.Update` | server/admin-users.ts:160-168 | answer and new state; disabling ends the sessions |
| `AdminDirectory.Directory.Remove` | server/admin-users.ts:170-176 | answer and new state; the sessions end too |
| `AdminDirectory.Directory.IssueToken` | server/admin-users.ts:179-186 | answer and new state; the ten newest tokens stay |
| `AdminDirectory.Directory.RevokeToken` | server/admin-users.ts:188-195 | answer and new state |
| `AdminDirectory.Directory.AddPasskey` | server/admin-users.ts:199-205 | answer and new state |
| `AdminDirectory.Directory.ByCredential` | server/admin-users.ts:216-223 | the loop finds the first administrator with the passkey |
| `AdminDirectory.Directory.PasskeySignIn` | server/admin-users.ts:226-236 | answer and new state; the first session goes when there are more than a thousand |
| `AdminDirectory.Directory.EndSession` | server/admin-users.ts:238-241 | new state |
| `AdminRuns.RunInv` | server/admin-users.ts:100-241 | in every reachable state each session is of a present, enabled administrator, no credential belongs to two, and the caps hold |
| `AdminRuns.LetIn` | server/admin-users.ts:113-131 | a hash lets somebody in exactly when it has a session that is not over or an enabled administrator has a token of it |
| `AdminRuns.AccountAgrees` | server/admin-users.ts:150-176 | over any run, what the directory has under each name is the account, role and whether disabled, that calls and answers tell |
| `AdminRuns.LetInAs` | server/admin-users.ts:101-176 | over any run whoever is let in has the role given last, at creation or by an update, and is not disabled |
| `AdminRuns.OthersAsBefore` | server/admin-users.ts:160-176 | changing or removing an administrator leaves every other one and their sessions as they were |
| `AdminRuns.RemovedStaysOut` | server/admin-users.ts:170-176 | a removed name, created again or not, is let in only by tokens and sessions drawn after the removal |
| `AdminRuns.GoneStaysGone` | server/admin-users.ts:101-132 | a token whose hash nobody holds lets nobody in, ever, unless it is drawn again |
| `AdminRuns.RevokedIsGone` | server/admin-users.ts:188-195 | after a revocation no administrator and no session holds the token's hash, if it had one copy |
| `AdminRuns.RunCopies` | server/admin-users.ts:100-241 | over any run a hash has no more copies, among all tokens and sessions, than it had and was drawn since |
| `AdminRuns.RevokedStaysOut` | server/admin-users.ts:101-195 | over any run from an empty directory, a token drawn once lets nobody in after it was revoked, whatever is called later but a draw of the same characters |
| `AdminRuns.DisabledHasNoSession` | server/admin-users.ts:165 | disabling ends every session of the name, and enabling brings none back |
| `AdminRuns.IssuedLetsIn` | server/admin-users.ts:179-186 | a token lets its administrator in as soon as it is issued |
| `AdminRuns.SessionLetsIn` | server/admin-users.ts:226-236 | a session lets its administrator in for eight hours, and no longer |
| `AdminRuns.EndsShownToken` | server/admin-users.ts:238-241 | the session of the token that a header shows is ended exactly when no space follows the token; otherwise it lets in as before |
| `AdminRuns.EndedStaysOut` | server/admin-users.ts:238-241 | once its session is ended, a token that no administrator has lets nobody in any more |
| `AdminAnswers.NamesAllowed` | server/admin-users.ts:150-152 | which names an administrator can have |
| `AdminAnswers.LabelIs` | server/admin-users.ts:183-202 | what a label is cut to, and what stands for none |
| `AdminAnswers.TokenShown` | server/admin-users.ts:101-106 | which token a header shows, whatever blanks are around it |
| `AdminAnswers.NoTokenShown` | server/admin-users.ts:101-106 | a header that does not begin with Bearer and a blank shows none |
| `AdminAnswers.AuthenticatedBy` | server/admin-users.ts:101-115 | who is let in: by the environment's single token, its list, or the directory, in that order |
| `AdminAnswers.CreatedOr` | server/admin-users.ts:150-158 | a name is refused for its first fault, and otherwise gets a new, enabled account |
| `AdminAnswers.TokenIssued` | server/admin-users.ts:179-186 | a new token comes last and the first of ten goes; nothing else changes |
| `AdminAnswers.TokenRevoked` | server/admin-users.ts:188-195 | a revoked token goes, and no other |
| `AdminAnswers.PasskeyComes` | server/admin-users.ts:199-205 | a passkey that somebody has is not added again; another comes last, and the first of ten goes |
| `AdminAnswers.PasskeyGone` | server/admin-users.ts:207-214 | a removed passkey goes, and no other; nobody has it afterwards |
| `AdminAnswers.SessionComes` | server/admin-users.ts:233-234 | a new session comes last, and the first of a thousand goes |
| `AdminAnswers.SignInBy` | server/admin-users.ts:226-236 | who signs in by a passkey, for how long, and how the passkey counts on |
| `Signalling.Client.EnsurePeerConnection` | browser-only-firebase/app.js:246-287 | one record for the pair; the impolite side begins to negotiate at once |
| `Signalling.Client.Receive` | browser-only-firebase/app.js:204-216 | a signal is handled once, and only with the room's secret; what is then under way |
| `Signalling.Client.Continue` | browser-only-firebase/app.js:289-334 | each asynchronous step between two waits: signaling state, flag, and the signal pushed |
| `Signalling.Client.ClosePeer` | browser-only-firebase/app.js:462-476 | the record is closed and forgotten |
| `Signalling.RunRoles` | browser-only-firebase/app.js:246-334 | in every interleaving only the smaller id offers and only the larger answers |
| `Signalling.NeverRefused` | browser-only-firebase/app.js:309-316 | the branch that refuses a colliding offer is never taken, also with connections closed and made again |
| `Signalling.OfferTaken` | browser-only-firebase/app.js:305-322 | an offer is taken unless the side has the smaller id and its connection is making an offer or not stable |
| `Signalling.SignalIgnored` | browser-only-firebase/app.js:204-303 | which signals do nothing |
| `Signalling.WhatIsPushed` | browser-only-firebase/app.js:246-334 | what each event pushes |
| `Signalling.OneExchange` | browser-only-firebase/app.js:289-328 | while neither side closes, at most one offer and at most one answer are sent, the answer after the offer |
| `Signalling.NothingFails` | browser-only-firebase/app.js:289-328 | while neither side closes, no step is refused by the browser; the answer meets the record whose offer waits for it |
| `Signalling.QuietIsDone` | browser-only-firebase/app.js:199-334 | when all signals are delivered and nothing is under way, both sides are stable and one offer and one answer have been sent |
| `Signalling.LateAnswer` | browser-only-firebase/app.js:324-328 | after a close and a new start the late answer meets a record that does not wait for it |
| `Retention.PlanRetention` | server/retention.ts:78-89 | the loops count the expired records of every kind |
| `Retention.DropOld` | server/retention.ts:109-111 | deleting from the table while walking a copy leaves the records at or after the cutoff and counts the others |
| `Retention.SweepLogs` | server/retention.ts:112-117 | logs keep their recent entries, go when none is left, and the count is right |
| `Retention.EventStore.PruneOlderThan` | server/events.ts:71-75 | the ring keeps its recent events and says how many went |
| `Retention.LiveStores.SweepRetention` | server/retention.ts:105-129 | the whole sweep: the stores after it and what it reports |
| `Retention.PlanIsSweep` | server/retention.ts:78-129 | what the dry run counts is exactly what the sweep removes |
| `Retention.RecentAt` | server/retention.ts:113 | the entries that stay are just those at or after the cutoff, in their old order |
| `Retention.KeptAt` | server/retention.ts:109-123 | the records that stay are just those at or after the cutoff, in their old order |
| `Retention.LogsAt` | server/retention.ts:112-117 | a log stays, in its place, exactly when it has a recent entry, and holds just those |
| `Retention.LeftByAge` | server/retention.ts:46-129 | a sweep leaves of each kind just the records that are no older than that kind may become |
| `Retention.LeftByDays` | server/retention.ts:3-54 | in days: as set, or 30, 60, 90, 30 and 7 |
| `Retention.SweptTwice` | server/retention.ts:105-129 | a second sweep at that time changes nothing and counts nothing |
| `Retention.UnchangedExactly` | server/retention.ts:105-129 | a sweep leaves the stores as they are exactly when the dry run counts nothing and no log was empty |

## Left out

- ExprEval.DefinedExactly: numbers, their coercion and text, `toUpperCase`, `toLowerCase`, `truncate` and the date and size formats are parameters.
- ExprTemplate.TemplateRoundTrip: `}` ends a placeholder and `|` a filter even inside quotes, and a quote cannot be escaped in a key or an argument; parts with such texts cannot be written, and are not printed.
- Characters are Unicode characters; JavaScript's UTF-16 code units, and the lower-casing of letters beyond ASCII, are not modelled.
- AutoLayout.Tidy: coordinates and heights are whole numbers; drawing, fitting and the snap to the grid are not modelled.
- FlowBuilder.StepKeeps: the node library's ports and new nodes are parameters, with fresh ids. The pointer finds just the ports that are drawn, and draws one wire at a time. Opening another flow, which clears the history, is not an edit.
- Sse.ReadSse: the decoding of bytes to text is not modelled; chunks are chunks of text.
- `runPlayground` and its history loop: a smaller member of the console without a harder property.
- AuditCsv.ExportRead: `JSON.stringify`, `String` and the ISO date are parameters.
- FileProxy.Proxy.Begin: iv and ciphertext prefixes, which nothing reads again, are not kept; `relayProxyFrame` and its broadcasts are not modelled.
- FileProxy.Proxy.PushChunk: sequence numbers are whole numbers; not-a-number and infinities are not modelled. Records are values in the map, so that sharing of a record between callers is not captured.
- ShareStore.Store.Create: the address group of the owner is an argument.
- DesktopAuth.Store.Start: bytes are compared as their canonical base64url text.
- AdminDirectory.Directory.Authenticate: the environment's tokens are given parsed; loading and persisting the file, and the console preferences, are not modelled. The object that `get` hands out is not aliased.
- ReleaseManifest.VerifyTree: the tree, the parsed manifest and the verdict on its signature are given; a symbolic link holds what it leads to, unrolled as deep as the listed paths go.
- ReleaseTree.Walk: each directory's entries are given in the order that sorting the names gives.
- The tracked files of a git work tree, `buildWebManifest`, JSON text and keys: a manifest of the served assets leaves `.DS_Store` files out that its check reports as extra.
- Retention.LiveStores.SweepRetention: lifetimes are whole days; audit logs are values, so that their identity across the splice in place is not captured.
- DeviceState.Store.BoundedSet: the retention cutoff is an argument.
- Signalling.Client.Continue: ICE candidates are signals without effect on the signaling state; data channels, leaving the room and rejoining are not modelled; sending does not fail. An offer that met an own one would be rolled back, which never happens.
- Routes, limiters, headers, sockets, persistence, canvas drawing, WebCrypto and WebRTC themselves, and the helpers with a single branch: they add no hard property.
- Protocol 4, `decide`, `permits`, `mergeTrees`, `compileFlow` and the signaling hub are not part of this model.
