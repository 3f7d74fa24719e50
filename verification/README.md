# Verified model of HuaXia TourismRAG's document export and conversation machines

The project models five pieces of the repository in Dafny and proves what they are for.

**The PDF exporter** (`streamlit_app.py`) is a small document compiler: it wraps styled lines by
estimated glyph width, paginates them, draws each page with a cursor of its own, builds an object
graph with hard-coded references and writes bytes with a table of absolute offsets. `Greedy` and
`Layout` hold wrapping and pagination, `Content` the page streams, `Document` the object graph,
`FileFormat` the file, `Pipeline` the whole export. `Wrapping` says how far lines reach and how few
chunks would do, `Placement` where lines sit, `Appearance` what a reader sees of styles, headers and
footers, `Bytes` and `FileSize` that the file is ASCII and how long it can get. The meaning of the
bytes is given by a reader, which shares no constant with the writer: `FileFormat.ReadFile` checks the
version, starts from the end of the file and follows startxref, the cross-reference table and the
trailer dictionary (ISO 32000-1:2008 sections 7.5.2, 7.5.4, 7.5.5 and 7.3.10), for files of one
section and line-feed ends of line; `Syntax` is a tokenizer and a stack parser for PDF objects
(sections 7.2 and 7.3), through which every dictionary is read, the trailer's and the streams'
included;
`Document.ReadDocument` resolves Root, Pages, Kids, Parent, Resources, fonts and stream lengths
(section 7.3.8); `Content.Render` interprets the graphics and text operators (sections 8.4, 8.5 and
9.4) and decodes hexadecimal UTF-16BE strings (section 7.3.4.3). The main theorems say that reading
back what was written gives exactly what the lines call for.

**The conversation** (same file) is a class with the session-state fields; `Next` and `Run` are the
specification over which the invariants of all runs are proved. `ChatLog` holds its messages and the
prompt that quotes them when a session is lost, `Turns` what every turn does in the program's own
literals. `Polling` is the job polling loop.

**The job view** (`App.tsx`) interleaves server-sent events, source errors, fetches and job starts
(`JobView`); `JobDisplay` says what it displays of a job, `JobChannels` how it is followed.
**The CLI cache** (`cli.py`) is proved to refine its history. **The rollout report**
(`v6ImplementationRollout.ts`) is proved to make progress on any well-ordered table.

## Conventions

- A byte of the file is a character below 128 (`AsciiFile`); a Python string is a sequence of code
  points, surrogates included, so that the encoding error is part of the model (`None`).
- Lengths are exact reals; `.1f` and `.3f` round half to even. Widths use the code's own table.
- Servers, clocks and the user are parameters: outcomes, statuses, clock readings, events.
- `hide` in a proof only keeps definitions out of the solver's sight.

## Where the code falls short of a promise

- Wrapping is optimal for the widths it counts, which include white space stripped afterwards. For
  the stripped widths every limit of at least 8 has a text that gets three chunks where two would do
  (`WrapWasteful`); it is optimal exactly when packing with stripping on the way needs no fewer
  groups (`WrapOptimalExact`), always when no packed piece starts with white space
  (`WrapOptimalVisible`) and for every text without white space (`WrapOptimalUnspaced`). A run of
  white space can become a blank chunk (`BlankChunk`).
- The right margin is kept by first chunks exactly when eight units fit beside the indent
  (`RightEdgeExact`). Continuation chunks keep it for no style and no indent: some text always
  passes it (`ContinuationCrossesMargin`).
- After a source failed, what polling brings is put on display exactly when no different snapshot of
  that job was streamed before (`PolledDisplay`, `StaleDisplay`).
- A late snapshot puts an older partial answer back on display, exactly when it carries one
  (`StepRegresses`, `OlderPartial`); in the order of their age the answers only advance
  (`PartialsAdvance`).
- A prompt recovered from a lost session quotes what the checkpoint it replies to said exactly when at
  most one turn was refused in between (`RecoveredCheckpoint`, `CheckpointForgotten`).
- Parsing the sales text is canonical exactly when in no line the first or last character that is no
  bullet is white space (`ParsingIsCanonical`, `TabBehindBullet`).

## Inputs the program does not produce

These promises fail on inputs of the functions that the program does not give them: its itineraries
have gaps of at most 14 points and indents of at most 30, and its service does not send such data.

- The cross-reference table is readable exactly when the last object starts below 10^10
  (`ReadFileOf`), which objects of 10^10 characters break (`TooLong`); nine million characters and
  lines are within that (`OffsetsFit`).
- Lines stay above the footer exactly when no line is taller than a page (`ExportFits`), which takes
  a gap of some seven hundred points (`TooTall`).
- Continuation chunks pass the right margin by up to 12 points where eight units fit
  (`RightEdgeBound`), and by all of them at an indent of 343 (`FarthestContinuation`).
- Polling never runs beside an open event source as long as no job id is started twice, and every
  job gets a random id of its own (`src/huaxia_tourismrag/services/job_store.py:106`)
  (`FreshJobsOneChannel`). The page itself does not see to it: starting again an id whose source
  failed last is exactly what leads to both channels (`StepOneChannel`, `TwoChannels`).
- A quick reply goes to the session of the displayed checkpoint, with its action, as long as every
  payload that waits for a reply names a session (`QuickReplyReaches`), which the service sees to
  before a client gets it (`ClearedIsBacked`). The page itself sends the reply to a checkpoint
  without a session out as a new question (`QuickReplyTarget`, `QuickReplyAstray`).

## Model

| member | source | states |
|---|---|---|
| Layout.PdfCharUnits | src/huaxia_tourismrag/streamlit_app.py:3182-3187 | a character is 0.35 units wide exactly when it is white space, 1 exactly when it is another one outside ASCII, and 0.58 otherwise |
| Text.SpaceTable | src/huaxia_tourismrag/streamlit_app.py:3183 | white space is exactly twenty-nine characters |
| Layout.PdfWrapText | src/huaxia_tourismrag/streamlit_app.py:3160-3179 | the accumulating loop yields the stripped groups of first-fit packing, or one empty chunk for an empty text |
| Layout.ChunkWidth | src/huaxia_tourismrag/streamlit_app.py:3160-3179 | with room for one unit no chunk is wider than the limit |
| Layout.WrapLossless | src/huaxia_tourismrag/streamlit_app.py:3160-3179 | the chunks carry every visible character of the text in order |
| Layout.WrapOptimal | src/huaxia_tourismrag/streamlit_app.py:3160-3179 | no cut of the text into consecutive pieces within the limit uses fewer pieces |
| Wrapping.WrapWasteful | src/huaxia_tourismrag/streamlit_app.py:3169-3178 | for every limit of at least 8 some text gets three chunks or more although two pieces within the limit once stripped would do |
| Wrapping.PackStrippedOptimal | src/huaxia_tourismrag/streamlit_app.py:3160-3179 | the reference packing that strips as it goes cuts the text within the limit, in as few pieces as any cut whose stripped pieces are |
| Wrapping.WrapOptimalExact | src/huaxia_tourismrag/streamlit_app.py:3160-3179 | wrapping uses no more chunks than any such cut has pieces if and only if first-fit packing has no more groups than the reference packing |
| Wrapping.WrapOptimalVisible | src/huaxia_tourismrag/streamlit_app.py:3160-3179 | so it does whenever no packed piece starts with white space |
| Wrapping.WrapOptimalUnspaced | src/huaxia_tourismrag/streamlit_app.py:3160-3179 | and for every text without white space |
| Wrapping.BlankChunk | src/huaxia_tourismrag/streamlit_app.py:3169-3178 | a chunk is blank exactly when its piece is all white space, which before the last piece is a run within one unit of the limit |
| Greedy.PackSound | src/huaxia_tourismrag/streamlit_app.py:3160-3205 | both greedy loops lose and move nothing, leave no group empty, fill every group but the last and exceed the capacity only with a single item |
| Greedy.StaysAhead | src/huaxia_tourismrag/streamlit_app.py:3160-3205 | after j groups the greedy loops have gone at least as far as any j groups within the capacity |
| Greedy.PackOptimal | src/huaxia_tourismrag/streamlit_app.py:3160-3205 | no split within the capacity has fewer groups than the greedy loops |
| Layout.WrapPdfLines | src/huaxia_tourismrag/streamlit_app.py:3140-3157 | the nested loops wrap every line with its own available width, indent and gap rules |
| Layout.WrapConserves | src/huaxia_tourismrag/streamlit_app.py:3140-3157 | wrapping keeps every visible character with its style, and the sum of the gaps |
| Wrapping.RightEdgeBound | src/huaxia_tourismrag/streamlit_app.py:3140-3157 | when eight units fit beside the indent, first chunks end by 541 and continuation chunks by 553 |
| Wrapping.RightEdgeExact | src/huaxia_tourismrag/streamlit_app.py:3140-3157 | first chunks of every text keep the margin if and only if eight units fit beside the indent |
| Wrapping.ContinuationCrossesMargin | src/huaxia_tourismrag/streamlit_app.py:3144-3156 | for every style, indent and gap some text is wrapped in two chunks and the second ends beyond the right margin |
| Wrapping.FarthestContinuation | src/huaxia_tourismrag/streamlit_app.py:3149-3156 | the bound 553 is reached, at an indent of 343 |
| Layout.PaginatePdfLines | src/huaxia_tourismrag/streamlit_app.py:3190-3205 | the cursor loop yields the first-fit pages, or one page with a blank line |
| Layout.PaginateConserves | src/huaxia_tourismrag/streamlit_app.py:3190-3205 | the pages hold all lines in order and none is empty |
| Layout.PaginateOptimal | src/huaxia_tourismrag/streamlit_app.py:3190-3205 | no partition into pages within 708 has fewer pages |
| Layout.PagesFit | src/huaxia_tourismrag/streamlit_app.py:3190-3205 | every page costs at most 708 if and only if every line does |
| Layout.PageCount | src/huaxia_tourismrag/streamlit_app.py:3190-3205 | neighbouring pages together cost more than 708, and the page count is bounded by the total cost from both sides |
| Numbers.ReadFixed | src/huaxia_tourismrag/streamlit_app.py:3316-3322 | reading a fixed-point numeral gives the number rounded half to even at its last digit |
| Numbers.NearBounds | src/huaxia_tourismrag/streamlit_app.py:3316-3322 | rounding moves a number by at most half a unit and leaves whole counts of the unit alone |
| Numbers.PadWidth | src/huaxia_tourismrag/streamlit_app.py:3342 | a zero-padded numeral has exactly its width if and only if the number fits |
| Utf16.DecodeEncode | src/huaxia_tourismrag/streamlit_app.py:3316 | decoding UTF-16BE undoes encoding, surrogate pairs included |
| Utf16.UnhexHex | src/huaxia_tourismrag/streamlit_app.py:3316 | reading hexadecimal digits undoes writing them |
| Utf16.HexDigits | src/huaxia_tourismrag/streamlit_app.py:3316 | every byte is two digits, 0 to 9 or a capital A to F |
| Content.PdfContentStream | src/huaxia_tourismrag/streamlit_app.py:3264-3305 | the command loop with its own cursor writes the page's stream, each line at its baseline, and fails exactly on a text that cannot be encoded |
| Content.CursorsAgree | src/huaxia_tourismrag/streamlit_app.py:3197-3203 | on every page the cursor the renderer moves is the one the paginator moves plus 14, and that one the top margin less the cost of the lines |
| Rendering.RunTextCommand | src/huaxia_tourismrag/streamlit_app.py:3308-3326 | interpreting a text command draws its text once at its place in its font, size and colour, whatever came before |
| Rendering.RunPrelude | src/huaxia_tourismrag/streamlit_app.py:3269-3276 | the fixed start of a page fills the band and the rule and restores the graphics state |
| Rendering.StyleExact | src/huaxia_tourismrag/streamlit_app.py:3121-3130 | every size and colour of the style table is written without rounding |
| Rendering.RenderContent | src/huaxia_tourismrag/streamlit_app.py:3264-3305 | interpreting a page's stream draws the header, every line in order and one footer, nothing else |
| FileFormat.AssemblePdf | src/huaxia_tourismrag/streamlit_app.py:3329-3352 | the growing buffer and offset list produce the specified file |
| FileFormat.EntryOf | src/huaxia_tourismrag/streamlit_app.py:3341-3342 | a table entry has exactly 20 bytes, and is readable, if and only if its offset is below 10^10 |
| FileFormat.EntriesOf | src/huaxia_tourismrag/streamlit_app.py:3339-3342 | a reader of fixed-size entries recovers all offsets exactly when each fits |
| FileFormat.EntryPoints | src/huaxia_tourismrag/streamlit_app.py:3332-3337 | entry i gives the position of the bytes `i 0 obj` |
| FileFormat.FileStart | src/huaxia_tourismrag/streamlit_app.py:3338-3351 | the number before the end-of-file marker is the position of the table |
| FileFormat.FileHeader | src/huaxia_tourismrag/streamlit_app.py:3329-3337 | every file starts with the nine characters of its version, and its first object follows them |
| FileFormat.LastOffset | src/huaxia_tourismrag/streamlit_app.py:3331-3342 | all offsets fit exactly when the last object's does |
| FileFormat.ReadFileOf | src/huaxia_tourismrag/streamlit_app.py:3329-3352 | the reader returns exactly the objects and the root if and only if all offsets fit; otherwise it finds a broken table |
| FileFormat.TooLong | src/huaxia_tourismrag/streamlit_app.py:3329-3352 | objects of 10^10 characters, whose file is written and cannot be read |
| Document.BuildSimplePdf | src/huaxia_tourismrag/streamlit_app.py:3208-3261 | the object loop, with the page tree overwritten at the end, writes the specified file and fails exactly when some text cannot be encoded |
| Document.ObjectGraph | src/huaxia_tourismrag/streamlit_app.py:3208-3261 | 5 + 2p objects; every reference, the fixed 2, 4 and 5 included, resolves to an object of the intended type; page ids, content ids, Parent, Count and Length are right |
| Document.ReadPageOf | src/huaxia_tourismrag/streamlit_app.py:3232-3250 | following a page's references and interpreting its contents gives that page's marks |
| Document.ReadDocumentOf | src/huaxia_tourismrag/streamlit_app.py:3208-3352 | reading the bytes back gives every page's marks in order, if and only if all offsets fit |
| Appearance.FooterReads | src/huaxia_tourismrag/streamlit_app.py:3295-3304 | read back, the last mark of page i is the program's name and two numerals, of which the first reads i, from 1, and the second the number of pages |
| Appearance.HeaderReads | src/huaxia_tourismrag/streamlit_app.py:3269-3276 | read back, the first two marks of every page are the band and the rule, in their places and colours |
| Appearance.StyleShown | src/huaxia_tourismrag/streamlit_app.py:3121-3130 | read back, every line stands at its indent in the size and colour the style table has for it, and the next line below it by the table's leading and its own gap |
| Appearance.PageAndFont | src/huaxia_tourismrag/streamlit_app.py:3215-3243 | every page measures 595 by 842, and the font, its descendant and its descriptor have the written names and metrics |
| Bytes.AsciiFile | src/huaxia_tourismrag/streamlit_app.py:3208-3352 | no character of any exported file is above 127, so offsets and lengths in characters are in bytes |
| Pipeline.BuildPolishedPdf | src/huaxia_tourismrag/streamlit_app.py:3133-3137 | the export succeeds exactly when no input text holds a surrogate, and then is the file of the wrapped and paginated lines |
| Pipeline.EncodablePages | src/huaxia_tourismrag/streamlit_app.py:3133-3157 | wrapping and pagination neither create nor drop a text that cannot be encoded |
| Pipeline.EncodableExactly | src/huaxia_tourismrag/streamlit_app.py:3316 | a text is encodable exactly when none of its code points is from D800 to DFFF |
| Pipeline.PagesInk | src/huaxia_tourismrag/streamlit_app.py:3133-3205 | the pages carry every visible character of the lines with its style, in order |
| Pipeline.ExportConserves | src/huaxia_tourismrag/streamlit_app.py:3133-3352 | reading the exported bytes back shows, footers aside, exactly the visible characters of the input lines in order, each in its line's size and colour |
| Placement.BaselinesOnPage | src/huaxia_tourismrag/streamlit_app.py:3277-3293 | baselines go strictly down from at most 780, and every line clears 72 plus its leading exactly when the page costs at most 708 |
| Placement.ExportFits | src/huaxia_tourismrag/streamlit_app.py:3133-3205 | every line of the export clears the footer area if and only if no input line is taller than a page |
| Placement.TooTall | src/huaxia_tourismrag/streamlit_app.py:3190-3205 | a line with a gap of 800 is drawn below the lower edge of its page |
| Placement.ShownPlacement | src/huaxia_tourismrag/streamlit_app.py:3133-3352 | read back, the lines of every page go strictly down from at most 780, as rounded for printing; all are printed clear of the footer area when no input line is taller than a page, and when they are none takes more than 708.05 |
| Appearance.ShownEdges | src/huaxia_tourismrag/streamlit_app.py:3133-3326 | read back, no line ends further right than 553, rounding aside, where eight units fit beside every indent |
| FileSize.OffsetsFit | src/huaxia_tourismrag/streamlit_app.py:3133-3352 | lines that can be placed, nine million characters and lines of them at most, make a file below 10^10 bytes, whose offsets all fit |
| FileSize.ExportReads | src/huaxia_tourismrag/streamlit_app.py:3133-3352 | the export of such lines always reads back to exactly their visible characters in order and style, every line clear of the footer area |
| Conversation.Session.constructor | src/huaxia_tourismrag/streamlit_app.py:584-597 | a conversation starts empty, with no session and nothing pending |
| Conversation.Session.SubmitPrompt | src/huaxia_tourismrag/streamlit_app.py:1771-1880 | one submission, and a second without session and action after a lost session; the log and the fields become those of the specified turn |
| Conversation.Session.SubmitUserPrompt | src/huaxia_tourismrag/streamlit_app.py:1756-1768 | a prompt that is blank once cleaned changes nothing and sends nothing; any other is one turn |
| Conversation.Session.SubmitQuickReply | src/huaxia_tourismrag/streamlit_app.py:2377-2389 | a quick reply is one turn that carries its action |
| Conversation.Session.SubmitFormRequest | src/huaxia_tourismrag/streamlit_app.py:1554-1598 | a form sends one request of its own and settles like an answer or a refusal |
| Conversation.Session.SyncSession | src/huaxia_tourismrag/streamlit_app.py:2052-2056 | the stored fields follow the payload; a session is kept only with a pending reply |
| Conversation.Session.ResetConversation | src/huaxia_tourismrag/streamlit_app.py:2059-2063 | a reset is the initial state |
| Conversation.Session.LatestHandoffContext | src/huaxia_tourismrag/streamlit_app.py:2240-2277 | the backward scan finds the newest assistant message and pairs it with the last user message before it that is not blank |
| Conversation.LatestUserMessageBefore | src/huaxia_tourismrag/streamlit_app.py:2280-2289 | the backward loop returns the last user message before an index that is not blank |
| Conversation.CleanPromptBare | src/huaxia_tourismrag/streamlit_app.py:1762-1764 | a cleaned prompt that is sent is never blank |
| Turns.DropsPrefix | src/huaxia_tourismrag/frontend/streamlit_client.py:195-202 | the prefix diy, in either case and with or without its slash, and all white space around the rest are dropped |
| Turns.KeepsPrompt | src/huaxia_tourismrag/frontend/streamlit_client.py:195-202 | a prompt without the prefix only loses the white space around it |
| Conversation.RunConsistent | src/huaxia_tourismrag/streamlit_app.py:1771-1880 | over all runs, foreign exceptions included: a session implies a pending reply and is the one the newest payload named; behind an answer the fields equal that answer's |
| Conversation.NextAlternates | src/huaxia_tourismrag/streamlit_app.py:1554-1889 | a turn keeps the log alternating if and only if it does not end in a foreign exception |
| Conversation.RunAlternates | src/huaxia_tourismrag/streamlit_app.py:1554-1889 | over all runs without foreign exceptions the log alternates between one user message, never blank, and one assistant message |
| Conversation.AtMostTwoRequests | src/huaxia_tourismrag/streamlit_app.py:1791-1860 | in every reachable state a prompt makes at most two submissions: the first to the session the newest payload named, with an action only beside a session; the second exactly when that session is found lost, with neither, and with the recovery prompt, which ends with the user's; a session kept afterwards is the one its answer named |
| Turns.LostSession | src/huaxia_tourismrag/streamlit_app.py:1839-1889 | over all runs that wait on a session, a refused prompt is sent again and the session dropped exactly when the refusal has status 404 and says that the session was not found, white space around it aside; any other leaves one request and the session |
| Turns.TurnEnds | src/huaxia_tourismrag/streamlit_app.py:1756-1880 | over all runs, the log, the session, the pending flag and the error after a turn, by whether the session was lost and how the last submission ended |
| Turns.FormEnds | src/huaxia_tourismrag/streamlit_app.py:1554-1598 | the same for a form, which is sent once and clears no error |
| Conversation.Session.StaleSessionRecoveryPrompt | src/huaxia_tourismrag/streamlit_app.py:1892-1922 | the loop builds the prompt that quotes what is not blank of the four messages before the prompt |
| ChatLog.RecoveryEnds | src/huaxia_tourismrag/streamlit_app.py:1892-1922 | a recovered prompt ends with the user's prompt and is that alone exactly when those messages are blank |
| ChatLog.ContextLinesConcat | src/huaxia_tourismrag/streamlit_app.py:1897-1908 | the quoted lines stand in the order of their messages |
| ChatLog.RecoveryQuotes | src/huaxia_tourismrag/streamlit_app.py:1896-1908 | each of those messages that is not blank has its labelled line in the recovered prompt |
| Turns.LineOf | src/huaxia_tourismrag/streamlit_app.py:1897-1908 | a message is quoted by at most 600 characters under the name of who said it, the answer of its payload first |
| Turns.RecoveryText | src/huaxia_tourismrag/streamlit_app.py:1892-1922 | behind any log, four messages that are not blank and the prompt make exactly the introduction, four lines in order and the prompt as the new request |
| Conversation.RecoveredCheckpoint | src/huaxia_tourismrag/streamlit_app.py:1892-1922 | over all runs without foreign exceptions only refused turns follow the checkpoint a session waits on; the recovered prompt quotes it after at most one of them, and after more is the same whatever the checkpoint said |
| Conversation.CheckpointForgotten | src/huaxia_tourismrag/streamlit_app.py:1892-1922 | two replies that time out are such a run |
| Conversation.ClearedIsBacked | src/huaxia_tourismrag/services/travel_checkpoints.py:517-534 | an answer the service has cleared waits for a reply only with a session, and a checkpoint with a session passes unchanged |
| Conversation.QuickReplyReaches | src/huaxia_tourismrag/streamlit_app.py:2292-2298 | over all runs in which payloads that wait for a reply name a session, a shown quick reply goes to the session of the checkpoint on display with its action |
| Conversation.QuickReplyTarget | src/huaxia_tourismrag/streamlit_app.py:2292-2298 | in every run a shown quick reply goes to the displayed checkpoint's session exactly when it names one, and otherwise out as a new question |
| Conversation.QuickReplyAstray | src/huaxia_tourismrag/streamlit_app.py:2292-2298 | what a checkpoint without a session would cause: its quick reply goes out as a question of its own |
| Conversation.HandoffPairs | src/huaxia_tourismrag/streamlit_app.py:2240-2289 | over all runs without foreign exceptions a handoff is offered exactly for a finished itinerary in the last message, paired with the request right before it |
| Turns.HandoffOfLog | src/huaxia_tourismrag/streamlit_app.py:2240-2289 | for any log, the handoff is of the last assistant message, the last request before it that is not blank, and the session its payload names or else the stored one |
| Turns.NoHandoff | src/huaxia_tourismrag/streamlit_app.py:2240-2289 | there is none while a reply is waited for, without a finished answer in the last assistant message, or without a request before it |
| Polling.SubmitAndPoll | src/huaxia_tourismrag/streamlit_app.py:1941-1986 | the loop ends within one call per two seconds of the limit plus one; it returns the verdict on the first terminal status in time, with the last nonempty feed unless an empty one replaced it, and times out exactly when there is none |
| Polling.FeedAttached | src/huaxia_tourismrag/streamlit_app.py:1966-1975 | the answer carries the last feed that was a dictionary up to its status, and only if that has entries |
| Polling.NoFeedAttached | src/huaxia_tourismrag/streamlit_app.py:1966-1975 | an answer before which no feed was a dictionary carries none |
| Polling.FailureReported | src/huaxia_tourismrag/streamlit_app.py:1970-1978 | a status ends the polling exactly when it is completed with an answer or failed; a failure gives its own error or the standard one |
| JobView.App.constructor | frontend/src/App.tsx:49-56 | the page starts with no job, no answer and no source |
| JobView.App.RunEffects | frontend/src/App.tsx:77-153 | one render runs the source effect, whose cleanup closes the source it opened, and then the result effect on changed data |
| JobView.App.HandleJobEvent | frontend/src/App.tsx:89-107 | a delivered snapshot is kept as the streamed one, cached, shown, and ends the job when final |
| JobView.App.HandleSourceError | frontend/src/App.tsx:115-121 | an error closes its source and marks its job as failed over events |
| JobView.App.StartJob | frontend/src/features/travel/TripComposer.tsx:118-123 | starting a job activates it and clears the answer before the effects run |
| JobView.App.StoreFetched | frontend/src/App.tsx:58-75 | a fetched result lands under its own job's key and counts only for the active one |
| JobChannels.SourceAfterMessage | frontend/src/App.tsx:89-107 | after a delivered snapshot its source is open exactly when the snapshot neither failed nor was completed with an answer; the latter ends the job with its answer, session and id |
| JobChannels.SilentAfterEnd | frontend/src/App.tsx:89-126 | over all runs, a source that has delivered a failed snapshot, the final one or an error delivers nothing afterwards |
| JobChannels.SourceAfterError | frontend/src/App.tsx:115-121 | an error closes the active job's source and turns polling on |
| JobChannels.StepStart | frontend/src/App.tsx:77-153 | a start opens a source for the job and clears the answer, unless a snapshot of it is at hand, which is shown at once and ends the job if final |
| JobChannels.StepCache | frontend/src/App.tsx:89-92 | every snapshot delivered or fetched is cached under its job and nothing else is |
| JobView.RunSettled | frontend/src/App.tsx:77-135 | in every interleaving at most one source is open, it is the newest and belongs to the active job |
| JobView.StepTracks | frontend/src/App.tsx:89-153 | every answer shown comes from a snapshot of the job active in that step, and only a final answer ends the job |
| JobView.JobEndsWithItsAnswer | frontend/src/App.tsx:98-153 | with a truthful service, the step that leaves no job active shows that job's final answer, even beside a partial one, and records that job as completed |
| JobView.RunSession | frontend/src/App.tsx:93-152 | the active session is always the one of the answer on display |
| JobView.FinalAnswerStays | frontend/src/App.tsx:77-153 | nothing that arrives late changes the answer, the completed job or the session before a new job starts |
| JobView.StepOneChannel | frontend/src/App.tsx:58-61 | a step leads to polling beside an open source exactly when it starts again a job whose source failed last |
| JobView.RunOneChannel | frontend/src/App.tsx:58-61 | runs that never do so have one live channel at a time |
| JobView.FreshJobsOneChannel | frontend/src/App.tsx:58-121 | in every interleaving in which no job id is started twice polling never runs beside an open source |
| JobChannels.NeverAbandoned | frontend/src/App.tsx:58-126 | with event support, in every interleaving an active job is followed over an open source or by polling, unless a failed snapshot came last over a source |
| JobChannels.PolledWithoutEvents | frontend/src/App.tsx:58-84 | without event support no source is ever opened and every active job is polled |
| JobView.TwoChannels | frontend/src/App.tsx:60-121 | what a reused id would cause: four events after which one job is followed over both channels |
| JobDisplay.DisplaysActive | frontend/src/App.tsx:155 | with a truthful service the job on display is the active one |
| JobDisplay.PolledDisplay | frontend/src/App.tsx:155 | an unfinished polled snapshot is put on display exactly when no different one of that job was streamed before |
| JobDisplay.StaleDisplay | frontend/src/App.tsx:89-155 | two running snapshots, the first streamed and the second polled after the source failed: the first stays on display |
| JobDisplay.PolledAfterFailure | frontend/src/App.tsx:58-121 | in every run with event support a job is polled only after an error of one of its own open sources |
| JobDisplay.StepPartial | frontend/src/App.tsx:93-153 | while a job is active every partial answer that arrives replaces the one shown, and only a final snapshot of it ends the job |
| JobDisplay.StepRegresses | frontend/src/App.tsx:93-153 | an older answer comes on display exactly when the step brings an older partial one |
| JobDisplay.PartialsAdvance | frontend/src/App.tsx:77-153 | if a job's partial answers arrive in the order of their age, over both channels together, the one shown never gets older while the job is active |
| JobDisplay.OlderPartial | frontend/src/App.tsx:93-153 | a fetch that lands after a newer streamed snapshot puts the older partial answer back |
| SessionCache.Cache.SaveCachedSessionId | src/huaxia_tourismrag/cli.py:1199-1205 | saving replaces the file by the id |
| SessionCache.Cache.LoadCachedSessionId | src/huaxia_tourismrag/cli.py:1208-1219 | loading gives the id only from a readable object with a nonempty string |
| SessionCache.Cache.ClearCachedSessionId | src/huaxia_tourismrag/cli.py:1222-1226 | clearing removes the file, present or not |
| SessionCache.Cache.SyncSessionCache | src/huaxia_tourismrag/cli.py:1186-1196 | a response with a valid id saves it when a reply is needed and clears only its own id otherwise |
| SessionCache.Cache.Chat | src/huaxia_tourismrag/cli.py:228-288 | the chat loop sends, routes and stops as the specified rounds do |
| SessionCache.CacheRefinesHistory | src/huaxia_tourismrag/cli.py:1186-1226 | after any history the cached id is s exactly when some response asked for a reply with s, or s was cached before, and nothing since superseded it |
| SessionCache.ChatRouting | src/huaxia_tourismrag/cli.py:238-288 | a message of a running chat goes to the reply endpoint of s exactly when the messages and answers before it owe s a reply, and to a planning endpoint when they owe none; a health check goes to its own, other messages are not sent |
| SessionCache.NewForgets | src/huaxia_tourismrag/cli.py:253-256 | after `new`, with nothing sent in between, a free message never goes to a reply endpoint |
| SessionCache.ChatStops | src/huaxia_tourismrag/cli.py:246-248 | an exit or a failed message is the last of the chat, and the file stays as the history before it made it |
| SessionCache.CachedId | src/huaxia_tourismrag/cli.py:1208-1219 | the cached id is the stored string, unless that is empty |
| Rollout.BuildRolloutReadinessReport | frontend/src/app/v6ImplementationRollout.ts:281-297 | one entry for each slice in order, ready exactly when all its dependencies are complete and all its gates passed, with what is missing |
| Rollout.Missing | frontend/src/app/v6ImplementationRollout.ts:286-287 | what is missing is exactly what is wanted and not there; nothing is missing exactly when all is there |
| Rollout.MissingFilters | frontend/src/app/v6ImplementationRollout.ts:286-287 | what is missing keeps the order and the repetitions of what is wanted |
| Rollout.Progress | frontend/src/app/v6ImplementationRollout.ts:281-297 | on a well-ordered table with all gates passed some incomplete slice is reported ready |
| Rollout.ReadyMonotone | frontend/src/app/v6ImplementationRollout.ts:285-293 | more completed slices and gates never make a ready slice unready |
| Rollout.RollKeeps | frontend/src/app/v6ImplementationRollout.ts:281-297 | from any completed set, completing ready slices leaves one slice less a step, and a set closed under dependencies stays closed |
| Rollout.RolloutCompletes | frontend/src/app/v6ImplementationRollout.ts:281-297 | from any completed set a run is stuck exactly when all slices are complete, which is after exactly as many steps as slices were left |
| Rollout.SlicesWellOrdered | frontend/src/app/v6ImplementationRollout.ts:79-228 | the repository's table meets the condition |
| Rollout.CommonGates | frontend/src/app/v6ImplementationRollout.ts:72-77 | every slice has the type check and the four universal reviews among its gates |
| Rollout.FirstReport | frontend/src/app/v6ImplementationRollout.ts:79-297 | once those have passed and nothing is complete, the report calls the foundation ready and lists for every other slice its flag, its own gates and its dependencies |
| SalesList.SalesLinesFromText | src/huaxia_tourismrag/streamlit_app.py:2210-2223 | the loop collects the nonempty trimmed lines |
| SalesList.ItemsAreItems | src/huaxia_tourismrag/streamlit_app.py:2210-2223 | items are nonempty, free of separators and line boundaries, and bare of bullet characters at both ends |
| SalesList.WordsSeparated | src/huaxia_tourismrag/streamlit_app.py:2210-2223 | words joined with any one of the five separators are the items |
| SalesList.BulletsDropped | src/huaxia_tourismrag/streamlit_app.py:2219 | hyphens, bullets, asterisks and spaces around a word are dropped |
| SalesList.WordsOnLines | src/huaxia_tourismrag/streamlit_app.py:2218 | two words with any line boundary between them, carriage return and line feed together included, are two items |
| SalesList.ParsingIsCanonical | src/huaxia_tourismrag/streamlit_app.py:2210-2223 | joining the items with a line feed or any separator and parsing again gives them back exactly when in no line the first or last character that is no bullet is white space |
| SalesList.PlainTextIsCanonical | src/huaxia_tourismrag/streamlit_app.py:2210-2223 | so it does for every text whose white space is only the space and line boundaries |
| SalesList.TabBehindBullet | src/huaxia_tourismrag/streamlit_app.py:2219-2222 | a text with a tab behind a bullet whose item changes when parsed again |

## Left out

- Floating-point error and the sign of zero: lengths are exact reals.
- Font metrics and viewer behaviour; the UCS-2 encoding named in the font cannot show surrogate pairs, which the reader decodes as UTF-16.
- The lines an itinerary is turned into (`_itinerary_pdf_lines`) and CSV export: text templates and a library module.
- The wording of the form summary.
- Which endpoint variant, synchronous or job-based, carries a request, and time-outs of single HTTP calls.
- Rendering of widgets, progress labels and waiting-room cards.
- Unmounting of the page, job ids that are empty strings, and React's own scheduling: a handler, its render and its effects are one step.
- A cache file that holds JSON other than an object, or bytes that are not UTF-8, which the command line itself never writes.
- The sorting of chat messages into branches by their words.
- Release stages, rollback plans and labels of the rollout table.
