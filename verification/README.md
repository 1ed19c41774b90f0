# Verification of lvim-db's protocols and text algorithms

A Dafny 4.11 project that models the parts of lvim-db whose correctness is not visible from any single
function and proves what they are for. `dafny verify dfyconfig.toml` checks all of it.

The plugin talks to a database engine in a process of its own. A statement is executed by a worker while
requests to page, cancel and release it come and go; the editor's client keeps callbacks waiting for a
handshake, for responses and for the notice that a statement has finished. Around that, the editor splits
buffers into statements, fills statement templates, and draws results in a grid measured in display cells.

| files | what they model |
|---|---|
| `Streams`, `Calls` | result streams and one call: the pager and the sections under the call's lock |
| `CallEngine`, `EngineRuns`, `CancelRuns`, `Replies`, `Server` | all interleavings of requests, tasks and workers; what a cancel does; which answer goes out to each request; the handlers in place |
| `RpcClient`, `ClientRuns`, `Told`, `Handshakes`, `Daemon`, `Stdout` | the client's tables under every event, as transitions and in place; what callbacks are told and when; line reassembly |
| `Watchers`, `EndToEnd`, `Strays`, `Settlement` | the call watchers; client and engine together; requests entered without a daemon; what holds when nothing can move |
| `LuaText`, `Statements`, `SqlSplitter`, `JsonDocs` | splitting buffers into statements and documents, with lines |
| `DisplayCells`, `Grid`, `Winbar`, `PrettyJson`, `JsonText` | cells, the grid and its edits, the sticky header, the JSON re-indenter |
| `Replacing`, `Squeezing`, `Templates` | literal replacement, space collapsing, template filling |
| `Completion`, `Numeric` | the coalescing completion cache; decimals printed exactly |

How the pieces are stated:

- Concurrency is a step system. A step is one section under a lock, one send on the channel or one firing
  of a handle; theorems quantify over all sequences of enabled steps. Callbacks are data: running one is an
  event in a log, and the loops that run captured callbacks are frames on a stack, so that a callback may
  issue requests or stop the daemon between any two turns.
- Code that changes state in place is a class or a method with a loop, proved equal to a function on
  values; the properties are about that function. The loop over an unordered table picks its keys
  nondeterministically.
- A cell is a part of a glyph, and a glyph has a width and an encoding that are independent. What a window
  shows of a line is defined once, and slicing, padding and the header are proved against it.
- The splitter is proved against a lexer without lookahead that reads the whole text from its start.
- `Fault` is a read error of the remote cursor. The whole result of a call is what it has buffered and what
  its stream still gives before the first fault ahead, or all of it when there is none. The paging laws hold
  exactly as long as no request asks for rows beyond that; `RetryAfterFaultSkipsRows` shows what happens to
  one asked again afterwards.
- A template is *well-formed* when every opening brace either begins a hole `{key}` or is followed, in the
  same stretch of literal text, by a character no key can have. A value is *harmless* under the same rule;
  only the values of holes that occur in the template matter.

Where the code does less than one might expect, the project says so with a proved statement, and with the
exact condition and a run from the start that gets there where it is about runs: a call cancelled in the
queue still runs its statement (`CancelledInQueueStillRuns`), a handle can strike the next statement on its
connection (`HandleStrikesExactlyWhen`, `HandleCanStrikeTheNextStatement`), a daemon stopped by a callback of
the handshake's flush leaves the requests pending that the flush had still to send (`StopStrandsUnsent`,
`StopDuringFlushStrandsRequest`, and over whole runs `OnlyStraysAreLeft`), re-indenting text that has a
space behind a comma or an opener, as a server's own rendering of a value can, sets the line one space too
far to the right (`LinesIndented`, `SpacedTextIsNot`), a value that spells a hole makes the result depend on
table order (`OrderMattersForHoles`), a stale fetch survives an invalidation (`StaleFetchExactlyWhen`,
`StaleFetchSurvives`) and can undo loaded columns (`LoadedStays`), a name with a dot can share its cache key
with another (`KeyIsFaithful`), a column of width 0 does not hold an edited text (`GridRow.Edit`), and coming
home to a first column as wide as the window does not show all of it (`ScrollShowsColumn`). The comment at
`native/src/server.rs:492-493` says a stale handle cannot strike another statement; the code closes only the
later part of that window: a handle taken before the call is closed may be fired at any time after.

## Model

| member | source | states |
|---|---|---|
| Streams.PullTakesPrefix | native/src/drivers/buffered.rs:58-66 | A pull of at least one row fails exactly when it asks for more than is left before a read error; otherwise it hands over exactly the next rows of what is left, with the error still ahead if one was, and says `None` exactly when nothing was left |
| Streams.PullFailsExactlyAtFault | native/src/drivers/mongodb.rs:514-534 | A pull from a live cursor fails exactly when a read error lies among the documents it has to read; the documents read before it are then lost and none after it |
| Streams.BufferedStream.NextPage | native/src/drivers/buffered.rs:58-66 | The method on the stream's position is the pull the properties are about |
| Streams.MongoCursorStream.Open | native/src/drivers/mongodb.rs:482-502 | Opening fails exactly when the first read does; otherwise the document read is held back, and every document of the cursor up to its first fault, in order, is still to be served |
| Streams.MongoCursorStream.NextPage | native/src/drivers/mongodb.rs:514-534 | The loop over `first`, `done` and `rows` is the pull the properties are about, also when a read fails half-way |
| Calls.PageIsSlice | native/src/server.rs:567-602 | A page of a finished call fails exactly when it asks for rows beyond a read error, with that error, the buffer then unchanged; otherwise it is the requested slice of the whole result with the position it starts at, whatever was asked before, the result stays what it is, and the buffer stays a prefix of it, only grows, and never past the furthest row asked for; `has_more` is false only when no row remains, the total is the one the stream knows or else the number of rows as soon as no more are to come, and the affected rows are the call's |
| Calls.HistoryIsSlicing | native/src/server.rs:567-602 | Every history of page requests, forwards and backwards, is answered as if each page were cut out of the whole result, exactly when no request asks for rows beyond a read error |
| Calls.ServedSoFar | native/src/server.rs:567-602 | Of any history the replies before the first such request are slices in any case |
| Calls.FillKeepsResult | native/src/server.rs:569-580 | The pull loop ends; it fails exactly when it needs rows beyond a read error, the buffer then unchanged, and otherwise loses and repeats no row and reads no further than it must |
| Calls.ForwardReadsAll | native/src/server.rs:569-602 | Without a read error ahead, paging forward by n until `has_more` is false ends within L / n + 1 requests, and the pages together are the whole result, each row once |
| Calls.BufferedTotal | native/src/drivers/buffered.rs:47-56 | For a buffered call every reported total is the number of rows, with one exception that is stated exactly: a pure write asked for nothing |
| Calls.TotalsInEveryHistory | native/src/server.rs:584-588 | In every history of requests every total reported for a buffered result is its number of rows, save for a pure write asked for no rows at all |
| Calls.PageFailsExactlyAtFault | native/src/drivers/mongodb.rs:518-526 | From a live cursor, with which error a page request fails and what it leaves: the stream starts after the fault, and nothing read in that pull is kept |
| Calls.RetryAfterFaultSkipsRows | native/src/drivers/mongodb.rs:518-526 | Beyond a read error the slicing law is false: a call closed with a cursor opened on a row, an error and a row fails a request for two rows, and answers the retry as if the first row had never been there |
| Calls.Call.Page | native/src/server.rs:553-603 | Paging in place, with its status cases and errors, is the section the slicing law is about |
| Calls.Call.PullUntil | native/src/server.rs:569-580 | The loop over the shared stream object, appending to the buffer in place, is the fill of the value; it ends |
| Calls.Call.Cancel | native/src/server.rs:612-618 | Fixes a running call as cancelled, leaves any other status, and takes the handle |
| Calls.Call.Close | native/src/server.rs:491-513 | The worker's closing section: the handle is dropped first, a cancelled call stays cancelled, otherwise the outcome is recorded |
| EngineRuns.InvStep | native/src/server.rs:456-515 | Every step of every interleaving of requests, tasks and workers keeps the bookkeeping of ids, handles, connection locks and channel messages |
| EngineRuns.OneNoticePerCall | native/src/server.rs:490-530 | In every interleaving each call is reported at most once, only after its id was announced, exactly when its worker is done, and under the status the call has |
| EngineRuns.OutcomeStep | native/src/server.rs:495-512 | A call leaves Running once: for Cancelled by a cancel, or for Done or Failed by its own worker's closing section |
| EngineRuns.OutcomeIsFinal | native/src/server.rs:495-512 | Once a call has left Running its status, its error and its affected rows never change again, in every run |
| EngineRuns.NoticeTellsOutcome | native/src/server.rs:491-530 | A closing worker's notice says cancelled if a cancel came first, and otherwise how the statement ended: with the affected rows a write without rows reports, or with the error it gave |
| EngineRuns.SettledCallRefusesPages | native/src/server.rs:555-563 | In every run a call that failed or was cancelled refuses every page ever asked of it, for its own reason |
| EngineRuns.OnlyDoneHolds | native/src/server.rs:495-513 | In every run a call that runs, failed or was cancelled holds no stream, no row and no count, whatever its statement gave, and a call has an error exactly when it failed |
| EngineRuns.CancelFixesOutcome | native/src/server.rs:605-623 | A cancel that finds the call running fixes it as cancelled, and every notice about it in every continuation says so |
| EngineRuns.LateCancelTakesNothing | native/src/server.rs:492-494 | A cancel whose locked section comes after the worker's closing section gets no handle |
| EngineRuns.HandlesFireOnce | native/src/server.rs:483-486 | In every run a cancel handle is fired at most once, and only for a call whose worker had registered one |
| EngineRuns.ReleasedIsGone | native/src/server.rs:628-636 | Once a release of a call has been taken up, every page and every cancel of it is refused for the rest of every run: its id is never used again |
| EngineRuns.ListedExactly | native/src/server.rs:628-636 | In every run the table resolves a call exactly as long as no release of it has been taken up since it was made |
| EngineRuns.NeverStuck | native/src/server.rs:480-491 | Every request under way can move, and an unfinished worker can, or waits for a connection whose holder can: the connection lock never deadlocks |
| EngineRuns.ClosedCallIsPageable | native/src/server.rs:500-507 | Closing a running call whose statement gave a stream makes it pageable with exactly that stream's rows, up to the read error if there is one |
| EngineRuns.PagesAgreeInEveryRun | native/src/server.rs:542-603 | Whatever else runs in between, the pages of a finished call that a run reads are all slices of the result it had when it finished, exactly when there is no read error ahead or none of them asks for rows beyond it |
| EngineRuns.ResultIsServed | native/src/server.rs:500-602 | From the statement to the page, in every run: the rows a finished statement gave are what every later page of its call is cut from, exactly as long as none asks beyond a read error |
| Replies.PageIsAnswered | native/src/server.rs:542-603 | In every run, once a page request for a listed call has been served, exactly one message has gone out for it, and it is the right one for the state the call was in when the page was read: not ready, the slice, the read error, or the call's own reason |
| Replies.PageOfFinishedCall | native/src/server.rs:565-602 | For a call that had finished when the request came that message is the slice of the result it had then exactly when the request reaches no read error, and otherwise that error, unless another request ran into the error first |
| Replies.AnsweredAtOnce | native/src/server.rs:532-540 | Which requests are answered as soon as they are taken up, and with what: a hello, a request that cannot be read, a release, and one that names a call or a connection that is not there |
| Replies.ExecuteIsAnswered | native/src/server.rs:456-482 | In every run the one answer to an execute request is a call that did not exist before, and that call gets its worker on the connection asked for |
| Replies.CancelIsAnswered | native/src/server.rs:605-623 | In every run a cancel of a listed call that has been served leaves the call not running, has fired the handle it found there, and is acknowledged, save when firing failed |
| Replies.OtherIsAnswered | native/src/server.rs:440-448 | In every run any other request is answered once, with the error it met if it met one |
| CancelRuns.HandleTakenExactlyWhen | native/src/server.rs:612-618 | In every run a cancel's locked section takes a handle exactly when the worker has registered one and since then neither has closed the call nor has another cancel of it come by |
| CancelRuns.HandleWasTaken | native/src/server.rs:612-621 | In every run a handle in a cancel's hands was taken by that cancel's own locked section |
| CancelRuns.ConnectionInRuns | native/src/server.rs:482-488 | In every run a worker has its connection exactly from taking to freeing it, and is past that exactly when it has freed it |
| CancelRuns.HandleStrikesExactlyWhen | native/src/server.rs:482-494 | In every run a handle about to be fired strikes its own statement's connection exactly when its worker has not freed it yet, and another worker's statement exactly when that worker took the connection after it was freed and has not freed it since |
| CancelRuns.CancelledInQueueStillRuns | native/src/server.rs:482-487 | A call cancelled before its worker runs the statement, even one still queued for the connection, has it run in every run that closes the call, and stays cancelled |
| CancelRuns.CancelledInQueue | native/src/server.rs:482-487 | A run from the start that cancels a call in the queue, and one from there that closes it |
| CancelRuns.HandleCanStrikeTheNextStatement | native/src/server.rs:488-494 | A run from the start in which a handle, taken after the connection was freed and before the call was closed, is fired while the next worker holds that connection |
| Servers.Server.Execute | native/src/server.rs:456-476 | The id answered was never in the table before, and the answer is the last thing on the channel when the call goes to its worker |
| Servers.Server.Finish | native/src/server.rs:491-530 | The call is closed and its notice sent in one section: the notice names the status the call has from then on |
| Servers.Server.Page | native/src/server.rs:542-603 | An unknown id is refused; otherwise the shared call object is paged in place and the page or the error is sent |
| Servers.Server.Cancel | native/src/server.rs:605-623 | An unknown id is refused; otherwise the call's cancel section runs and a failing handle is reported as an error |
| Servers.Server.Release | native/src/server.rs:628-636 | Exactly the named id leaves the table |
| Stdout.LineReader.OnStdout | lua/lvim-db/daemon.lua:206-213 | However the stream is cut into chunks, the lines handed on since the process started and the carried tail are the lines of what it has written so far |
| Stdout.LineReader.Reset | lua/lvim-db/daemon.lua:236-241 | A teardown drops the carried tail: what the next process writes is read from its own beginning, and no line handed on before is lost |
| Stdout.ChunkingIsIrrelevant | lua/lvim-db/daemon.lua:206-213 | The lines of any sequence of chunks are the lines of their concatenation |
| Stdout.LinesAreTheText | lua/lvim-db/daemon.lua:206-213 | The lines of a text hold no newline, and joined by newlines they are the text |
| ClientRuns.StepConserves | lua/lvim-db/daemon.lua:173-258 | Every event, and every turn of a loop over captured callbacks, keeps each callback in exactly one place or answered, and the depth counter equal to the handlers running |
| ClientRuns.AnsweredAtMostOnce | lua/lvim-db/daemon.lua:236-380 | In every run, through handshakes, failures and restarts and whatever callbacks do, a callback is waiting, pending, captured by a running loop or answered: in one of these, once |
| ClientRuns.TeardownLeavesNothing | lua/lvim-db/daemon.lua:236-258 | A stop or an exit, also a stop inside a handler or a callback, comes to an end within a stated bound when its callbacks ask for nothing new, and leaves no table with anything in it unless the flush of a handshake has a request left to send: every callback ever handed over has been answered once |
| ClientRuns.FailedHandshakeLeavesNothing | lua/lvim-db/daemon.lua:279-298 | So does a handshake answered with an error, with no table or by a backend too old: no daemon is left and everyone who waited for it has been answered once |
| ClientRuns.StopStrandsUnsent | lua/lvim-db/daemon.lua:310-313 | A stop between any two callbacks strands exactly as many requests as the flush it interrupts had still to send; so it leaves nothing pending, and everyone answered, exactly when there were none |
| ClientRuns.TidyStep | lua/lvim-db/daemon.lua:273-362 | Every event but such a stop keeps: without a job nothing is pending; a job that is not ready has a handshake under way; whoever waits, waits for it or for a running teardown |
| ClientRuns.IdleWithoutDaemonOwesNothing | lua/lvim-db/daemon.lua:236-362 | In every run in which no callback stops the daemon while a flush has a request left to send, an idle client without a daemon has empty tables |
| ClientRuns.StopDuringFlushStrandsRequest | lua/lvim-db/daemon.lua:265-268 | A run of a new client to such a stop and through all its loops: the request is pending although there is no daemon, was never sent, and has not been answered |
| Told.SuccessIsEarned | lua/lvim-db/daemon.lua:276-380 | In every run a callback is told of a success only when one was earned, and once no loop runs exactly then: a request by a response to it without an error, an execute by a response with its call, a caller of `ensure` by a daemon that is ready or by a good handshake it waited for; so a failed spawn, a failed handshake and a teardown tell of failures |
| Handshakes.OneHandshake | lua/lvim-db/daemon.lua:320-328 | In every run a handshake is pending exactly while there is a daemon that is not ready, and never a second one: whoever asks meanwhile waits for it |
| Handshakes.RequestsFailFirst | lua/lvim-db/daemon.lua:243-258 | When a daemon is stopped or exits between events with no handshake under way, every request is told of its failure before any call is reported on, in whatever order the tables are walked |
| Handshakes.WaitersAreToldLast | lua/lvim-db/daemon.lua:279-298 | Whoever waited for a handshake that fails is told when all else has been torn down: there is no daemon then and no table holds anything |
| Daemon.DaemonClient.OnMessage | lua/lvim-db/daemon.lua:173-200 | The handler on the module's tables is the delivery step of the client model, for responses, notices and unknown ids |
| Daemon.DaemonClient.TearDown | lua/lvim-db/daemon.lua:236-258 | Emptying the tables first and failing the captured callbacks afterwards, in the three loops the source has |
| Daemon.DaemonClient.FinishHandshake | lua/lvim-db/daemon.lua:276-313 | The handshake's own callback, with its two ways of failing, is the one of the client model |
| Daemon.DaemonClient.EnsureRunning | lua/lvim-db/daemon.lua:320-362 | Answer at once, join the waiters, spawn and greet, or fail the waiters: as the client model has it |
| Daemon.DaemonClient.RunNext | lua/lvim-db/daemon.lua:245-257 | One turn of the innermost loop over captured callbacks, in any order `pairs` may choose |
| Watchers.TrackedStep | lua/lvim-db/init.lua:31-55 | Every event keeps each begun call watched or reported on, one for one, and reports only what has begun and has not been reported on |
| Watchers.BeganOnce | lua/lvim-db/init.lua:370-384 | A call begins at most once and is reported on at most once |
| EndToEnd.InvStep | native/src/server.rs:452-480 | Every step of client and engine together, across exits and new spawns, keeps every pending request where it can be found: in the pipe, with a task, or answered on the channel |
| EndToEnd.WatcherInTime | native/src/server.rs:452-480 | What the next message finds at the client: an announced call has no watcher yet, a reported one has |
| EndToEnd.NoticeFindsItsWatcher | lua/lvim-db/init.lua:36-45 | In every run, whenever the client comes to a call's notice the call's watcher is registered, and exactly that watcher is told; every response finds its request |
| EndToEnd.AnswerReachesItsRequest | lua/lvim-db/init.lua:372-383 | In every run, whenever the client comes to an answer it runs the callback of the request the answer is for, and gives an `execute` a call id exactly when the engine announced one |
| EndToEnd.EveryRequestHasOneEnd | lua/lvim-db/init.lua:370-384 | In every run of client and engine each request is answered at most once, and a begun call is reported on at most once, after it began, and watched until then |
| EndToEnd.QuietMeansSettled | lua/lvim-db/init.lua:370-384 | When the tables are empty and no loop runs, every request has had its one answer and every begun call its one report |
| Settlement.SomethingMoves | native/src/server.rs:480-514 | While a daemon has anything to read, to do or to deliver, some step of it is possible |
| Strays.LooseStep | lua/lvim-db/daemon.lua:236-362 | Every event without exception keeps, strays aside: without a job nothing is pending; a job that is not ready has a handshake under way; whoever waits, waits for it or for a running teardown |
| Settlement.OnlyStraysAreLeft | lua/lvim-db/daemon.lua:236-362 | In every run of client and engine, whatever callbacks do: when nothing can move any more, the requests without an answer are exactly those entered as pending without a daemon and not failed by a teardown since; all others have been answered exactly once and every call that began has been reported on exactly once |
| Settlement.AllAnsweredWithoutStrays | lua/lvim-db/daemon.lua:236-362 | So at a standstill everyone has been answered exactly when there are no such requests |
| Settlement.NothingIsLeftHanging | lua/lvim-db/init.lua:362-384 | In every run in which no callback stops the daemon while a flush has a request left to send: when nothing can move any more, every request has been answered exactly once and every call that began has been reported on exactly once |
| Statements.Collector.Flush | lua/lvim-db/ui/editor.lua:87-94 | Flushing adds the trimmed segment with its lines unless it is blank, and begins a new segment |
| Statements.StatementAt | lua/lvim-db/ui/editor.lua:249-268 | The first statement covering the cursor line, else the last that starts at or before it, else the first; nothing exactly when there is none |
| Statements.MeantStartsLast | lua/lvim-db/ui/editor.lua:261-267 | On spans that run forward that is the statement with the greatest start at or before the cursor, save on a line two statements share |
| SqlSplitter.SplitStatements | lua/lvim-db/ui/editor.lua:72-158 | The five flags and the character of lookahead give what the reference lexer, which has no lookahead, gives, with the same lines |
| SqlSplitter.PiecesRejoin | lua/lvim-db/ui/editor.lua:72-158 | The pieces joined by semicolons are the text: nothing else is lost |
| SqlSplitter.CutsAreSemicolonsInCode | lua/lvim-db/ui/editor.lua:96-155 | The cuts are exactly the semicolons the reference lexer, reading the whole text, finds outside quotes and comments |
| SqlSplitter.LiteralsAreOpaque | lua/lvim-db/ui/editor.lua:100-145 | Quoted text with its quotes doubled, a line comment and a block comment are read over wherever they begin in code: no statement ends inside them, whatever they hold, and behind them the text is split as from its start |
| SqlSplitter.SplitRoundTrip | lua/lvim-db/ui/editor.lua:72-158 | The statements of any text joined by semicolons on lines of their own split back to the same list, and each alone is itself, also when its line comment lost the newline |
| SqlSplitter.SpansRunForward | lua/lvim-db/ui/editor.lua:81-157 | Statement spans are ordered: each starts before it ends and ends no later than the next one starts |
| SqlSplitter.LinesAreRight | lua/lvim-db/ui/editor.lua:81-94 | Each statement's text stands in the buffer on the line it names, and its end line is that of the semicolon or end that closes it |
| SqlSplitter.NothingIsLost | lua/lvim-db/ui/editor.lua:72-158 | Every character that is neither blank nor a semicolon in code stands in a statement |
| SqlSplitter.CursorPicks | lua/lvim-db/ui/editor.lua:249-268 | The cursor lookup on the statements of any text |
| JsonDocs.SplitJsonDocs | lua/lvim-db/ui/editor.lua:166-209 | The scanner with its depth and string flags gives the documents of the reference reading, with their lines |
| JsonDocs.DocsConcat | lua/lvim-db/ui/editor.lua:166-209 | The documents with what lies between them are the text |
| JsonDocs.DocsEndAtDepthZero | lua/lvim-db/ui/editor.lua:183-203 | Documents end exactly at the braces outside strings that bring the depth, counted over the whole text, back to zero |
| JsonDocs.StringsAreOpaque | lua/lvim-db/ui/editor.lua:183-203 | A JSON string, whatever braces and escaped quotes it holds, might as well not be there: no document ends inside it, and all others end where they would without it |
| JsonDocs.SplitRoundTrip | lua/lvim-db/ui/editor.lua:166-209 | The documents of any text, on lines of their own, split back to the same list, and each alone is itself |
| JsonDocs.SpansRunForward | lua/lvim-db/ui/editor.lua:166-209 | Document spans are ordered |
| JsonDocs.LinesAreRight | lua/lvim-db/ui/editor.lua:168-208 | Each document's text stands in the buffer on the line it names, and its end line is that of the brace that closes it, or of the end for a remainder |
| JsonDocs.NothingIsLost | lua/lvim-db/ui/editor.lua:166-209 | Every character that is no blank stands in a document or in the remainder |
| DisplayCells.TakeCells | lua/lvim-db/ui/result.lua:114-133 | The first n cells are what a window of that width shows, a character straddling the edge leaving blanks; the result is exactly that wide |
| DisplayCells.DropCells | lua/lvim-db/ui/result.lua:151-169 | What remains after n cells is what a window from there on shows, a straddling character leaving blanks |
| DisplayCells.CutCells | lua/lvim-db/ui/result.lua:139-144 | A text too wide is cut to exactly the width with an ellipsis as its last cell; at width 0 the ellipsis alone remains, which is too wide |
| DisplayCells.PadFills | lua/lvim-db/ui/result.lua:175-177 | Padding fills up to exactly the width and shows the text in it |
| Grid.Layout | lua/lvim-db/ui/result.lua:436-459 | Every column is exactly as wide as its widest content, its texts cut to 60 cells, and stands where the widths before it put it |
| Grid.ColumnsAlign | lua/lvim-db/ui/result.lua:452-459 | A column occupies the same cells in every line whose texts fit their columns |
| Grid.LaidOutAligned | lua/lvim-db/ui/result.lua:436-483 | In a grid as laid out each column stands at the same cells in the header and in all rows and shows its own content there |
| Grid.PartStands | lua/lvim-db/ui/result.lua:461-472 | Each padded cell stands in its line at the cells and at the bytes counted for it |
| Grid.InFront | lua/lvim-db/ui/result.lua:461-472 | In front of the first cell of a line stands a blank, in front of each other one a bar between two blanks, and a blank ends the line |
| Grid.MeasureRow | lua/lvim-db/ui/result.lua:461-470 | The byte geometry counted while a row is built names each cell's own bytes |
| Grid.GridRow.Edit | lua/lvim-db/ui/result.lua:1389-1422 | An edit in place replaces exactly its own cell's bytes and leaves the geometry of the whole row right; the row stays aligned exactly when the column is at least one cell wide or the new text has no width |
| Grid.ColumnAt | lua/lvim-db/ui/result.lua:888-900 | The last column whose start the cell has reached, else the first |
| Grid.CellsLeadHome | lua/lvim-db/ui/result.lua:888-900 | On a grid as laid out every cell of a column and of the gap after it leads to that column |
| Grid.ScrollShowsColumn | lua/lvim-db/ui/result.lua:942-957 | After the jump the whole column is in view exactly when it fits the window, save when coming home to a first column that leaves no room for the margin; a wider column starts at the left edge |
| Winbar.MarkedDisplays | lua/lvim-db/ui/result.lua:546-547 | A segment's status-line text shows the segment itself, percent signs included |
| Winbar.Painter.Emit | lua/lvim-db/ui/result.lua:526-548 | One segment more keeps: what is out shows what the window shows of the header so far |
| Winbar.Header | lua/lvim-db/ui/result.lua:509-563 | Wherever the grid is scrolled, the sticky header is exactly as wide as the window and shows what a window there would show of the whole header line; in a grid as laid out exactly the active column's own cells are bright |
| PrettyJson.Reindent | lua/lvim-db/ui/result.lua:186-231 | The loop gives the re-indented text of the specification |
| PrettyJson.OnlyBlanksChange | lua/lvim-db/ui/result.lua:186-231 | For every text, valid JSON or not, re-indenting changes nothing but blanks outside strings |
| PrettyJson.LinesIndented | lua/lvim-db/ui/result.lua:189-221 | For every text: every line of the result is indented by twice the number of containers open there exactly when, outside strings, no space stands right behind an opener or a comma and every line break of the text is already followed by that many spaces |
| PrettyJson.CompactIsNeat | lua/lvim-db/ui/result.lua:189-221 | So it is for every text without blanks outside strings |
| PrettyJson.SpacedTextIsNot | lua/lvim-db/ui/result.lua:1444-1445 | And it is not for `[1, 2]`, whose last value ends up three spaces in |
| PrettyJson.CompactIsLaidOut | lua/lvim-db/ui/result.lua:189-225 | Text without blanks outside strings comes out with every opener followed by its closer or by a new line, every comma by a new line, every colon by one space, every closer right behind its opener or at the start of a line, every line indented by its depth, and no other blanks |
| PrettyJson.StringsPass | lua/lvim-db/ui/result.lua:194-206 | In any text a string passes as it is, with whatever braces, commas and escaped quotes it holds, and what follows is re-indented as if it were not there |
| PrettyJson.OthersPass | lua/lvim-db/ui/result.lua:225-229 | In any text whatever is no bracket, comma, colon or quote passes as it is |
| Replacing.Plain | lua/lvim-db/proto.lua:176-188 | Every occurrence is replaced from the left, taken literally |
| Squeezing.CollapseSpaces | lua/lvim-db/proto.lua:200-224 | The loop, the closing up and the trim give the collapsed text of the specification |
| Squeezing.InkIsKept | lua/lvim-db/proto.lua:200-224 | No character other than a blank is removed, moved or changed, in any text |
| Squeezing.QuotedTextSurvives | lua/lvim-db/proto.lua:200-224 | Quoted text survives as it is exactly when no quote holds a space and a semicolon together and the text does not end in a blank inside a quote that is never closed |
| Squeezing.WordsStayApart | lua/lvim-db/proto.lua:200-224 | Words kept apart by spaces outside quotes, however many, are kept apart by one, and by none before a semicolon; words that stand together stay together; and what stands on either side is collapsed by itself |
| Squeezing.LeftAsItIs | lua/lvim-db/proto.lua:200-224 | A text is left as it is exactly when it begins and ends in no blank, has no two spaces in a row outside quotes and no space before a semicolon |
| Squeezing.CollapsedTwice | lua/lvim-db/proto.lua:200-224 | Collapsing again changes nothing exactly when no quote holds two spaces and a semicolon together |
| Templates.PlainFillsHoles | lua/lvim-db/proto.lua:176-188 | In a well-formed template replacing a hole's text fills exactly the holes of that key, whatever the value |
| Templates.FillStep | lua/lvim-db/proto.lua:486-510 | What earlier values put in is never taken for a hole |
| Templates.FillPairs | lua/lvim-db/proto.lua:506-508 | The loop over the unordered table gives the same text for every order: all holes filled at once |
| Templates.RenderDdl | lua/lvim-db/proto.lua:486-510 | A schema change is the template with all holes filled at once, for every order of the values: `{table}` with the object's name, or for a new object with the trimmed name asked for, `{qualified}` as `{schema}.{table}` or without a schema as `{table}`, the object's values taking precedence and unfilled holes keeping their braces; nothing exactly for an operation the driver does not have |
| Templates.RenderRow | lua/lvim-db/proto.lua:440-448 | A row is nothing exactly when its name is missing or all blank; any other is its template filled at once |
| Templates.RenderRows | lua/lvim-db/proto.lua:456-465 | The named rows' texts joined the driver's way |
| Templates.NamelessRowsVanish | lua/lvim-db/proto.lua:441-443 | A half-typed row changes nothing wherever it stands |
| Templates.RenderFull | lua/lvim-db/proto.lua:248-268 | A read template filled one hole after another is the template filled at once: `{qualified}` as `{schema}.{name}` or without a schema as `{name}`, `{columns}` with a star when none are asked for, `{fragments}` with each fragment behind a comma; the fragments, which come last, may be anything |
| Templates.OrderMattersForHoles | lua/lvim-db/proto.lua:506-508 | In any well-formed template, with two keys whose values may spell any holes, the two orders give the same text when each value has no place, or does not spell the other hole, or the other value spells nothing but that hole again; and only then, unless both values have a place and spell each other's hole and their own more than once |
| Templates.OrdersCanAgree | lua/lvim-db/proto.lua:506-508 | Two such values for which the orders agree all the same |
| Completion.InvStep | lua/lvim-db/cmp.lua:54-121 | Every call, reply and invalidation keeps: columns are in flight exactly when callers are parked, each parked caller is in one list, and a fetch is under way for every list |
| Completion.AnsweredAtMostOnce | lua/lvim-db/cmp.lua:54-121 | In every run no caller is answered twice, and once no fetch is under way everyone has been answered, save those an invalidation dropped |
| Completion.DroppedForGood | lua/lvim-db/cmp.lua:225-232 | In every run a caller parked on a connection when it is forgotten is never answered, and once no fetch is under way everyone else has been |
| Completion.OneFetchAtATime | lua/lvim-db/cmp.lua:87-121 | In every run in which a connection is invalidated only while no fetch for it is under way, at most one fetch is under way for each thing, and one exactly while callers are parked |
| Completion.StaleFetchExactlyWhen | lua/lvim-db/cmp.lua:228-232 | That condition is exact: in every state ever reached an invalidation can be followed by two fetches for the same structure or columns at once exactly when it finds a fetch for the connection under way |
| Completion.LoadedStays | lua/lvim-db/cmp.lua:94-98 | Columns once loaded are handed out unchanged and without another fetch in every run that does not invalidate the connection, exactly when no fetch for them is still under way |
| Completion.StructureStays | lua/lvim-db/cmp.lua:55-79 | A structure once loaded is handed out unchanged and without another fetch in every run that does not invalidate the connection, exactly when no fetch for it is still under way |
| Completion.StructureSettles | lua/lvim-db/cmp.lua:66-78 | A reply answers everyone parked on the structure with what came, or with nothing, and either is remembered |
| Completion.NoEntryNoColumns | lua/lvim-db/cmp.lua:88-92 | Columns of a connection without an entry are answered with nothing at once, and nothing is fetched |
| Completion.LoadedWithoutFetch | lua/lvim-db/cmp.lua:94-112 | And none is, in every run from the start that invalidates the connection only while no fetch for it is under way |
| Completion.StaleFetchSurvives | lua/lvim-db/cmp.lua:228-232 | A run from the start to two fetches under way for the same columns: the one that survived the invalidation and the one asked for after it |
| Completion.ReplySettles | lua/lvim-db/cmp.lua:104-120 | A reply answers everyone parked on its columns; only a success is remembered, so after a failure the next caller fetches again |
| Completion.KeyIsFaithful | lua/lvim-db/cmp.lua:93-93 | The cache key tells two objects apart exactly as long as neither name has a dot |
| Completion.CollidingObjectIsServed | lua/lvim-db/cmp.lua:93-98 | Otherwise the columns loaded for one object are handed out for the other |
| Completion.CompletionCache.WithStructure | lua/lvim-db/cmp.lua:55-79 | The tables change as the model says when the structure is asked for |
| Completion.CompletionCache.WithColumns | lua/lvim-db/cmp.lua:87-121 | The tables change as the model says when columns are asked for |
| Completion.CompletionCache.OnReply | lua/lvim-db/cmp.lua:66-120 | The tables change as the model says when a fetch is answered, and the parked callers are told in order |
| Completion.CompletionCache.Forget | lua/lvim-db/cmp.lua:228-232 | The connection's entry leaves the table, and exactly the callers parked there are dropped |
| Numeric.TextIsExact | native/src/drivers/mssql.rs:145-160 | For every value and scale the text reads back as exactly the value over ten to the scale: a minus exactly when it is negative, also when the integer part is 0, no leading zeros, and exactly that many fraction digits |
| Numeric.ReadsOnce | native/src/drivers/mssql.rs:145-160 | A decimal text reads as one value only, so no two values print alike at one scale |
| Numeric.WrittenOnce | native/src/drivers/mssql.rs:145-160 | And a value can be written in only one such way, so the text is that one |

## Left out

- Templates.RenderDdl: says nothing about templates with an opening brace that could begin a hole but does not, nor about values that spell holes, because the result then depends on table order.
- What a driver's cancel handle does when it fires; how a value is put into words and freed of control characters before the grid lays it out.
- Callbacks that throw: a throw abandons the rest of a delivery, so they are assumed not to.
- A late exit or late messages of an old process after a stop and a new spawn: they are assumed not to be delivered any more.
- A response to `query.execute` that succeeds without a `call_id`: the engine modelled here never sends one.
- Other users of a connection's lock (catalog requests, writes): they are served and answered, but not modelled as holding the lock; they touch no call. Whether a connection is there when it is looked up is left to the environment.
- Fairness and time: that a step that stays possible is taken in the end; statement timings.
- Machine integers: `from + n` and the id counters are unbounded, the decimal's integer is not limited to 128 bits.
- Row and column contents: documents become rows by a fixed conversion; column lists and the lookup of one cell are not modelled.
- JSON encoding and decoding of messages: messages are values; blank and undecodable lines are not modelled.
- Callbacks called back into the completion cache while a list is being answered are taken as calls right after it: the list is captured before the first of them runs, so they cannot affect who is in it.
- Real character tables: widths are given with the glyphs; blanks are the characters Lua's `%s` matches in the C locale.
- Highlight marks and zebra stripes of the rows.
- The editor's windows and keys; Redis line splitting; drivers' connections and catalogs; persistence, forms and rules: no property across functions.
