# PointlesSQL: models and proofs

PointlesSQL is a data-catalog web application. This project models the parts of it whose correctness is hardest to
see by reading: two concurrent protocols on its server, and the algorithms behind some of its pages and scripts. Each
is a Dafny model of what the code does, with proofs over every input, every state or every run.

`dafny verify dfyconfig.toml` checks everything.

## The protocols

**Canvas co-edit hub** (`coedit_*.dfy`). One in-memory CRDT document per data product is shared by browser subscribers,
relayed through bounded queues, flushed to the database periodically and torn down when the last subscriber leaves. A
document is a set of update ids: applying an update is union, the update relative to a state vector is difference. A
step is one stretch of code without a suspension of the event loop. The hub lock is never held across a suspension, so
it needs no state of its own; the registry lock is held across the loading of a row and across a teardown, and is part
of the state. `CoeditHub` is the step system, `CoeditServer.CanvasServer` the same program as a class whose methods
update the registry, hubs and queues, are proved to be exactly those steps, and keep registration and convergence.
`CoeditFrames` says on the states before and after what each received frame does, and follows frames through the queues
of a run.

An issued persist is two steps on another thread: it extracts the live document, later it writes the row. Assumed: an
issued persist runs to its end, and a row is not reloaded while a persist of that product is outstanding. What the code
does *not* ensure is that the periodic persist it stopped waiting for writes before the final one. If at teardown the
former has extracted a stale snapshot, it may overwrite the final flush, and an accepted edit is lost. `CoeditDurability`
proves that a teardown is safe on every continuation whose own teardowns are careful exactly when no outstanding persist
holds a stale snapshot, and that a run can be trusted with all edits exactly when all its teardowns are of that kind; `CoeditLostEdit` gives a run, from an empty database, that reaches the
unsafe case.

**Editor-chat turns** (`chat_*.dfy`). Several connections share one stored session and claim turns through two guards,
the connection's own active turn and the session row's claim, while detached runners finish earlier turns. `ChatTurns`
is the step system, `ChatServer.ChatEngine` the program as a class whose handlers keep the invariants. Database helpers
and sends are assumed not to raise. A reset clears the row's claim (`pointlessql/services/editor_chat/_session.py:153`), also while a turn runs, although
its description speaks of the history only. So "at most one turn" is false with a reset in the middle of a turn; it is
proved that the guards hold throughout a run exactly when no reset falls into a running turn, and that claim order of
the conversation can be relied on exactly then too (`chat_claim_order.dfy`). What needs no such
condition is proved for all runs: one terminal event and one release per accepted prompt, a cancel reaches exactly its
turn, and the stored conversation is the blocks of the final turns since the last reset in the order they ended.

## The algorithms

- `gate_collector.dfy`: the depth-first gate collector with one shared visited set, on any graph.
- `inline_md*.dfy`, `html_escape.dfy`: the markdown renderer. The passes are the leftmost matches of the program's
  patterns, written out as functions. That every anchor survives in a text without the placeholder word is false: the
  label of a link with a refused address can complete a placeholder (`RefusedLinkForgesAnchor`). The exact condition is
  that every stretch between the links is inert; a text with no such word and no refused link meets it. Forged or not, a
  rendered text is made of harmless characters, the renderer's six tags and permitted anchors (`NoForeignMarkup`).
  `inline_md_emphasis.dfy` says what each pass must do, leftmost match by leftmost match, and what plain text with one
  mark-up in it comes out as.
- `list_table.dfy`, `column_order.dfy`, `cell_order.dfy`, `sorting.dfy`: the sortable, filterable table. `Array.prototype.sort` is a
  stable sort, and `StableSortIsUnique` shows that there is only one. A column of mixed kinds may not be ordered by the
  comparator (`MixedKindsAreNotOrdered`); `OrderedIffSortable` says exactly which columns are. Clearing a sort does not
  bring the server's order back, whatever the "No sort" option's comment says (`NoSortKeepsTheSort`, `ThreeClicks`).
- `humanize_cron.dfy`: the cron humanizer against a crontab semantics. A description can mislead in three ways: a step
  that does not divide 60 (the file's comment promises the page never lies), a day or month named `constructor` or
  `__proto__`, which object lookup inherits, and a number written `-0`. `FaithfulIffPlain` says that these are all.
  `humanize_text.dfy` reads the words on the page by a table of its own and proves the same of them
  (`PageIsRightIffPlain`), and what the text for each form of line means.
- `phase_ranges.dfy`, `line_kinds.dfy`, `line_patterns.dfy`, `devlog_split.dfy`, `devlog_partition.dfy`: the phase map,
  the line patterns and the section scanner, which is proved for any classification of lines into the four kinds.
- `apps_proxy.dfy`: the two pumps of the WebSocket bridge. The worker's close is mirrored exactly when the pump towards
  the browser is never cut (`MirroredIffNeverCut`); a run in which it is cut loses it (`WorkerCloseCanBeLost`).
- `pairs.dfy`: the order of tuples of a number and a name, which two of the scripts sort by.
- `avatar_color.dfy`: the shift-and-add hash on signed 32-bit shifts.
- `recent_storage.dfy`, `regen_changelog.dfy`: the bounded recency lists and the commit ranges of a changelog. A stored
  list with a repeated name, which the writer never makes itself, can lose a slot (`RepeatedNameCostsASlot`). Ranges
  of clusters that close in the same second overlap (`EqualSecondsOverlap`); `PartitionIff` is exact for any commit times.

## Model

| member | source | states |
|---|---|---|
| CoeditRegistration.RunKeepsRegistration | pointlessql/api/dp_canvas_coedit_ws.py:134-178 | Under every interleaving of joins, leaves, creates and releases, each subscriber not yet taken off its list sits exactly once in the hub registered for its product, and lists hold nobody else |
| CoeditRegistration.LiveSubscribersShareOneHub | pointlessql/api/dp_canvas_coedit_ws.py:206-217 | In every reachable state two live subscribers of one product are listed in one and the same hub |
| CoeditRegistration.PopKeepsRegistration | pointlessql/api/dp_canvas_coedit_ws.py:149-178 | Taking a product off the registry at the end of a teardown strands no subscriber |
| CoeditRegistration.RemoveFirstDropsExactlyOne | pointlessql/api/dp_canvas_coedit_ws.py:266-268 | A leaving subscriber goes, everyone else stays |
| CoeditConvergence.OfferKeepsSync | pointlessql/api/dp_canvas_coedit_ws.py:102-109 | A broadcast either reaches the subscriber's queue or is recorded as overflow |
| CoeditConvergence.RunKeepsConverging | pointlessql/api/dp_canvas_coedit_ws.py:215-255 | Every run keeps: own accepted edits, frames taken and frames queued make up the hub document, unless a frame was dropped since an exchange last brought the subscriber level |
| CoeditConvergence.ExchangeRestoresUntilOverflow | pointlessql/api/dp_canvas_coedit_ws.py:226-237 | In any run, after an exchange whose vector claims nothing of the document out of reach, the subscriber reaches the whole document in every later state until the next frame for it is dropped |
| CoeditConvergence.ReachIsTheDocument | pointlessql/api/dp_canvas_coedit_ws.py:86-109 | In every reachable state a live subscriber without overflow can reach the whole document of its hub |
| CoeditConvergence.DrainedSubscribersAgree | pointlessql/api/dp_canvas_coedit_ws.py:181-255 | With drained queues, live subscribers of one product that have not overflowed hold equal documents |
| CoeditConvergence.Step1RestoresIff | pointlessql/api/dp_canvas_coedit_ws.py:226-237 | A state-vector exchange, after an overflow too, brings a subscriber level with the hub exactly when the vector claims nothing of the document that the subscriber cannot reach, and then the overflow no longer counts |
| CoeditDurability.StepIsSound | pointlessql/api/dp_canvas_coedit_ws.py:112-178 | Each step keeps: what a hub accepted is stored, dirty or about to be written; rows only grow; only the newest hub of a product has outstanding persists |
| CoeditDurability.CarefulRunIsSound | pointlessql/api/dp_canvas_coedit_ws.py:112-178 | The same over whole runs, across any number of teardowns and re-creations |
| CoeditDurability.NothingAcceptedIsLost | pointlessql/api/dp_canvas_coedit_ws.py:112-131 | From start-up with any rows: nothing accepted is lost, no row shrinks, and a registered hub's document contains the stored one |
| CoeditDurability.AcceptedEditIsSafe | pointlessql/api/dp_canvas_coedit_ws.py:238-251 | An edit accepted at any point of a careful run stays in its hub's document, which is stored, dirty or about to be written; it is in the row once the hub is off the registry and its persists have run |
| CoeditDurability.StoredStaysStored | pointlessql/api/dp_canvas_coedit_ws.py:112-178 | What a row holds at any point of a careful run it holds ever after |
| CoeditDurability.RemovedHubIsStored | pointlessql/api/dp_canvas_coedit_ws.py:161-178 | A hub off the registry whose persists have run is contained in the stored row |
| CoeditDurability.StaleTeardownLoses | pointlessql/api/dp_canvas_coedit_ws.py:155-178 | A teardown begun while a persist holds a stale snapshot has a continuation that loses an accepted edit |
| CoeditDurability.TeardownIsSafeIff | pointlessql/api/dp_canvas_coedit_ws.py:155-178 | Beginning a teardown is safe on every continuation whose later teardowns are careful if and only if no outstanding persist of the hub holds a stale snapshot |
| CoeditDurability.RunIsSafeIffCareful | pointlessql/api/dp_canvas_coedit_ws.py:112-178 | A run can be trusted with all edits at every point, on all careful continuations, if and only if each of its teardowns began with no stale persist outstanding |
| CoeditLostEdit.StaleTeardownIsReachable | pointlessql/api/dp_canvas_coedit_ws.py:112-178 | From an empty database there is a run to a teardown that can lose an edit |
| CoeditFrames.AwarenessEffect | pointlessql/api/dp_canvas_coedit_ws.py:253-255 | A presence frame is appended, as received, to the queue of every other subscriber listed in the sender's hub with fewer than 256 frames queued; the sender, full queues, other hubs, documents and the dirty flag are as before |
| CoeditFrames.UpdateEffect | pointlessql/api/dp_canvas_coedit_ws.py:238-252 | An update joins the hub's document, sets dirty and the author, goes to every other listed subscriber with room, is recorded as missed where the queue is full, and changes nothing else |
| CoeditFrames.AnswerEffect | pointlessql/api/dp_canvas_coedit_ws.py:226-237 | A state vector is answered to its sender alone with what the document holds beyond it, queued if there is room and else awaited |
| CoeditFrames.StepHasEffect | pointlessql/api/dp_canvas_coedit_ws.py:219-257 | Tag 0 asks for the rest of the document, 1 and 2 bring an update, 3 is presence; empty frames, other tags and payloads that do not decode change nothing |
| CoeditFrames.RunIsFifo | pointlessql/api/dp_canvas_coedit_ws.py:86-109 | Over any run what was queued for a client at first and then put in is what it was handed and what is queued at last, in order |
| CoeditFrames.PresenceIsRelayed | pointlessql/api/dp_canvas_coedit_ws.py:102-109 | Over any run since joining, the presence frames a client was handed and has queued are those the others sent, in order, less those that met its full queue |
| CoeditServer.CanvasServer.constructor | pointlessql/api/dp_canvas_coedit_ws.py:82-83 | A new process has no hubs and the rows as stored, and is valid |
| CoeditServer.CanvasServer.GetOrCreateHub | pointlessql/api/dp_canvas_coedit_ws.py:134-139 | Joins the registered hub in the same step, or begins loading under the registry lock; keeps registration and convergence |
| CoeditServer.CanvasServer.FinishCreateHub | pointlessql/api/dp_canvas_coedit_ws.py:139-145 | Registers a hub that starts from the row and joins it; keeps registration and convergence |
| CoeditServer.CanvasServer.Subscribe | pointlessql/api/dp_canvas_coedit_ws.py:207-218 | Listing the subscriber and queueing the full state are one step |
| CoeditServer.CanvasServer.BroadcastFrame | pointlessql/api/dp_canvas_coedit_ws.py:102-109 | The loop over subscribers equals one simultaneous non-blocking offer to all but the sender |
| CoeditServer.CanvasServer.HandleFrame | pointlessql/api/dp_canvas_coedit_ws.py:219-257 | One turn of the receive loop: a presence frame reaches every other listed subscriber with room and changes nothing else, an update joins the document and is relayed, a state vector is answered, empty, malformed and unknown frames change nothing; registration and convergence are kept |
| CoeditServer.CanvasServer.ResumeSuspendedPut | pointlessql/api/dp_canvas_coedit_ws.py:218-237 | A handler suspended on a full queue goes on once there is room: nothing its client can reach changes, and registration and convergence hold |
| CoeditServer.CanvasServer.Pump | pointlessql/api/dp_canvas_coedit_ws.py:86-91 | Takes exactly the oldest queued frame and changes nothing of what the client can reach; registration and convergence hold |
| CoeditServer.CanvasServer.StopReceiving | pointlessql/api/dp_canvas_coedit_ws.py:258-265 | The end of the receive loop leaves the subscriber listed in the registered hub; registration and convergence hold |
| CoeditServer.CanvasServer.Unsubscribe | pointlessql/api/dp_canvas_coedit_ws.py:266-268 | Exactly this subscriber leaves its own hub's list; registration and convergence hold |
| CoeditServer.CanvasServer.ReleaseHubIfEmpty | pointlessql/api/dp_canvas_coedit_ws.py:148-160 | Nothing to do, or the teardown begins and the flush task is stopped; registration and convergence hold |
| CoeditServer.CanvasServer.FlushBeforeTearDown | pointlessql/api/dp_canvas_coedit_ws.py:161-177 | The final flush is issued exactly if the hub is dirty; registration and convergence hold |
| CoeditServer.CanvasServer.FinishTearDown | pointlessql/api/dp_canvas_coedit_ws.py:170-178 | The hub leaves the registry and the lock is freed, when every subscriber of the product left is already off the lists; registration and convergence hold |
| CoeditServer.CanvasServer.FlushOnce | pointlessql/api/dp_canvas_coedit_ws.py:114-129 | A flush tick issues a persist exactly if dirty, and clears the flag first; registration and convergence hold |
| ChatGuards.StepKeepsGuardedIffQuiet | pointlessql/api/_editor_chat_ws.py:334-358 | A step keeps both guards on every running turn exactly when it is not a reset during a turn |
| ChatGuards.RunIsGuardedIffQuiet | pointlessql/api/_editor_chat_ws.py:288-306 | The same for whole runs |
| ChatGuards.GuardedIffExclusive | pointlessql/api/_editor_chat_ws.py:334-358 | On continuations with quiet resets, turns can never overlap from a state on if and only if every running turn holds the row's claim |
| ChatGuards.ActiveTurnHoldsTheClaim | pointlessql/api/_editor_chat_ws.py:334-358 | Over all interleavings with no reset during a turn: at most one turn between claim and release, and every active id names the claim's turn |
| ChatGuards.OneTurnPerConnection | pointlessql/api/_editor_chat_ws.py:334-353 | In all runs a connection runs at most one turn of its own |
| ChatGuards.ResetDuringTurnAdmitsSecond | pointlessql/services/editor_chat/_session.py:140-154 | A reset during a turn lets a second connection's turn run beside it |
| ChatHistory.OneEndPerAcceptedPrompt | pointlessql/api/_editor_chat_ws.py:379-437 | In all runs every accepted prompt has exactly one terminal event and one release, or still runs and has none |
| ChatHistory.EveryTurnCanEnd | pointlessql/api/_editor_chat_ws.py:360-442 | A running turn always has a step of its own towards its end |
| ChatHistory.CancelReachesExactlyItsTurn | pointlessql/api/_editor_chat_ws.py:290-292 | While a turn runs its connection's flag is set exactly if that connection cancelled since the turn was accepted |
| ChatHistory.CancelledTurnsWereCancelled | pointlessql/api/_editor_chat_ws.py:408-412 | A turn that ended as cancelled was cancelled, after its acceptance, by the connection that asked for it |
| ChatConversation.ConversationIsTheFinals | pointlessql/api/_editor_chat_ws.py:360-433 | In all runs the stored conversation is the user-plus-messages blocks of the turns that ended in final since the last reset, in the order they ended; failed and cancelled turns add nothing |
| ChatConversation.ConversationIsInClaimOrder | pointlessql/api/_editor_chat_ws.py:413-422 | With no reset during a turn the blocks are in claim order, and each agent worked on exactly the stored history |
| ChatConversation.PublishAddsItsBlock | pointlessql/api/_editor_chat_ws.py:408-433 | The end of a turn that ran alone adds its block to the claim-ordered conversation, or nothing |
| ChatClaimOrder.ResetKeepsClaimOrderIff | pointlessql/services/editor_chat/_session.py:140-154 | After a reset, every continuation with quiet resets keeps the conversation in claim order if and only if no turn was running at the reset |
| ChatClaimOrder.RunIsOrderedIffQuiet | pointlessql/api/_editor_chat_ws.py:288-306 | A run can be trusted with claim order at every point, on all continuations with quiet resets, if and only if its own resets are quiet |
| ChatClaimOrder.EveryRunIsOrderedIffQuiet | pointlessql/api/_editor_chat_ws.py:288-306 | The same for every run from start-up |
| ChatClaimOrder.UnguardedBreaksClaimOrder | pointlessql/api/_editor_chat_ws.py:334-437 | From any state with a running turn and the claim free, prompts from two new connections end out of claim order |
| ChatClaimOrder.DriveToEnd | pointlessql/api/_editor_chat_ws.py:360-442 | A turn in any phase can be driven to its end with nothing else happening |
| ChatClaimOrder.ResetDuringTurnBreaksClaimOrder | pointlessql/services/editor_chat/_session.py:140-154 | A reset during the only turn: its block is all the conversation, though no turn was accepted since the reset |
| ChatServer.FrameHasEffect | pointlessql/api/_editor_chat_ws.py:288-306 | "cancel" sets this connection's flag and nothing else of conversation, claim, turns and flags; "reset" empties the conversation, clears the claim and leaves flags and turns; "prompt" is a prompt; any other frame changes nothing unless a surface runs a prompt for it |
| ChatServer.PromptHasEffect | pointlessql/api/_editor_chat_ws.py:309-358 | A prompt with words, no turn of its own and the claim free adds one turn with that text, holding the claim, and clears the flag; any other changes nothing |
| ChatServer.EndHasEffect | pointlessql/api/_editor_chat_ws.py:401-437 | The end of a turn takes it off, frees its connection and clears the claim; a final one appends its user text and then its messages to the conversation, a failed or cancelled one nothing |
| ChatServer.ChatEngine.ClaimTurn | pointlessql/services/editor_chat/_session.py:157-187 | Compare-and-set of the row's claim |
| ChatServer.ChatEngine.ReleaseTurn | pointlessql/services/editor_chat/_session.py:190-201 | Clears the claim whoever holds it |
| ChatServer.ChatEngine.AppendTurnMessages | pointlessql/services/editor_chat/_session.py:101-137 | Appends the messages and clears the claim |
| ChatServer.ChatEngine.ResetSession | pointlessql/services/editor_chat/_session.py:140-154 | Empties the conversation and clears the claim |
| ChatServer.ChatEngine.HandleFrame | pointlessql/api/_editor_chat_ws.py:288-306 | "cancel" sets exactly this connection's flag, "reset" empties the conversation and clears the claim, "prompt" may add one turn, every other frame is refused unless a surface runs a prompt for it; kept: ids and turns name each other, the conversation is what the log tells, flags mean cancels |
| ChatServer.ChatEngine.HandlePrompt | pointlessql/api/_editor_chat_ws.py:309-358 | Refused without words, with a turn of its own or the claim held; otherwise one new turn with this text, holding the claim, and the cancel flag down |
| ChatServer.ChatEngine.RunnerStarts | pointlessql/api/_editor_chat_ws.py:360-366 | The runner works on the blocks of the final turns since the last reset, read when it starts; the invariants hold |
| ChatServer.ChatEngine.RunnerFails | pointlessql/api/_editor_chat_ws.py:379-400 | A raising agent ends in error, leaves the conversation and releases; the invariants hold |
| ChatServer.ChatEngine.RunnerFinishes | pointlessql/api/_editor_chat_ws.py:401-437 | A returned turn ends in cancelled or in final with its block stored, and releases; the invariants hold |
| ChatServer.ChatEngine.CleanUp | pointlessql/api/_editor_chat_ws.py:434-437 | Releases the row and the connection's own turn |
| GateCollector.CollectGates | scripts/authz_matrix_generate.py:35-55 | What an inner call with a shared visited set promises: newly visited nodes are closed over, their gates collected, nothing unreachable taken; unvisited nodes decrease |
| GateCollector.GatesOf | scripts/authz_matrix_generate.py:35-55 | On every graph, cyclic ones included: a name is returned if and only if it begins with "require_" or is "admin_uc", and names a dependency the root reaches |
| GateCollector.ClosedContainsPath | scripts/authz_matrix_generate.py:45-55 | A visited set that is closed over contains everything reachable, along paths of any length |
| GateCollector.VisitExpands | scripts/authz_matrix_generate.py:47-54 | One recursive visit extends the closed part, though the inner call skips branches already visited |
| GateCollector.IsGateIff | scripts/authz_matrix_generate.py:32-50 | A name counts as a gate if and only if it is "admin_uc" or "require_" and anything after it |
| GateCollector.RouteStatus | scripts/authz_matrix_generate.py:71-86 | A route is role-gated if and only if a gate is reachable, else public if and only if a public prefix matches |
| ColumnOrder.CompareIsTotal | frontend/js/list_table.js:226-235 | Between any two keys the comparator is antisymmetric in sign |
| ColumnOrder.CompareIsTransitive | frontend/js/list_table.js:226-235 | Between aligned keys it is transitive, empty cells included |
| ColumnOrder.OrderedIffSortable | frontend/js/list_table.js:226-235 | The comparator is a total preorder on a column, in either direction, if and only if any three keys are aligned: beside a word all numbers are equal, and every number lies above the first or below the second of two texts in order |
| ColumnOrder.OneKindIsSortable | frontend/js/list_table.js:208-235 | A column whose cells that are not empty are all numbers or all texts is such a column |
| ColumnOrder.MixedKindsAreNotOrdered | frontend/js/list_table.js:226-235 | With a word between two numbers it is not transitive |
| ColumnOrder.SortedColumn | frontend/js/list_table.js:222-241 | Sorting a column that the comparator orders, so any column of one kind, gives a stable permutation in the chosen direction with empty cells last in both directions |
| CellOrder.NumeralIff | frontend/js/list_table.js:210 | The pattern for numbers takes exactly the texts of an optional minus, digits, and optionally a dot and digits |
| CellOrder.DateIff | frontend/js/list_table.js:215 | The pattern for dates takes exactly the texts that start with four digits, two and two, with minus signs between |
| CellOrder.CoerceReads | frontend/js/list_table.js:208-220 | A cell is a number if it is a numeral with a finite value or a date that parses, a text in lower case otherwise, and empty if absent |
| CellOrder.BeforeIff | frontend/js/list_table.js:232-233 | Texts compare by the first character in which they differ, or by which one ends first |
| CellOrder.SortedCells | frontend/js/list_table.js:222-241 | On the cells themselves: sorted rows are a permutation in which numbers and dates stand by value, texts by first difference, in the direction asked, absent and empty cells behind all, and rows that read the same in their old order |
| Sorting.StableSortIsUnique | frontend/js/list_table.js:226-235 | Any stable ordered permutation of distinct rows is the same one, so the engine's sort may be relied on |
| Sorting.SortIsStable | frontend/js/list_table.js:226-235 | Rows that compare equal keep their order |
| ListTable.StepKeepsCoherent | frontend/js/list_table.js:151-274 | Each sort, filter, search and refresh step keeps rows, visibility, notice and direction right |
| ListTable.EveryRunIsCoherent | frontend/js/list_table.js:151-274 | After any run from mounting on: rows are a permutation of the last snapshot in page order, a row is hidden if and only if it does not match the query applied and the active chips, the notice shows if and only if none matches, a sort column that the comparator orders is in its direction, and a query not yet applied has its timer running |
| ListTable.SortKeepsPageOrder | frontend/js/list_table.js:236-240 | Re-appending the sorted rows keeps the body free of duplicates and the rows in page order |
| ListTable.ThreeClicks | frontend/js/list_table.js:161-175 | Three clicks on the header of a column that the comparator orders clear the sort and leave the rows as one descending sort would: the former order is back if and only if it was descending |
| ListTable.NoSortKeepsTheSort | frontend/js/list_table.js:177-189 | A pick in the dropdown and then its "no sort" option leave the rows as that one sort would: the former order is back if and only if the rows were in that direction |
| ListTable.SecondSortKeepsFirst | frontend/js/list_table.js:161-175 | Sorting by a second column keeps the order of the first among level rows, both columns being ordered by the comparator |
| ListTable.RefreshChangesNothing | frontend/js/list_table.js:269-274 | From any coherent state with the query applied and a sort column that the comparator orders, refreshing when the page has added no rows changes nothing |
| ListTable.ChipTwice | frontend/js/list_table.js:156-159 | Activating a chip and deactivating it again restores the whole table |
| ListTable.OptionChoosesIff | frontend/js/list_table.js:177-194 | An option of the mobile dropdown selects its own column and direction if and only if the key has no colon |
| ListTable.MatchesIff | frontend/js/list_table.js:243-253 | A row matches if and only if the trimmed query in lower case stands in its search text, where there are both, and every active chip agrees |
| ListTable.WordsOfOption | frontend/js/list_table.js:177-189 | An option's value ends in ":asc" or ":desc", which give the direction, and the key is what stands before |
| ListTable.SortHasEffect | frontend/js/list_table.js:222-241 | Sorting by a key permutes the rows, and orders their cells of that key as `SortedCells` says if they are of one kind |
| ListTable.CoherentCells | frontend/js/list_table.js:222-241 | In every coherent state, so at any point of any run, the page shows the sorted column's cells in order if they are of one kind |
| ListTable.RefreshTakesAll | frontend/js/list_table.js:269-274 | A refresh takes every row of the page in, each once |
| ListTable.MountTakesAll | frontend/js/list_table.js:73-149 | So does mounting |
| ListTable.Component.constructor | frontend/js/list_table.js:58-149 | Mounting takes the rows in, sorts if a key is set and filters; the table is coherent from then on |
| ListTable.Component.ApplySort | frontend/js/list_table.js:222-241 | Rows become a permutation in which the cells of the sort key stand in the chosen direction, numbers as numbers, dates as times, texts by first difference, absent and empty ones last, level rows as they were; they stand at the end of the body |
| ListTable.Component.MoveToEnd | frontend/js/list_table.js:236-239 | Moving rows one by one through a fragment takes each out of the body and appends all in order |
| ListTable.Component.ApplyFilter | frontend/js/list_table.js:255-263 | The loop hides exactly the rows that the query and the active chips do not ask for, and shows the notice exactly if none is left |
| ListTable.Component.ToggleSort | frontend/js/list_table.js:161-175 | Ascending, descending, none; then sort and filter; keeps the table coherent |
| ListTable.Component.OnMobileSort | frontend/js/list_table.js:177-189 | Key and direction from the option's value; then sort and filter; keeps the table coherent |
| ListTable.Component.ToggleChip | frontend/js/list_table.js:156-159 | Flips the chip and filters; keeps the table coherent |
| ListTable.Component.OnInput | frontend/js/list_table.js:151-154 | A new query starts the timer, and until it fires rows are hidden by the query last applied; keeps the table coherent |
| ListTable.Component.OnTimer | frontend/js/list_table.js:151-154 | When the timer has fired, a row is hidden if and only if it does not match the query as typed; keeps the table coherent |
| ListTable.Component.RefreshRows | frontend/js/list_table.js:269-274 | Takes the rows in afresh, sorts and filters; keeps the table coherent |
| HtmlEscape.EscapeIsOnePass | frontend/js/inline_md.js:22-29 | The five sequential replacement passes equal a one-pass escape of each character |
| HtmlEscape.UnescapeRecovers | frontend/js/inline_md.js:22-29 | Unescaping recovers every string |
| HtmlEscape.EscapedIsHarmless | frontend/js/inline_md.js:22-29 | No character is left that could open a tag or leave an attribute |
| HtmlEscape.EscapedInPlace | frontend/js/inline_md.js:22-29 | Each of the five characters gives its own entity, every other character itself, in order |
| InlineMd.ExtractLinks | frontend/js/inline_md.js:56-63 | The replacement with its side effect on the list gives the text with placeholders and the anchors in order |
| InlineMd.RenderInlineMd | frontend/js/inline_md.js:50-73 | The passes in the program's order, pinned by the rows on `Renders` below: code, strong, both emphases and links come out as their tags; an absent text counts as empty |
| InlineMdAnchors.ExtractIsWeave | frontend/js/inline_md.js:57-63 | Extraction is the stretches between links with placeholders woven in, and the links' anchors |
| InlineMdRewriting.EmphasiseRewrites | frontend/js/inline_md.js:64-70 | All four emphasis passes together only replace runs of marks by tags and keep every other character in place |
| InlineMdAnchors.RewriteWeave | frontend/js/inline_md.js:64-70 | So they act on each stretch on its own and leave the placeholders alone |
| InlineMdAnchors.StitchWeaveIff | frontend/js/inline_md.js:71 | Stitching gives the anchors in order, each once, if and only if every stretch is inert |
| InlineMdRender.AnchorsSurviveIff | frontend/js/inline_md.js:50-73 | For every text: each anchor appears once, in order and unaltered, and every stretch is left to emphasis alone, if and only if the stretches of the escaped text are inert |
| InlineMdRender.AnchorsSurvive | frontend/js/inline_md.js:50-73 | A text without the placeholder word and without a refused link meets that condition |
| InlineMdRender.RefusedLinkForgesAnchor | frontend/js/inline_md.js:57-71 | A text without the placeholder word whose one anchor comes out twice, because a refused link's label completes a placeholder |
| InlineMdRender.RenderedAnchorsAreSafe | frontend/js/inline_md.js:33-63 | For every text each stitched anchor has a web or root-relative address, and no character that ends the attribute or opens a tag |
| InlineMdMarkup.NoForeignMarkup | frontend/js/inline_md.js:10-73 | For every text, forged placeholders included, what is rendered is harmless characters, the renderer's six tags and its permitted anchors, and nothing else |
| InlineMdEmphasis.CodeIsLeftmost | frontend/js/inline_md.js:66 | The leftmost stretch between back-quotes becomes code, with what stands before it unchanged, and the pass goes on behind it |
| InlineMdEmphasis.CodeLeaves | frontend/js/inline_md.js:66 | Where no such stretch stands, nothing changes |
| InlineMdEmphasis.BoldIsLeftmost | frontend/js/inline_md.js:68 | The leftmost stretch without stars between double stars becomes strong, and the pass goes on behind it |
| InlineMdEmphasis.BoldLeaves | frontend/js/inline_md.js:68 | Where no such stretch stands, nothing changes |
| InlineMdEmphasis.ItalicIsLeftmost | frontend/js/inline_md.js:69-70 | The leftmost stretch between single stars, or underscores, that starts with no white space becomes emphasis, and the pass goes on behind it |
| InlineMdEmphasis.ItalicLeaves | frontend/js/inline_md.js:69-70 | Where no such stretch stands, nothing changes |
| InlineMdEmphasis.CodeRenders | frontend/js/inline_md.js:50-73 | End to end: back-quotes around any plain body, within plain text, come out as a code tag around it |
| InlineMdEmphasis.BoldRenders | frontend/js/inline_md.js:50-73 | Double stars come out as a strong tag |
| InlineMdEmphasis.StarRenders | frontend/js/inline_md.js:50-73 | Single stars come out as an emphasis tag |
| InlineMdEmphasis.UnderscoreRenders | frontend/js/inline_md.js:50-73 | Underscores come out as an emphasis tag |
| InlineMdEmphasis.BoldItalicRenders | frontend/js/inline_md.js:68-69 | Three stars come out as strong inside emphasis |
| InlineMdEmphasis.PermittedIff | frontend/js/inline_md.js:33-41 | An address is permitted if and only if it begins with http:// or https:// in any case, or with a single slash |
| InlineMdEmphasis.LinkRenders | frontend/js/inline_md.js:50-73 | A link with a permitted address comes out as one anchor with that address and label, whatever marks they hold |
| InlineMdEmphasis.RefusedLinkLeavesLabel | frontend/js/inline_md.js:57-60 | A link with any other address leaves its label |
| HumanizeCron.FaithfulIffPlain | frontend/js/humanize_cron.js:93-162 | Whenever the humanizer describes, the minutes its description denotes are exactly those the expression fires on, if and only if a step divides 60, no day or month is a name every object inherits and no field has a sign |
| HumanizeText.PageIsRightIffPlain | frontend/js/humanize_cron.js:93-162 | The same of the text on the page, read by a table of weekdays, months, suffixes and clock digits of its own: it names exactly the minutes the expression fires on if and only if the expression is plain in that sense |
| HumanizeText.PageMeansDenoted | frontend/js/humanize_cron.js:51-68 | For every expression described, known names or not, the minutes read off the page are exactly those its description denotes |
| HumanizeText.ShownMeansDenoted | frontend/js/humanize_cron.js:25-26 | Each form of text reads as the weekday, month, day with its English suffix, hour, minute and step of the description |
| HumanizeText.StarsSayEveryMinute | frontend/js/humanize_cron.js:115-118 | Five stars are shown as a text that means any minute |
| HumanizeText.StepLineSays | frontend/js/humanize_cron.js:106-113 | A step and four stars: a text that means the multiples of the step, counted from midnight, and never if it is zero |
| HumanizeText.HourlyLineSays | frontend/js/humanize_cron.js:120-127 | A minute and four stars: a text that means this minute of any hour |
| HumanizeText.DailyLineSays | frontend/js/humanize_cron.js:129-137 | Minute, hour and three stars: a text that means this time of any day |
| HumanizeText.WeeklyLineSays | frontend/js/humanize_cron.js:139-144 | A day of the week, by number with 7 as Sunday or by name in any case: a text that means this time of that day |
| HumanizeText.MonthlyLineSays | frontend/js/humanize_cron.js:146-151 | A day of the month: a text that means this time of that day |
| HumanizeText.YearlyLineSays | frontend/js/humanize_cron.js:153-159 | A day and a month, by number or by name in any case: a text that means this time of that date |
| HumanizeText.MacroSays | frontend/js/humanize_cron.js:15-23 | Each macro, in any case and with space around it: a text that means the minutes crontab fires it at |
| HumanizeText.RestIsShownAsItIs | frontend/js/humanize_cron.js:93-101 | What is not described is shown as it is but for the space around it, and nothing as nothing |
| HumanizeText.TrimTakesOnlySpace | frontend/js/humanize_cron.js:95 | What trimming takes off is white space, at both ends and all of it |
| HumanizeCron.StepIsFaithfulIff | frontend/js/humanize_cron.js:107-113 | "Every n minutes" is right exactly when n divides 60 |
| HumanizeCron.ShowIsInjective | frontend/js/humanize_cron.js:51-68 | Different descriptions read differently |
| HumanizeCron.EqualDescriptionsMeanEqualSchedules | frontend/js/humanize_cron.js:93-162 | Expressions that have a schedule and are shown by the same words fire at the same minutes, uneven steps included |
| HumanizeCron.UnevenStepMisleads | frontend/js/humanize_cron.js:107-113 | Every step that does not divide 60 is described, and wrongly |
| HumanizeCron.InheritedNameMisleads | frontend/js/humanize_cron.js:83-91 | The day name "constructor" is described though no schedule has it |
| HumanizeCron.MinusZeroMisleads | frontend/js/humanize_cron.js:70-74 | Minute "-0" is described though no crontab has it |
| PhaseRanges.ParsePhaseRanges | scripts/devlog-split.py:52-86 | Fails if and only if there are no clusters or a range does not parse; otherwise maps exactly the listed phases, the last listing winning, and every gap up to the maximum |
| PhaseRanges.ListClusters | scripts/devlog-split.py:60-73 | The listed phases, each to the last cluster that lists it |
| PhaseRanges.FillGaps | scripts/devlog-split.py:74-86 | A gap goes to the cluster with the greatest upper bound below it, or to the least of all when there is none |
| PhaseRanges.GapPicks | scripts/devlog-split.py:81-85 | The loop's last hit in the sorted list is the greatest below the gap |
| PhaseRanges.EveryPhaseHasACluster | scripts/devlog-split.py:74-86 | Every phase up to an upper bound of the list is mapped, and to a cluster of the list |
| PhaseRanges.DisjointListingIsExact | scripts/devlog-split.py:71-72 | A phase that clusters of one name list belongs to that name |
| PhaseRanges.DashedRange | scripts/devlog-split.py:63-68 | A text with a dash is the range between the number before the dash and the one behind it, each up to its dot; it fails exactly if one of them is none |
| PhaseRanges.SingleRange | scripts/devlog-split.py:69-70 | A text without a dash is the one number up to its dot |
| PhaseRanges.GapGoesBelow | scripts/devlog-split.py:74-86 | A phase no cluster lists goes to the range with the greatest end below it, of equal ends to the last name; with none below, to the least |
| Pairs.NoLaterIff | scripts/devlog-split.py:76 | Tuples are in order by their numbers, and where these are equal by the first difference of their names |
| DevlogSplit.Scanner.Scan | scripts/devlog-split.py:154-224 | The scanner files, for each cluster in order, exactly the sections of the text whose phase belongs to it |
| DevlogSplit.Scanner.Take | scripts/devlog-split.py:181-222 | One line: what is filed, open and still to come always make up all sections |
| DevlogSplit.Scanner.Flush | scripts/devlog-split.py:161-179 | Files the open section under its cluster, or drops it, and closes it |
| LineKinds.OneKindOnly | scripts/devlog-split.py:46-48 | No line is of two kinds, so the order of the scanner's tests does not matter |
| LinePatterns.ModernIff | scripts/devlog-split.py:46 | A line opens a modern section of phase n if and only if it begins "- **Phase " and the digits behind that, all of them, read n |
| LinePatterns.OlderIff | scripts/devlog-split.py:47 | A line opens an older section of phase n if and only if it begins "### " and the first "Phase " with a digit behind it is followed by the number n |
| LinePatterns.PrefixIff | scripts/devlog-split.py:212-216 | An older heading's bucket is the first word behind "### ", and it names none when there is none |
| LinePatterns.BucketIff | scripts/devlog-split.py:48 | A line names a bucket if and only if it is "### ", one capitalised word of two letters or more and white space, with no "Phase" in it |
| LineKinds.SplitDevlog | scripts/devlog-split.py:148-224 | Phase map, lines and sections together: fails exactly on unusable clusters, else files exactly the entries of the text's sections |
| DevlogPartition.SectionsReproduceKeptLines | scripts/devlog-split.py:181-224 | The sections in order reproduce the kept lines, each once |
| DevlogPartition.KeepsIff | scripts/devlog-split.py:181-222 | A line is kept if and only if a section heading stands at or before it with no bucket heading since |
| DevlogPartition.SectionsAreApart | scripts/devlog-split.py:192-222 | Sections do not overlap |
| DevlogPartition.BucketInForce | scripts/devlog-split.py:186-216 | The bucket at a line is the one named last, Misc before any; an older heading names its own |
| DevlogPartition.SectionsCarryTheirBucket | scripts/devlog-split.py:175-216 | Each section carries the bucket in force at its first line |
| DevlogPartition.EntryKeepsText | scripts/devlog-split.py:175-177 | An entry is the line "> from CHANGELOG.md (bucket: **...**)", an empty one and the section, which loses nothing but white space at its end |
| DevlogPartition.JoinRecoversText | scripts/devlog-split.py:152 | Cutting at line feeds and joining again gives the text back |
| DevlogPartition.EntriesInOrder | scripts/devlog-split.py:161-179 | The entries of a cluster keep the order of the sections |
| DevlogPartition.OneEntry | scripts/devlog-split.py:167-177 | A section is one entry of the cluster of its phase, and none of any other |
| DevlogPartition.FiledExactlyOnce | scripts/devlog-split.py:167-177 | Over all clusters every section with a mapped phase is filed exactly once |
| DevlogPartition.NothingIsDropped | scripts/devlog-split.py:148-224 | With the clusters' own phase map no section up to their greatest phase is dropped |
| DevlogPartition.ListedSectionIsFiledThere | scripts/devlog-split.py:148-224 | A section whose phase is listed under one cluster's name only is filed under that cluster |
| AppsProxy.SendableCloseCode | pointlessql/api/apps_proxy.py:180-184 | 1005, 1006, 1015 (section 7.4.1 of RFC 6455) and none become 1000, and every other code is kept |
| AppsProxy.OneFrame | pointlessql/api/apps_proxy.py:197-205 | A message is one frame, of its text if it has one and else of its bytes; with neither it is none |
| AppsProxy.StepKeepsLane | pointlessql/api/apps_proxy.py:187-228 | Each receive, send, close, failure or cancellation keeps: delivered frames and the one in hand are the frames taken so far |
| AppsProxy.LaneDelivers | pointlessql/api/apps_proxy.py:187-228 | A pump delivers an in-order prefix, all of it before a forwarded close, and loses at most the frame in hand when cut |
| AppsProxy.BridgeIsFaithful | pointlessql/api/apps_proxy.py:295-311 | Over every run both directions deliver an in-order prefix without duplicates, complete if a close was forwarded, no unsendable code goes out, and the worker's socket is closed at the end |
| AppsProxy.MirroredIffNeverCut | pointlessql/api/apps_proxy.py:295-311 | At the end of any run a direction has passed its close on, and every frame with it, if and only if its pump never failed and was never cancelled |
| AppsProxy.WorkerCloseCanBeLost | pointlessql/api/apps_proxy.py:297-304 | A run in which the worker's last frame and close code never reach the browser, because the other pump ended first |
| AppsProxy.PumpClientToUpstream | pointlessql/api/apps_proxy.py:187-205 | The loop delivers the payloads before the disconnect in order; while it goes on it has delivered all that the messages so far owe; if never cut, all of them and then the close |
| AppsProxy.PumpUpstreamToClient | pointlessql/api/apps_proxy.py:208-228 | The loop delivers frames in order, as many as its turns, and mirrors the close only after all of them; if never cut, always |
| AvatarColor.ShiftsMultiplyByPrime | frontend/js/avatars.js:25 | The signed 32-bit shifts and sums are the product with 16777619 modulo 2^32, and every intermediate sum is below 2^53 |
| AvatarColor.Hash | frontend/js/avatars.js:22-26 | The loop of signed shifts and sums computes FNV-1a over the code units |
| AvatarColor.Hue | frontend/js/avatars.js:20-27 | The hue of a key is FNV-1a over its code units (section 2 of draft-eastlake-fnv), or over those of "anon", modulo 360 |
| AvatarColor.FnvByRounds | frontend/js/avatars.js:22-26 | The hash by the numbers of draft-eastlake-fnv, section 2: 2166136261 for no text, and each unit xored in and multiplied by 16777619 modulo 2^32 |
| AvatarColor.XorBits | frontend/js/avatars.js:24 | A bit of the exclusive or is set exactly where the operands differ |
| RecentStorage.Record | frontend/js/base_recent_storage.js:28-39 | The writer drops the name and empty slots, puts the visit in front and keeps five |
| RecentStorage.RecordedPicks | frontend/js/base_recent_storage.js:36-38 | The visit stands first; behind it the first four stored entries that are not empty and of another name, in their order |
| RecentStorage.RecordCatalog | frontend/js/base_recent_storage.js:24-39 | Without an active catalog nothing is recorded; otherwise the catalog by its name |
| RecentStorage.RecordTable | frontend/js/base_recent_storage.js:53-76 | Unless catalog, schema and table are all set nothing is recorded; otherwise the table by its full name |
| RecentStorage.FullNameIsInjective | frontend/js/base_recent_storage.js:60 | Full names tell tables apart if catalogs and schemas hold no dot |
| RecentStorage.DottedNamesCollide | frontend/js/base_recent_storage.js:60 | With a dot in a name two tables can be one entry |
| RecentStorage.RunKeepsFive | frontend/js/base_recent_storage.js:58-76 | Cutting at five after every visit gives the first five of the list that is never cut |
| RecentStorage.FiveMostRecent | frontend/js/base_recent_storage.js:58-76 | After any run of visits from a list of distinct names: the names visited last, each once with its last record, then those stored before, five in all |
| RecentStorage.LatestComeFirst | frontend/js/base_recent_storage.js:28-39 | From any stored list, repeated names and all: the names visited last stand first, each once with its last record, and only names stored before and not visited since follow |
| RecentStorage.FiveVisitedNames | frontend/js/base_recent_storage.js:28-39 | From any stored list, once five names have been visited the list is exactly the five visited last |
| RecentStorage.VisitAfterCutIff | frontend/js/base_recent_storage.js:36-38 | A visit to a cut list gives what it would have given uncut if and only if the name stands at most once in what was kept, or nothing else was cut off |
| RecentStorage.RunKeepsFiveIff | frontend/js/base_recent_storage.js:28-39 | From any stored list, the list is the first five of the uncut ranking after every visit of a run if and only if at every visit but the first the name stands at most once in what was kept, or nothing else was cut off |
| RecentStorage.RepeatedNameCostsASlot | frontend/js/base_recent_storage.js:36-38 | A stored list with a repeated name is left with four names although a fifth was there |
| RegenChangelog.ComputeFrom | scripts/regen-changelog.py:119-139 | For any commits and times: the greatest pair of time and name among the other clusters' tips that are strictly older, or none |
| RegenChangelog.Regenerate | scripts/regen-changelog.py:142-156 | One section for each cluster, the latest tip first and equal times as in the list, each starting after the tip that `ComputeFrom` picks |
| RegenChangelog.CoveredIff | scripts/regen-changelog.py:89-96 | On one line of history, whatever the commit times, exactly the commits up to the newest tip are in some cluster's range |
| RegenChangelog.PartitionIff | scripts/regen-changelog.py:142-156 | On one line of history, whatever the commit times: each cluster's tip is in its own range and no commit is in two, if and only if later tips have later times and no two clusters close at the same commit |
| RegenChangelog.EqualSecondsOverlap | scripts/regen-changelog.py:129-138 | Two different tips of the same second: both ranges start at the beginning of history and share commits |
| RegenChangelog.EarlierTimeEmptiesSection | scripts/regen-changelog.py:129-138 | A later tip with an earlier time leaves the earlier cluster's range empty |

## Left out

Weaker than what one might expect of the code:

- CoeditDurability.NothingAcceptedIsLost: for runs whose teardowns begin with no stale persist outstanding, because without that the property is false (`CoeditDurability.TeardownIsSafeIff` and `CoeditDurability.RunIsSafeIffCareful` are exact); it also assumes that issued persists end and that a row is reloaded only after them.
- ChatGuards.ActiveTurnHoldsTheClaim: for runs without a reset during a turn, because with one it is false (`ChatGuards.RunIsGuardedIffQuiet` is exact).
- ChatConversation.ConversationIsInClaimOrder: for runs without a reset during a turn, because with one it can fail (`ChatClaimOrder.RunIsOrderedIffQuiet` and `ChatClaimOrder.ResetKeepsClaimOrderIff` are exact); `ChatConversation.ConversationIsTheFinals` has no condition.
- InlineMdRender.AnchorsSurvive: excludes texts with a refused link, because with one the property is false; `InlineMdRender.AnchorsSurviveIff` covers every text.
- HumanizeText.PageIsRightIffPlain: for expressions that are described; the others are shown as they are (`HumanizeText.RestIsShownAsItIs`).
- HumanizeCron.EqualDescriptionsMeanEqualSchedules: for expressions that have a schedule; an inherited name, a minus zero or a step of zero is described though it has none.
- ColumnOrder.SortedColumn: for the columns that the comparator orders, because on no other column is it an order (`ColumnOrder.OrderedIffSortable`).
- RecentStorage.FiveMostRecent: from a list without repeated names, which is all the writer itself ever stores; with repetitions it can fail (`RecentStorage.RepeatedNameCostsASlot`); `RecentStorage.RunKeepsFiveIff` is exact, and `RecentStorage.LatestComeFirst` says what holds from any list.
- RegenChangelog.PartitionIff: for clusters with distinct ids on one line of history, because `from..to` on a branching history is more than a stretch of positions; commit times may be anything.

Not modelled:

- Sockets, HTTP, authentication, JSON decoding and close reasons; malformed payloads are steps that change nothing.
- The CRDT library's causal pending updates and byte formats, the sending of a frame after a pump has taken it, and the recorded author's name in the row.
- The agent behind a turn, token events before the terminal one, and failures of database helpers or sends.
- Deletion of a chat row while a turn is in flight.
- Letters outside ASCII when folding case in the cron humanizer, the renderer and the text helpers; the table takes the engine's case folding, trimming, number and date parsing as parameters.
- Cron numbers with more than fifteen digits, which the page's number type rounds before it prints them.
- Entries of the recency lists that are objects without a name, and what the storage holds when it is no list.
- Rows removed from the page while the table still lists them, an initial sort direction other than `asc` or `desc`, and the table's header and dropdown markup.
- Letters and digits outside ASCII in the line patterns of the changelog splitter; the conversion of a range's bounds to integers is a parameter.
- The files the changelog scripts write around their sections, and the tool that renders a commit range.
- Expansion of `sorted` output in the authorization matrix, and the initials and lane colours of the avatar helpers.
- CRUD routes, pages, seed scripts, migrations, the command line and small page scripts: they would only add easy members.
