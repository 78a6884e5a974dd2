# Connector plugin: a verified model

This project models the parts of the connector plugin whose correctness is
hardest to see by reading, and proves what they promise.

* **The bridge transport** (`Bridge*.dfy`). Windows have an identity with a key
  that a navigation replaces; a page's socket says hello with that key and
  becomes the window's client; a synchronous mirror of the client map lets a
  caller pin the document it means. The registry is a machine of single steps,
  one for each stretch of code that runs under one lock, so that navigation,
  destruction, delayed cleanup, hello, disconnect, pinning and dispatch
  interleave freely. A hello, a pin and a dispatch hold the clients lock over
  several steps; identity changes do not take that lock and may fall between
  them. On top of it lie the pending requests and their late settlement.
  `BridgeTeardown` says for each connection when its teardown leaves nothing
  behind, `BridgeProgress` and `BridgeChanges` what each step does get done.
  `BridgeObject` holds the same state in a class whose methods change it in
  place, one method for each step; its `Valid()` is what holds of every reachable
  state, every method keeps it, and the methods say what their callers may rely
  on because of it.
* **Dispatch** (`Dispatch*.dfy`, `NativeDelivery.dfy`). The retry loop over the
  socket and the injection transport with one shared deadline, the script
  sequence of a native delivery, and the two together.
* **The snapshot engine** (`Stitch*.dfy`, `Collapse.dfy`, `Snapshot*.dfy`). The
  walk that builds a tree and moves portals below their owners, the collapsing
  of repeated siblings, and the rendering that spills what does not fit. What the
  walk builds is stated as functions (`StitchWalk`), about which is proved what they
  show of the document; placeholders are read back from their text.
* **The completion-value rewriter** (`Eval*.dfy`). `EvalScanner` has the loops
  over the text; `EvalLexer` an automaton that reads one character at a time,
  to which the scanner's jumps are proved to agree; `EvalSource` the rewriting
  of text. `EvalRewrite` has the rewrite on statements. A statement is recorded
  with what decides where the source may cut and what a cut gives: how its text
  starts, whether a `;` follows, whether a body without braces stands on its own
  line, and whether the text from there on reads as an expression though it is
  none, or a cut inside the statement gives code. Its meaning is that of
  ECMA-262, as a run with an effect trace. What expressions give, whether
  conditions hold and what throws is chosen by a world, so a claim for all worlds
  is a claim for all runs. `EvalPrint*` prints statements and proves that on the
  print the rewriter of text does what the one on statements does.
* **Smaller pieces**: the console log (`ConsoleLog`), the DOM cache
  (`DomCache`), the text locator (`TextLocator`), MCP sessions (`McpSessions`)
  and SHA-256 (`Sha256`).

Clocks, the network, the webview and the operating system are inputs: a send
succeeds or fails, a page answers or not, a look at the clock gives some time.
Keys, connection ids and registration ids are random UUIDs in the source; here
they are numbers that are never issued twice.

## Where the code does not meet the claim

Each of these is stated with the condition under which the claim holds.

* A script body that fails with a text starting like the gate's refusal is
  sent again: `DispatchProofs.AtMostOnceIffUnmarked`.
* A late watcher marks the pending entry by request id, so a newer request with
  the same id can be marked: `BridgeLate.FlagIsOwnIff`.
* A socket that says hello for two labels is only unregistered for the last. A
  request can then be dispatched to the other client and stay pending on the
  gone connection: `BridgeTeardown.TeardownIsCleanIff`, connection by
  connection. The page script announces one label.
* Nodes behind a marker inside a collapsed node are printed nowhere, and
  without a budget no collapsed node is: `Collapse.OnlyNestedCollapsesAreLost`
  and `Collapse.WithoutBudgetCollapsesAreLost`.
* The rewriter changes what some bodies do: `EvalRewriteLimits.CorrectIffSafe`.
  These are bodies, or branches in a last place, that end in
  - a loop with its brace-less body on a line of its own: the loop ends in its
    first round;
  - a function or class declaration, which is then no longer declared;
  - a function as a branch or a labelled statement on a line of its own: it is
    returned (`EvalRewriteExamples.BranchFunctionIsReturned`);
  - such a declaration and, on the next line, an expression that could go on it:
    both are returned as one expression, so `function f(){ g() }` before `(1)`
    is called (`EvalRewriteExamples.DeclarationRunsTogether`; on the text itself
    `EvalSourceExample.DeclarationIsMerged`);
  - a `let` with a pattern, such as `let [a] = g()`: in parentheses it assigns to
    an element of a variable `let`, and without one it throws before `g` runs
    (`EvalRewriteExamples.BindingInBranchIsReturned`; on the text itself
    `EvalSourceExample.PatternIsReturned`);
  - a block behind a comment that also reads as an object literal, alone or with
    an expression behind it that could go on it: `/*c*/{ a }` before `(1)` is
    an object that is called (`EvalRewriteExamples.CommentedBlockIsCalled`);
  - a `let` with its name on the next line: the cut between them makes an
    expression and a returned assignment of it (`EvalRewriteExamples.LetIsTorn`).
* The rewriter loses the completion value of some bodies that it does not change
  otherwise: `EvalRewriteLosses.ValueKeptIff`. A cut before the `else` branch
  loses what the other branch shows; a branch without code of its own, or one
  that ends in a loop, a `switch` or the like, loses what it shows. Some last
  expressions get no code at all: one that starts with the word `of`, one
  behind a block that it could go on, and one with a comment behind its `;`
  (`EvalRewriteExamples.SomeExpressionsAreNotReturned`).
* The notice that early console messages were dropped is always trimmed away:
  `ConsoleLog.NoticeNeverArrives`.
* A background push between a snapshot's insertion and its patch loses the
  patch: `DomCache.PatchLandsIff`.
* DELETE of an MCP session sees pruning that other requests caused:
  `McpSessions.DeleteFindsIff`.

## Model

| member | source | states |
|---|---|---|
| BridgeKey.SameKey | plugin/src/identity.rs:87-102 | the fold that never stops early answers true exactly for equal keys |
| BridgeRegistry.StepKeepsInv | plugin/src/bridge.rs:1387-1441 | every atomic step of hello, disconnect, pin, dispatch, cleanup and the identity changes keeps the client map and its mirror in agreement |
| BridgeRegistry.ExecKeepsInv | plugin/src/bridge.rs:1299-1363 | so does every interleaving of them |
| BridgePins.PinNeverRevives | plugin/src/bridge.rs:153-177 | over every interleaving, once a check of a pin has failed every later check fails, the three reads of a check being apart |
| BridgePins.CheckIsAtomic | plugin/src/bridge.rs:162-176 | the three reads answer as one read at some moment between them would |
| BridgePins.NewPinIsCurrentIff | plugin/src/bridge.rs:332-356 | a pin just taken is current exactly when its key still is and its socket is open |
| BridgeChanges.PinEndsIff | plugin/src/bridge.rs:153-177 | in every reachable state, a current pin is ended exactly by its window's navigation or end, a hello from another socket or under another key, a disconnect of its client, or the drop of its socket's receiver |
| BridgePins.StepLosesForGood | plugin/src/identity.rs:55-110 | no single step, navigation, destruction and re-creation included, makes true again a condition of a pin that is false |
| BridgePins.MirrorNeverLies | plugin/src/bridge.rs:1365-1385 | in every reachable state a label has a client exactly when its entry has a connection, and then that client's id and key |
| BridgePins.DispatchSectionHolds | plugin/src/bridge.rs:849-948 | while a dispatch holds the clients lock, nothing changes the client map or the mirror |
| BridgePins.SendGoesToThePinnedConnection | plugin/src/bridge.rs:849-948 | a send authorized by a pin goes to the pinned connection, registered until the lock is released |
| BridgePins.InjectionMatchesThePin | plugin/src/bridge.rs:1050-1067 | an injection authorized by a pin without a socket happens while no client is registered, and one with a socket while that socket's is |
| BridgeSettlement.PendingOrEnded | plugin/src/bridge.rs:898-923 | in every reachable state a registration is pending under its own id and connection or has ended, never both |
| BridgeSettlement.EndsOnlyOnce | plugin/src/bridge.rs:1452-1477 | how a registration ended stays as it is over every run |
| BridgeSettlement.EndsOnlyByItsOwn | plugin/src/bridge.rs:1452-1499 | only the reply or the teardown of its own socket, or its own guard or watcher, ends a registration |
| BridgeSettlement.TeardownLeavesNothingPending | plugin/src/bridge.rs:1484-1499 | the half a caller uses: in a run whose sockets announce one label each, no socket request is pending on a connection that has rejected its requests |
| BridgeTeardown.TeardownIsCleanIff | plugin/src/bridge.rs:1299-1385 | for every reachable state and serving connection: after it unregisters, no socket request is ever pending on it once its requests were rejected, exactly when it was the client, under a current key, of no label but its last |
| BridgeTeardown.ClientLeftBehind | plugin/src/bridge.rs:1350-1385 | from every state with such a client left, three steps lead to a request pending on the torn-down connection |
| BridgeSettlement.UnregisterIsCompleteIff | plugin/src/bridge.rs:1350-1385 | unregistering leaves no client of the socket exactly when it has none under another label than its last |
| BridgeSettlement.TwoLabelsOutliveTeardown | plugin/src/bridge.rs:1350-1385 | a socket that announced two labels gets a request pending on it after its teardown |
| BridgeLate.ReportedExactlyOnce | plugin/src/bridge.rs:29-43 | one hook call for each reported timeout, with the class of the page's reply, or `Lost` for a rejection or an expired window |
| BridgeLate.ExpiredOnlyIfNothingCame | plugin/src/bridge.rs:304-325 | the watcher reports expiry exactly when neither reply nor rejection has come |
| BridgeLate.TimedOutEndsReported | plugin/src/bridge.rs:949-969 | a request that timed out after its send can only end by reporting |
| BridgeLate.FlagIsOwnIff | plugin/src/bridge.rs:304-325 | the mark by id falls on no other registration exactly when its own is still pending or the id is free or marked |
| BridgeLate.ReusedIdIsFlagged | plugin/src/bridge.rs:304-325 | a run from the start in which a request reuses the id of one answered between its timeout and its mark, and is marked while it is about to be sent |
| BridgeProgress.EndsIff | plugin/src/bridge.rs:1452-1499 | a pending registration ends by exactly these events and in exactly these ways: an answer of its own serving socket, that socket's teardown, its own guard or its watcher's cleanup; the late mark plays no part |
| BridgeProgress.ReplySettlesIff | plugin/src/bridge.rs:1452-1477 | in every reachable state an answer on the connection an id is pending on, while it serves, settles that registration and nothing else; any other message changes nothing |
| BridgeProgress.TaskMovesIff | plugin/src/bridge.rs:898-969 | where each event takes a request's task from each place; a watcher settles on expiry exactly when nothing has come |
| BridgeProgress.LateAnswerIsReported | plugin/src/bridge.rs:304-325 | from every reachable state in which a timed-out request waits: once its page answers on its serving socket, the watcher's three steps lead to one hook call with the class of that answer, whatever else happens |
| BridgeProgress.LateRejectionIsReported | plugin/src/bridge.rs:1484-1499 | the same for a teardown that comes first: one call, lost |
| BridgeProgress.ExpiryIsReported | plugin/src/bridge.rs:304-325 | and when nothing has come by the end of the window: one call, lost and expired |
| BridgeChanges.ClientChangesIff | plugin/src/bridge.rs:1299-1441 | a label's client comes by a hello and goes by a disconnect of its socket or a cleanup, and nothing else touches it |
| BridgeChanges.EntryChangesIff | plugin/src/bridge.rs:1299-1441 | its entry changes exactly then, or when a pin is taken under another key; the revision counts the changes of connection |
| BridgeChanges.WindowChangesIff | plugin/src/identity.rs:30-110 | an identity is issued on first use, gets a new key with a navigation, and goes with its window |
| BridgeChanges.SocketPhaseIff | plugin/src/bridge.rs:1350-1385 | a socket closes stage by stage, and unregisters only once it can have the lock it needs |
| BridgeChanges.SocketLabelIff | plugin/src/bridge.rs:1390-1441 | a socket's label is the one of its last hello |
| BridgeChanges.NumbersAreSpent | plugin/src/identity.rs:30-110 | a number handed out for a key or a socket is never handed out again |
| BridgeChanges.LockIsTakenIff | plugin/src/bridge.rs:849-948 | the clients lock is taken only while it is free, under these conditions and with what was read then |
| BridgeChanges.LockIsReleasedIff | plugin/src/bridge.rs:849-948 | and released or passed on only by its holder's next step |
| BridgeChanges.PinSays | plugin/src/bridge.rs:332-356 | a pin holds the window, the key, the registered connection and the entry as it then is |
| BridgeObject.Bridge.WindowInstanceId | plugin/src/identity.rs:30-43 | in place: a new label gets a new identity, a known one keeps its own |
| BridgeObject.Bridge.PageNavigation | plugin/src/identity.rs:55-65 | in place: a navigation gives a known window a key that no window had |
| BridgeObject.Bridge.PageLoaded | plugin/src/identity.rs:67-76 | in place: the end of loading, with the key unchanged |
| BridgeObject.Bridge.WindowDestroyed | plugin/src/identity.rs:104-110 | in place: destruction forgets the identity |
| BridgeObject.Bridge.VerifyBridgeKey | plugin/src/identity.rs:87-102 | true exactly for the key of a known window |
| BridgeObject.Bridge.AcceptSocket | plugin/src/bridge.rs:1299-1314 | in place: a connection id never used before |
| BridgeObject.Bridge.BeginHello | plugin/src/bridge.rs:1403-1431 | in place: a hello with a wrong key changes nothing, otherwise it takes the lock |
| BridgeObject.Bridge.FinishHello | plugin/src/bridge.rs:1431-1449 | in place: the key is checked again under the lock, then client and entry are replaced together and agree |
| BridgeObject.Bridge.BeginPin | plugin/src/bridge.rs:332-340 | in place: a pin takes the lock and the window's client |
| BridgeObject.Bridge.ReadPinKey | plugin/src/bridge.rs:332-345 | in place: then it reads the key, or the client's |
| BridgeObject.Bridge.FinishPin | plugin/src/bridge.rs:332-356 | in place: the pin that is returned, which holds at once, and the entry it may create |
| BridgeObject.Bridge.Disconnect | plugin/src/bridge.rs:1365-1385 | in place: client and entry go only if this socket still owns the label |
| BridgeObject.Bridge.TearDown | plugin/src/bridge.rs:1312-1314 | in place: the requests of a gone connection are rejected, none is left on it |
| BridgeObject.Bridge.CloseSocket | plugin/src/bridge.rs:1310-1314 | in place: the receiver goes last, and only after the rejections |
| BridgeObject.Bridge.RejectConnectionPending | plugin/src/bridge.rs:1484-1499 | in place: exactly this connection's requests are rejected, one by one |
| BridgeObject.Bridge.BeginWsDispatch | plugin/src/bridge.rs:849-862 | in place: the client selected under the lock is the one its entry names, under the window's current key |
| BridgeObject.Bridge.BeginEvalDispatch | plugin/src/bridge.rs:1050-1058 | in place: an injection takes the lock and nothing else |
| BridgeObject.Bridge.ReleaseDispatch | plugin/src/bridge.rs:948-948 | in place: the lock is released and nothing else |
| BridgeObject.Bridge.RegisterRequest | plugin/src/bridge.rs:898-915 | in place: an id that is already pending is refused, otherwise registered under the selected client |
| BridgeObject.Bridge.DropGuard | plugin/src/bridge.rs:915-923 | in place: the guard removes the request only if the entry is still its own, and touches no other |
| BridgeObject.Bridge.WatchLateSettlement | plugin/src/bridge.rs:304-315 | in place: the entry under the request's id is marked late, whose ever it is |
| BridgeObject.Bridge.FlagLateById | plugin/src/bridge.rs:1038-1047 | in place: an injected request that timed out marks whatever is pending under its id |
| BridgeObject.Bridge.SettleLate | plugin/src/bridge.rs:315-322 | in place: the answer that came, or expiry |
| BridgeObject.Bridge.CleanUpLate | plugin/src/bridge.rs:959-966 | in place: the entry is removed only if it is still its own |
| BridgeObject.Bridge.CallLateHook | plugin/src/bridge.rs:318-324 | in place: one call, if a hook is installed, and it is the only one for its request |
| BridgeObject.Bridge.HandleResult | plugin/src/bridge.rs:1452-1477 | in place: a result settles the request it names only if it came on that request's connection |
| BridgeObject.Bridge.BeginCleanup | plugin/src/bridge.rs:1230-1235 | in place: the delayed cleanup goes on only if the entry's key is no longer the window's |
| BridgeObject.Bridge.FinishCleanup | plugin/src/bridge.rs:1236-1238 | in place: then client and entry go together |
| BridgeObject.Bridge.RegisterProbe | plugin/src/bridge.rs:708-726 | in place: a probe registers without the lock, under an id that is free |
| BridgeObject.Bridge.MarkSent | plugin/src/bridge.rs:937-948 | in place: the command has entered the transport |
| BridgeObject.Bridge.PassDeadline | plugin/src/bridge.rs:953-956 | in place: the deadline passed with nothing back; the guard is disarmed |
| Dispatch.ReasonIffMarked | plugin/src/bridge.rs:1804-1812 | an error counts as a refusal exactly when its text starts with the mark |
| Dispatch.ExecutePageScript | plugin/src/bridge.rs:459-603 | the loop computes the function of the turns that the claims below are about |
| DispatchProofs.StartsAtMostOnce | plugin/src/bridge.rs:459-603 | over all turns and both transports the body starts at most once, and never if the result says not dispatched, unless its own error imitates a refusal |
| DispatchProofs.AttemptIsTruthful | plugin/src/bridge.rs:843-1048 | one attempt on either transport reports what happened to the delivery |
| DispatchProofs.MarkedErrorStartsTwice | plugin/src/bridge.rs:1804-1812 | for every marked error text there is a page on which the body starts twice |
| DispatchProofs.AtMostOnceIffUnmarked | plugin/src/bridge.rs:1804-1812 | for each error text: at most one start in every world exactly when the text is not marked |
| DispatchProofs.RetriesAreBounded | plugin/src/bridge.rs:459-603 | no more turns than pauses that fit the deadline, plus one |
| DispatchProofs.CommandIsExact | plugin/src/bridge.rs:459-603 | in every world: a delivery is followed by another only if the page answered it with a marked text; any other is the last, and the caller is told what became of it |
| DispatchProofs.OutcomeReachesTheCaller | plugin/src/bridge.rs:949-1048 | what the body returned or threw in time, with the effect it reported, is what the caller gets, unless the text is marked |
| DispatchChecks.WsSendsIff | plugin/src/bridge.rs:843-948 | the socket sends exactly when authority, time, lock, client, key, target, id and channel allow it |
| DispatchChecks.WsRefusalTellsWhy | plugin/src/bridge.rs:843-948 | a refusal names a check that failed |
| DispatchChecks.EvalSendsIff | plugin/src/bridge.rs:980-1067 | the injection is made exactly when authority, time, target and lock allow it |
| DispatchChecks.EvalRefusalTellsWhy | plugin/src/bridge.rs:980-1067 | its refusals name a check that failed too |
| DispatchChecks.FallsBackIff | plugin/src/bridge.rs:459-603 | a turn sends on one transport at most: the injection is tried exactly when the socket refused, authority and time are left and the page answers the probe |
| DispatchChecks.RetryTellsWhy | plugin/src/bridge.rs:540-603 | a turn without a delivery is retried only because the page did not answer the probe |
| DispatchChecks.ReportedAsIs | plugin/src/bridge.rs:459-603 | what a transport reports ends the command as it is, but a refusal after the deadline gives the page's earlier reason |
| DispatchChecks.ReasonIsTheRest | plugin/src/bridge.rs:1804-1812 | the reason is what follows the mark, without the white space around it |
| DispatchChecks.GivesUpIff | plugin/src/bridge.rs:580-603 | the loop gives up exactly when one more pause would pass the deadline, or the three seconds of an unbroken silence |
| DispatchChecks.TurnBegins | plugin/src/bridge.rs:500-540 | a locked screen or a passed deadline ends the command before anything is sent, and nothing is sent while the page navigates |
| DispatchChecks.CommandBegins | plugin/src/bridge.rs:459-500 | the checks before the first turn |
| NativeDelivery.Page.Deliver | plugin/src/bridge.rs:1687-1728 | evaluating the scripts one after another leaves the page as the sequence says |
| NativeDelivery.Page.Eval | plugin/src/bridge.rs:1687-1728 | in place: what one script of the sequence does to the page |
| NativeDelivery.DeliveryRunsExactlyOnce | plugin/src/bridge.rs:1687-1728 | a whole delivery calls the runner once, with the first usable form or the syntax error, and leaves no mark |
| NativeDelivery.FirstFormRuns | plugin/src/bridge.rs:1687-1728 | the call is for the first form that parses and, if it compiles strings, is not for the bridge's own runner or a page that refuses that |
| NativeDelivery.PartialDeliveryRunsAtMostOnce | plugin/src/bridge.rs:936-948 | a sequence cut short has called the runner at most once |
| DispatchNative.RunnerStartsTheBodyAtMostOnce | plugin/src/bridge.rs:459-603 | over all scripts of all deliveries of a command, each possibly cut short, the page's runner starts the body at most once |
| StitchForest.AttachKeepsTree | plugin/src/bridge.rs:2548-2556 | a new node below any node keeps a tree: listed once, under its recorded parent, reachable from the root |
| StitchForest.MoveKeepsTree | plugin/src/bridge.rs:2598-2615 | moving a node below one that is not below it loses none, lists none twice and closes no cycle |
| StitchForest.RenderedExactlyOnce | plugin/src/bridge.rs:2831-2843 | rendering such a tree from its root shows every node exactly once |
| Stitcher.NotOwnedIsNotOnChain | plugin/src/bridge.rs:2598-2605 | the cycle check answers for the whole chain of owners |
| Stitcher.OwnedIff | plugin/src/bridge.rs:2598-2605 | the climb finds the target exactly if some node at or above the owner is the target's or stands for it |
| StitchLinks.LinksGetTheirNode | plugin/src/bridge.rs:2557-2564 | when no link is open, the links of a new element get its node |
| StitchLinks.MainLinksAreOwn | plugin/src/bridge.rs:2508-2564 | without shadow roots the references found are those of the elements with nodes, each with its element's own node and depth |
| StitchDocument.MainWalkShowsDocument | plugin/src/bridge.rs:2508-2586 | after the main walk an element has a node exactly if it is not too deep, below its parent's node or the root; one of an open shadow root below its parent's or the host's; nothing else has one; numbers and child lists follow the walks |
| StitchDocument.PortalShowsItsElements | plugin/src/bridge.rs:2617-2651 | a portal built to its end has its own node below its owner and below that every element of its walk that is not too deep, below its parent's node or the portal's, in order |
| StitchPlaces.TargetIsBelowOwner | plugin/src/bridge.rs:2591-2651 | right after its link a target that is not idle and not above its owner stands below that owner, moved if it had a node; other links change nothing |
| StitchPlaces.EveryLinkIsFollowed | plugin/src/bridge.rs:2589-2651 | unless the snapshot is marked truncated, every link is followed in order, those found on the way included |
| StitchPlaces.EveryOrphanIsShown | plugin/src/bridge.rs:2653-2696 | unless it is, every accepted child of the body with a portal's class that nothing refers to has a node, below the root if it had none |
| StitchPlaces.ScopedTakesNone | plugin/src/bridge.rs:2654-2658 | a snapshot of a chosen part of the page takes no orphans |
| StitchPlaces.OthersAreNoOrphans | plugin/src/bridge.rs:2653-2664 | the others are left to their links |
| Stitcher.Stitcher.AddNode | plugin/src/bridge.rs:2548-2555 | in place: one node more, counted once, below the given parent, with its references |
| Stitcher.Stitcher.WalkMain | plugin/src/bridge.rs:2508-2587 | in place: the walk visits every element in order, or as many as the budget let it |
| Stitcher.Stitcher.VisitMain | plugin/src/bridge.rs:2540-2586 | in place: an element goes below its parent's node or, without one, the root; one too deep is skipped; then the elements of its open shadow root |
| Stitcher.Stitcher.WalkShadow | plugin/src/bridge.rs:2567-2585 | in place: every element of the shadow root not too deep, in order, below its parent's node or the host's |
| Stitcher.Stitcher.BackLink | plugin/src/bridge.rs:2524-2564 | the open links at the end of the list, or for the root those of depth zero, get the node |
| Stitcher.Stitcher.OutOfBudget | plugin/src/bridge.rs:2535-2538 | no node is built once the limit is reached |
| Stitcher.Stitcher.WalkPortal | plugin/src/bridge.rs:2633-2650 | in place: every element below the portal not too deep, in order, below its parent's node or the portal's |
| Stitcher.Stitcher.BuildPortal | plugin/src/bridge.rs:2617-2651 | in place: a new portal node below the given owner, and its walk below that |
| Stitcher.Stitcher.IsCyclic | plugin/src/bridge.rs:2598-2605 | the climb ends and finds the portal's node or element exactly if it is above |
| Stitcher.Stitcher.MoveNode | plugin/src/bridge.rs:2607-2614 | the node leaves its old child list and is last in the new one |
| Stitcher.Stitcher.StitchTarget | plugin/src/bridge.rs:2596-2651 | in place: a target above its owner is left; one with a node moves, not built or counted again; any other is built |
| Stitcher.Stitcher.StitchLink | plugin/src/bridge.rs:2591-2651 | in place: a link without target, owner or acceptance, or to a portal already stitched, changes nothing; any other stitches its target |
| Stitcher.Stitcher.StitchPortals | plugin/src/bridge.rs:2589-2651 | in place: the links one after the other, all of them unless the snapshot is marked truncated |
| Stitcher.Stitcher.StitchOrphans | plugin/src/bridge.rs:2653-2696 | in place: the body's children one after the other, in full-document snapshots only |
| Stitcher.Stitcher.Build | plugin/src/bridge.rs:2508-2697 | the finished structure is a tree whose nodes are as many as were counted, at most max(1, maxElements), and is where walk, links and orphans lead |
| Collapse.CollapseSiblings | plugin/src/bridge.rs:2444-2480 | the loops compute the collapse of maximal runs |
| Collapse.ScanRun | plugin/src/bridge.rs:2449-2453 | the loop finds the end of the maximal run of equal siblings |
| Collapse.RestoreUndoesCollapse | plugin/src/bridge.rs:2482-2487 | putting every marker's nodes back gives the original tree, at every level |
| Collapse.CollapsedIsTidy | plugin/src/bridge.rs:2444-2487 | no five structurally equal siblings in a row remain at any level, markers counted except as the first of the five |
| Collapse.MarkerUnlikeItsRun | plugin/src/bridge.rs:2444-2480 | a marker's hash is never that of the run it stands for |
| CollapseRuns.CollapsedByRuns | plugin/src/bridge.rs:2444-2480 | any siblings fall into maximal runs; one shorter than five stays as it is, any other keeps its first two and a marker that holds the rest and tells how many |
| CollapseRuns.RunsAreUnique | plugin/src/bridge.rs:2444-2480 | there is one way only to divide siblings so |
| CollapseRuns.OneAttributeMore | plugin/src/bridge.rs:2429-2442 | element references and component names do not count for the structure, any other attribute does |
| CollapseRuns.LabelAndClassesCount | plugin/src/bridge.rs:2429-2442 | with the same attributes, label and classes decide |
| CollapseRuns.NamesDoNotCount | plugin/src/bridge.rs:2429-2442 | names, children and identity do not count |
| CollapseRuns.PartsAreMarkers | plugin/src/bridge.rs:2489-2506 | one part for each marker, in order, under its label, with its nodes rendered from the margin |
| Collapse.PartsPrintCollectedLines | plugin/src/bridge.rs:2489-2506 | the collected parts print the collapsed nodes outside other collapsed nodes |
| Collapse.OnlyNestedCollapsesAreLost | plugin/src/bridge.rs:2966-2972 | with a budget and no overlays, the nodes printed nowhere are those behind a marker inside a collapsed node |
| SnapshotCoverage.OverlaysHideNothing | plugin/src/bridge.rs:2951-2964 | with overlays shown first and pointers left in their places, still no other node is lost |
| Collapse.WithoutBudgetCollapsesAreLost | plugin/src/bridge.rs:2966-2972 | without a budget they are all collapsed nodes |
| SnapshotTree.RenderPrintsLines | plugin/src/bridge.rs:2831-2843 | the rendered text is the nodes' own lines, joined |
| SnapshotLines.LineReadsBack | plugin/src/bridge.rs:2835-2837 | a line is indented by two spaces a level and then holds label, escaped name and attributes |
| SnapshotLines.EscapeReadsBack | plugin/src/bridge.rs:2836-2836 | the name reads back from its escaped form, in which every quote has a backslash before it |
| SnapshotLines.PointerReadsBack | plugin/src/bridge.rs:2833-2833 | a pointer stands at its overlay's indentation and names the overlay |
| SnapshotPlaceholder.PlaceholderNames | plugin/src/bridge.rs:2906-2913 | read from its end, a placeholder's line gives the index of its subtree and the least number of tokens that hold it, and it starts with the label |
| SnapshotChoices.EmitChooses | plugin/src/bridge.rs:2919-2940 | a node is inline if it fits; if not, its own line is and its children follow, if there is room for 48 tokens more; if not, it is one subtree |
| SnapshotChoices.KidsChoose | plugin/src/bridge.rs:2940-2948 | children go on until fewer than 24 tokens are left, then the rest is one subtree whose label tells how many |
| SnapshotChoices.SectionLabelSays | plugin/src/bridge.rs:2890-2904 | a subtree's label is what its node shows, its anchor, and at most thirty characters of its name |
| SnapshotChoices.WholePageIfItFits | plugin/src/bridge.rs:2951-2957 | if header and page fit, they are shown and nothing is spilled |
| SnapshotChoices.OverlaysFirstIfNot | plugin/src/bridge.rs:2958-2964 | if not, the overlays come first and the page with pointers to them after |
| SnapshotBudget.Emitter.EmitNode | plugin/src/bridge.rs:2919-2949 | in place: the pieces, subtrees and account of the recursive function |
| SnapshotBudget.Emitter.SpillSubtree | plugin/src/bridge.rs:2906-2913 | in place: the content becomes the next subtree, its placeholder is charged |
| SnapshotBudget.Emitter.EmitSnapshot | plugin/src/bridge.rs:2951-2964 | in place, with a budget: the full text if it fits, otherwise overlays first and then the sections |
| SnapshotBudget.Emitter.Render | plugin/src/bridge.rs:2948-2972 | in place, with a budget or without: the text, and behind the spilled subtrees one for each collapsed run |
| SnapshotReassembly.EmitReassembles | plugin/src/bridge.rs:2919-2949 | at every depth, putting the named subtrees back gives exactly the rendering of the node |
| SnapshotReassembly.SnapshotReassembles | plugin/src/bridge.rs:2906-2964 | every spilled subtree is named, in its text, by one placeholder, in order, and putting all back where the texts say gives the unlimited rendering |
| SnapshotReassembly.RenderedReassembles | plugin/src/bridge.rs:2948-2972 | the same with the collapsed runs, which follow the spilled subtrees and which no placeholder names; without a budget nothing is spilled |
| SnapshotBounds.SnapshotKeepsAccount | plugin/src/bridge.rs:2906-2964 | the account is the exact sum of the pieces' estimates and within the budget right after every piece of page text |
| SnapshotBounds.EmitKeepsAccount | plugin/src/bridge.rs:2919-2949 | the same for every node emitted in between |
| SnapshotBounds.SectionAddsFewPlaceholders | plugin/src/bridge.rs:2940-2946 | once fewer than 24 tokens remain, the section in progress adds at most 24 placeholders and a later one at most one |
| SnapshotBounds.JoinedEstimate | plugin/src/bridge.rs:2423-2426 | the estimate of the joined text exceeds the account by at most the newlines' share |
| EvalScanner.ScanToken | plugin/js/eval.js:60-84 | the loops over comments, strings and templates end and compute the jump |
| EvalScanner.ScanClose | plugin/js/eval.js:86-97 | the loop over one bracket, with its recursion through templates, ends and computes the jump |
| EvalScanner.ScanBoundaries | plugin/js/eval.js:100-118 | the loop computes the cuts |
| EvalLexer.TokenJumps | plugin/js/eval.js:60-84 | a jump covers exactly what the character automaton spends inside the token |
| EvalLexer.CloseOfIsExact | plugin/js/eval.js:86-97 | the result is the least index after which the bracket depth outside strings, comments and templates is zero, or there is none |
| EvalLexer.BoundariesAreExact | plugin/js/eval.js:100-118 | cuts are strictly increasing, within the text, at depth zero and miss no statement end; none is given exactly for an unclosed bracket or an outermost `return` |
| EvalSource.ReturningList | plugin/js/eval.js:119-135 | the loop from the last cut to the first ends and computes the code |
| EvalSource.ReturningStatement | plugin/js/eval.js:137-209 | the moving index ends and computes the rewritten block, `if` or `try` |
| EvalSource.ReturningCatch | plugin/js/eval.js:170-184 | the clause is rewritten, its parameter kept |
| EvalSource.KeepFinally | plugin/js/eval.js:185-191 | the finalizer is kept as it stands |
| EvalSource.LatestCutIsChosen | plugin/js/eval.js:119-135 | rewritten code compiles, starts with the text before a depth-zero cut as it stands, and no later cut gives code; there is none exactly when no cut does |
| EvalSource.ExpressionIsReturned | plugin/js/eval.js:124-138 | an expression in the last place is returned as it stands, white space and `;` around it aside |
| EvalSourceParts.CatchKeepsItsParameter | plugin/js/eval.js:170-184 | on any text: the rewritten clause is its word, the parenthesis exactly as it stands, and the rewritten block, with only white space and comments left out |
| EvalSourceParts.TryKeepsItsParts | plugin/js/eval.js:164-193 | a rewritten `try` is all of the text, in order: its block, its `catch`, its `finally` |
| EvalSourceParts.IfKeepsItsParts | plugin/js/eval.js:194-208 | a rewritten `if` keeps condition and block, and goes on only with an `else` that is rewritten too |
| EvalSourceParts.BlockKeepsItsParts | plugin/js/eval.js:160-163 | a rewritten block is all of the text |
| EvalSourceParts.CompoundNeedsWholeHead | plugin/js/eval.js:139-141 | a block, `if` or `try` is cut off only where the text before it is complete |
| EvalSourceParts.CompoundIff | plugin/js/eval.js:138 | a text is rewritten as a block, `if` or `try` exactly when it starts with `{` or one of the words, ended as `\b` ends it |
| EvalSourceParts.RefusedIff | plugin/js/eval.js:124-130 | the characters and words before which a cut is refused |
| EvalSourceParts.WsIsPadding | plugin/js/eval.js:143-149 | between the parts only white space and whole comments are passed over, and all of them |
| EvalPrint.PrintBoundaries | plugin/js/eval.js:100-118 | the cuts of a printed list are its start, the ends of its statements and the ends of the braces they bring, and no others |
| EvalPrintCode.StatementCode | plugin/js/eval.js:137-209 | a printed statement with more text behind it gets the code of its kind: blocks, `if` and `try` only as all of the text, an `else` that reads on, everything else in parentheses |
| EvalPrintProofs.PrintedListIsTurned | plugin/js/eval.js:119-209 | the rewriter of text refines the one on statements: for printed lists its code is the print of the turned list, and there is none exactly when the list is not turned |
| EvalSourceExample.BranchIsTurned | plugin/js/eval.js:119-209 | what the agreement asks for can be met: an `if` with a call is a printed list, and its code is the print with the call returned |
| EvalSourceExample.PatternIsReturned | plugin/js/eval.js:137-138 | `let [a] = g()` is returned as it stands if the compiler takes it in parentheses |
| EvalSourceExample.DeclarationIsMerged | plugin/js/eval.js:119-138 | on the text of a declaration and `(1)` on the next line, both late cuts are refused and the code is one `return` of both |
| EvalRewriteProofs.SafeRewriteIsCorrect | plugin/js/eval.js:42-56 | a safe body keeps its effects, their order, its throws and returns, and its completion value or `undefined`, in every run |
| EvalRewriteProofs.GoodStatement | plugin/js/eval.js:137-209 | the same for one rewritten statement in any place |
| EvalRewriteLimits.CorrectIffSafe | plugin/js/eval.js:119-209 | for a body without `return` that gets code: right in every run exactly when it is safe |
| EvalRewriteLimits.UnsafeRewriteIsWrong | plugin/js/eval.js:119-138 | for every unsafe one a run that differs |
| EvalRewriteValues.CompletionValueIsKept | plugin/js/eval.js:13-16 | under the condition, same effects and exactly the completion value, throw or return in every run, a finalizer's own value kept out |
| EvalRewriteLosses.ValueKeptIff | plugin/js/eval.js:13-16 | for a body without `return` that gets code: so in every run exactly under the condition |
| EvalRewriteLosses.LossShows | plugin/js/eval.js:119-209 | for every other one a run in which value or effects differ |
| EvalRewriteLosses.EndsWellKeepsValue | plugin/js/eval.js:13-16 | lists that end in an expression, block, `if` or `try` the rewriter cuts before, and whose own lists do, meet the condition |
| EvalRewriteExamples.LoopBodyOnItsOwnLineRunsOnce | plugin/js/eval.js:119-138 | a loop whose body stands on the next line ends in its first round |
| EvalRewriteExamples.LastDeclarationIsLost | plugin/js/eval.js:137-138 | a declaration in the last place is lost to what runs before it |
| EvalRewriteExamples.DeclarationRunsTogether | plugin/js/eval.js:119-138 | a declaration and the `(1)` after it become one returned expression that calls it |
| EvalRewriteExamples.CommentedBlockIsCalled | plugin/js/eval.js:119-138 | a block behind a comment and the `(1)` after it are returned as one text |
| EvalRewriteExamples.BindingInBranchIsReturned | plugin/js/eval.js:137-138 | `let [a] = g()` in a branch becomes a returned expression, and `g()` does not run |
| EvalRewriteExamples.BranchFunctionIsReturned | plugin/js/eval.js:119-138 | a function that is a branch on its own line is returned, where the body gives `undefined` |
| EvalRewriteExamples.LetIsTorn | plugin/js/eval.js:119-138 | a cut inside a declaration that gives code makes the body unsafe |
| EvalRewriteExamples.ElseOnItsOwnLineLosesTheOther | plugin/js/eval.js:119-138 | an `else` branch on the next line loses the other branch's value |
| EvalRewriteExamples.SomeExpressionsAreNotReturned | plugin/js/eval.js:124-129 | last expressions that get no code: after a block they could go on, starting with `of`, or with a comment behind the `;` |
| TextLocator.PartMatchesWhole | plugin/js/text.js:8-10 | if a part's normalised text holds the needle, so does that of every text around it |
| TextLocator.WriteText | plugin/js/text.js:11-21 | the loops gather the text below an element, skipped elements left out |
| TextLocator.Search | plugin/js/text.js:66-71 | the set and the list hold exactly the matching elements, the list in document order |
| TextLocator.KeepDeepest | plugin/js/text.js:72-72 | the elements without a matching child are kept, in order |
| TextLocator.Find | plugin/js/text.js:60-74 | the loops find the first visible deepest match, else the first deepest one |
| TextLocator.NothingFoundIff | plugin/js/text.js:60-74 | nothing is found exactly when no searched element matches |
| TextLocator.FoundIsDeepest | plugin/js/text.js:60-74 | the result matches, nothing below it reached through searched elements does, and a visible deepest match is preferred |
| TextReference.NormIsWords | plugin/js/text.js:8-10 | normalised text is the words of the text with one space between two |
| TextReference.GapCodes | plugin/js/text.js:9-9 | the characters between words: those of `\s` and the zero-width space |
| WhiteSpace.SpaceCodes | plugin/js/text.js:9-9 | the code points of `\s` |
| TextReference.TextIsSeenLeaves | plugin/js/text.js:11-21 | an element's text is that of the texts outside skipped elements, in order |
| TextReference.ElementsInDocumentOrder | plugin/js/text.js:66-66 | what is searched is every element below the root, once for each path to it, in document order |
| TextReference.FoundIsFirst | plugin/js/text.js:60-74 | the result is the first visible candidate in document order, or the first candidate if none is visible |
| ConsoleLog.TakesMatchTheStream | plugin/src/bridge.rs:3062-3072 | for every interleaving, each take gives the newest min(500, n) of the n messages since the one before |
| ConsoleLog.EveryMessageOnce | plugin/src/bridge.rs:1848-1876 | in the buffer's own outputs every message is taken once, lost before the next take, or still waiting, in order |
| ConsoleLog.TakesAreTheLog | plugin/src/bridge.rs:3062-3072 | if no 501 messages come between two takes, the takes are the log |
| ConsoleLog.EarlyAddsUp | plugin/js/early.js:66-82 | kept and dropped add up to what was logged, and the newest are kept |
| ConsoleLog.NoticeNeverArrives | plugin/src/bridge.rs:1881-1894 | the first take gives the newest early messages and never the notice |
| ConsoleLog.Console.Log | plugin/src/bridge.rs:1863-1874 | in place: one entry more, numbered, and the oldest gone when there are 501 |
| ConsoleLog.Console.TakePending | plugin/src/bridge.rs:3064-3072 | in place: what is new, and the number up to which it was taken |
| ConsoleLog.Console.Adopt | plugin/src/bridge.rs:1881-1894 | in place: notice, early messages, trim, and the end of the early capture |
| ConsoleLog.EarlyConsole.Log | plugin/js/early.js:71-80 | in place: one message more, or the oldest dropped and counted |
| DomCache.SnapshotsNeverMix | plugin/src/state.rs:209-232 | in every run an entry's refs, snapshot, mode, metadata, time, and search text and id if there, are one task's |
| DomCache.ExplicitRefsStay | plugin/src/state.rs:214-229 | once an explicit snapshot is there, only another explicit one changes its refs |
| DomCache.PatchLandsIff | plugin/src/handlers.rs:813-825 | a patch finds its entry exactly when nothing was inserted for the window since |
| DomCache.BackgroundPushLosesThePatch | plugin/src/handlers.rs:813-825 | a background push in between leaves the snapshot without its search text |
| DomCache.PluginState.NextGeneration | plugin/src/state.rs:210-212 | in place: a number never taken before |
| DomCache.PluginState.InsertEntry | plugin/src/state.rs:213-230 | in place: a background push keeps what belongs to an explicit snapshot |
| DomCache.PluginState.PatchEntry | plugin/src/handlers.rs:817-825 | in place: only the entry of its own generation is patched |
| DomCacheFacts.StoreWrites | plugin/src/state.rs:209-232 | a background push over an explicit snapshot brings a new page and keeps the rest; any other push replaces the entry; other windows keep theirs |
| DomCacheFacts.PatchWrites | plugin/src/handlers.rs:817-825 | a patch puts text and id into its own push's entry and changes nothing else |
| DomCacheFacts.PatchShowsIff | plugin/src/handlers.rs:813-825 | over runs: the text and the id are there after the patch exactly when nothing was inserted for the window since |
| DomCacheFacts.SearchTextStays | plugin/src/state.rs:214-229 | once there, only another explicit snapshot changes them |
| DomCacheFacts.LatestPageShows | plugin/src/state.rs:209-232 | in every run the page shown is that of the push that inserted last |
| McpSessions.PruningIsInvisibleToPost | plugin/src/mcp.rs:545-594 | a POST is answered as the history alone says: accepted exactly when issued, not deleted, last used at most one TTL ago and of the same version |
| McpSessions.DeleteFindsIff | plugin/src/mcp.rs:204-238 | a DELETE finds its session exactly when no pruning request came later than one TTL after its last use |
| McpSessions.PruningShowsInDelete | plugin/src/mcp.rs:204-238 | another session's POST changes the answer of a DELETE |
| McpSessions.McpState.PruneIdle | plugin/src/mcp.rs:340-344 | in place: exactly the sessions idle for more than the TTL go |
| McpSessions.McpState.HandleInitialize | plugin/src/mcp.rs:346-391 | in place: a bad version issues nothing, otherwise prune and issue |
| McpSessions.McpState.RequireSession | plugin/src/mcp.rs:545-594 | in place: the checks in their order, and the new time of use only on acceptance |
| McpSessions.McpState.DeleteSession | plugin/src/mcp.rs:204-238 | in place: the session goes, nothing is pruned |
| McpFacts.InitializeOpensIff | plugin/src/mcp.rs:346-391 | a session is opened exactly when a version is agreed on and a version header says the same |
| McpFacts.OpenedSessionAccepts | plugin/src/mcp.rs:545-594 | its first POST within an hour is accepted, under that version or without a header |
| McpFacts.DeletedIsGone | plugin/src/mcp.rs:204-238 | after a DELETE no POST with the id is accepted |
| McpFacts.PrunedIff | plugin/src/mcp.rs:340-344 | exactly the sessions idle for more than an hour go |
| McpFacts.BadIdsAreRefused | plugin/src/mcp.rs:545-594 | a missing id, an empty one, and one with other than visible ASCII characters are refused without a look at the sessions |
| Sha256.Sha256Hex | plugin/src/handlers.rs:3636-3713 | the loops compute SHA-256 in lower-case hexadecimal for every byte string whose bit length fits 64 bits |
| Sha256.PadMessage | plugin/src/handlers.rs:3653-3659 | the loop adds zero bytes until the standard's padding is there |
| Sha256.PaddingIsMinimal | plugin/src/handlers.rs:3653-3659 | the padding is that of section 5.1.1 of FIPS 180-4, with the least number of zero bits |
| Sha256.LengthReadsBack | plugin/src/handlers.rs:3653-3659 | the eight length bytes, the highest first, are the bit length |
| Sha256.HexReadsBack | plugin/src/handlers.rs:3710-3713 | the text read back gives the words, so digests with one text are equal |
| Sha256.Schedule | plugin/src/handlers.rs:3661-3679 | the two loops fill in the message schedule of section 6.2.2 |
| Sha256.Rounds64 | plugin/src/handlers.rs:3681-3709 | the 64 rounds and the final addition are the compression of section 6.2.2 |
| Sha256Facts.ConstantsAreCubeRoots | plugin/src/handlers.rs:3637-3648 | the 64 constants are the first 32 bits of the fractional parts of the cube roots of the first 64 primes |
| Sha256Facts.PrimesAreFirst | plugin/src/handlers.rs:3637-3648 | these are the primes up to 311, all of them |
| Sha256Facts.InitialIsSquareRoots | plugin/src/handlers.rs:3649-3652 | the initial hash value is that of the square roots of the first eight |
| Sha256Facts.ChChooses | plugin/src/handlers.rs:3681-3709 | `ch` chooses bit by bit |
| Sha256Facts.MajIsMajority | plugin/src/handlers.rs:3681-3709 | `maj` is with two that agree |
| Sha256Facts.MajIsSymmetric | plugin/src/handlers.rs:3691-3691 | so it does not matter which two of its words agree |
| Sha256Facts.DigestIsChain | plugin/src/handlers.rs:3653-3709 | the digest ends a chain over blocks that hold the message, a byte 0x80, fewer than 64 zero bytes and the length |
| Sha256Abc.DigestOfAbc | plugin/src/handlers.rs:5784-5790 | the digest of "abc" is the one the repository's test expects |

## Left out

- Tauri, webview, tokio, axum and socket input and output: a step succeeds or fails, and nothing more is said about it.
- Cancelled tasks: a future that is dropped between two steps is not modelled, save for the guard that cleans up a pending request.
- Window focus, screen lock, visibility and background probing: they appear only as refusals before anything is sent.
- Request ids in `Dispatch`: that a stale answer of an earlier attempt settles a later one under the same id is not modelled there; `BridgePending` has ids and connections.
- A document that changes in the middle of one native delivery.
- What elements are: roles, names, visibility, filters, overlay ranking, tree walkers and `contains` are inputs.
- Text leaves that the accessibility mode puts below a node, and the attributes that mark a portal: they are not counted and never move.
- Collapse.RestoreUndoesCollapse: the tree is a value that `collapseTree` rebuilds, so replacing child lists in place is not modelled; the loops over siblings are.
- Collapse.OnlyNestedCollapsesAreLost: the exact count is without overlays; with them `SnapshotCoverage.OverlaysHideNothing` says that a node is shown at least once, not how often.
- SnapshotReassembly.SnapshotReassembles: the collapsed runs, which the source appends to the same list, are in `RenderedReassembles`.
- SnapshotReassembly.RenderedReassembles: the closing line that says the walk was cut short is not part of it.
- EvalRewriteLimits.CorrectIffSafe: bodies with a `return` in some inner list are covered in one direction only, by `EvalRewriteProofs.SafeRewriteIsCorrect`, because a `return` can make the unsafe place unreachable; the source promises the rewrite for bodies with no `return`.
- EvalRewriteLosses.ValueKeptIff: the same, with `EvalRewriteValues.CompletionValueIsKept`.
- EvalRewriteProofs.SafeRewriteIsCorrect: `do`/`while`, `switch` and `throw` are one kind of statement that may do anything but be split, so a `throw` may also go through and `break` and `continue` stay inside it or a loop; thenables that an async function would adopt are plain values, and functions in blocks are visible in their block only.
- EvalRewrite: texts with `\r` line ends or HTML-like comments, regular expressions that hold a quote, a bracket, a backtick or a comment opener, and bodies with a `use strict` of their own.
- EvalSource.LatestCutIsChosen: whether code compiles is a parameter, so which statements a text holds is not in the model; `EvalPrintProofs.PrintedListIsTurned` relates the two for lists that are printed. Regular expression literals are not recognised, as in the source.
- EvalPrintProofs.PrintedListIsTurned: loops, labels, `with` and an `if` without braces, an `else` on a line of its own, comments before a statement, statements that a cut tears and a `return` are not printed; the statements between are texts with nothing to cut in them but, for a declaration, behind its brace.
- The text locator's `has`, with frames and field values, and elements whose boxes cannot be read.
- TextLocator.FoundIsDeepest: elements inside skipped elements are searched by the source although their text counts for nothing above them, so a match there may lie below the result.
- McpSessions.PruningIsInvisibleToPost: requests are taken in the order of the lock with times that do not decrease; the source reads the time before it takes the lock.
- ConsoleLog: formatting of console arguments.
- `u64` and `u32` widths of counters and generation numbers, which do not wrap in practice; SHA-256 words are 32 bits wide.
- Screenshots, artifacts, log files, the workflow service, the picker, synthetic input, the wait poller, JSON-RPC field checks, tool schemas and the clients: thin, bound to the environment, or settled by reading one branch.
