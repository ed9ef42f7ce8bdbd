# Verified model of kyora

kyora runs agents that spawn agents. Below its asynchronous code are state machines behind locks and algorithms over
streams. This project models them in Dafny and proves what they keep over whole runs. One method of an object is one
step under that object's lock, and a run is any interleaving of steps.

## What is modelled

- **Budget ledger** (`Ledger`, `LedgerInvariant`, `LedgerObject`, `LedgerRuns`, `ReservationGuard`): a growing tree of
  scopes in which a reservation and its settlement touch every ancestor; conservation of all counters over subtrees,
  refusal below closed scopes, and the bound on what a scope can use beyond its limit.
- **Node lifecycle** (`Lifecycle`, `LifecycleInvariant`, `LifecycleRuns`, `LifecycleGrowth`, `LifecycleLedger`):
  spawn, attempts, cancellation and the ordered shutdown as interleaved steps; children end before parents, an ended
  node holds nothing, shutdown always completes, and when the subtree of a closed node can still grow.
- **Mailbox** (`Envelopes`, `Mailbox`, `MailboxObject`): reservations, selective deliveries within a budget, terminal
  entries, and the atomic choice between delivering, waiting and closing.
- **Message protocol** (`Messaging`, `MessagingInvariant`, `MessagingNotices`, `MessagingOrder`, `MessagingRecords`,
  `MessagingRuns`, `MessagingProgress`, `MessagingRecordOrder`): the tasks that carry messages and records across a
  whole tree of agents, on top of the mailbox model; every message is settled exactly once, in send order, its
  sender's notice last, and from every reachable state the steps that are owed lead to the end of the root.
- **Redaction** (`Utf8`, `Scalars`, `Escapes`, `JsonStrings`, `Decoded`, `Spans`, `Redaction`, `Boundaries`,
  `Redactor`, `CutText`, `StderrTail`): secret values found raw and in whatever spelling a JSON writer (section 7 of
  RFC 8259), defined apart from the decoder, can choose for them, spans merged and masked while they arrive, decoding
  that finds its way again after an arbitrary cut, and the stderr ring that rests on it.
- **Concurrent edits** (`EditText`, `EditLocks`, `EditRuns`): locks keyed by a file identity that every edit changes.
- **Streams** (`Json`, `Codec`, `Accumulator`, `StreamHistory`, `AccumulatorObject`, `SseGrammar`, `SseParser`,
  `SseWriter`): a response cut into events and put together again, what any accepted events say of the state, and a
  chunk-fed event parser against a grammar of whole inputs (sections 9.2.5 and 9.2.6 of the WHATWG HTML Standard).
- **Traces** (`Forest`, `TraceTree`, `TraceAgreement`, `TraceCharges`, `TraceOfRun`): the tree of nodes rebuilt from
  records in any order, with the ledger's usage, and what the attempt records alone tell of it.
- **Agent loop and tools** (`Retry`, `AgentTools`, `AgentLoop`, `Schema`, `Truncate`, `Naming`): how every run of the
  loop ends, bounds on model calls and attempts, tool uses and their results, the output contract, the schema subset,
  truncation, and names of MCP tools.

Where the source updates an object in place, the model is a class whose methods are proved against specification
functions on its state; the theorems are about those functions and about runs. `dafny verify dfyconfig.toml` checks the
project.

## Where code and documentation differ

- `docs/agent-messages.md` line 44 says that delivery records are written in the recipient's delivery order. At a turn
  boundary taking messages and handing their record to the chain are two steps
  (`crates/core/src/runtime.rs` lines 858-900), while `receive` and `wait` do both under the work lock. A task that
  calls `receive` through the public node handle while the agent's loop is between its two steps has its record written
  first. `MessagingRecordOrder.RecordOrderIff` proves when the documented order holds,
  `MessagingRecordOrder.DeliveryCanBeOvertaken` gives the run where it does not. What each sender's messages are handed
  over in is not affected.
- `crates/core/src/runtime.rs` lines 444-446 say that cancelling a node's token stops its whole subtree at once. A spawn
  or leaf call below that has made its check (lines 1287-1292) and not yet its admission (`crates/core/src/ledger.rs` lines
  115-131, which looks at the direct parent only) still adds a node. `LifecycleGrowth.GrowsIff` proves exactly when some
  run still adds one, `LifecycleGrowth.ClosedSubtreeIsBounded` how many at most, and
  `LifecycleGrowth.ClosedRootStillGrows` gives the run. Such a node is cancelled from the start and is joined by its
  parent, so the order of ends and releases is not affected.
- Edits stay exclusive only while the file system does not give a new file an identity that an editor waits to revalidate
  under another lock. `EditRuns.ExclusionIff` proves that this is exactly when a replacement lets two editors in;
  `EditRuns.ReissueBreaksExclusion` gives a run from the start.

## Model

| member | source | states |
|---|---|---|
| LedgerObject.NewLedger | crates/core/src/ledger.rs:86-114 | Limits that are not positive are refused; otherwise the new ledger holds the open root scope and nothing else, and meets the ledger invariant |
| LedgerObject.Ledger.Path | crates/core/src/ledger.rs:283-291 | The path of a node is exactly its scope and every ancestor's, each once |
| LedgerObject.Ledger.Refusal | crates/core/src/ledger.rs:124-156 | Decides the error of an admission: unknown or ended parent, depth, live, total and leaf limits, budget and ids, in that order of checks |
| LedgerObject.Ledger.Admit | crates/core/src/ledger.rs:115-180 | Succeeds exactly when the parent is known and open, no limit of the new node's kind is reached, no budget of zero is asked for, every scope on the path has a token left and an identifier is left; otherwise the error is that of the first rule broken and nothing changes. The new scope has the given parent and kind, is one level further down for agents only, has empty books, and its limit is the smaller of what was asked (or the whole budget) and the parent's limit; no other scope changes |
| LedgerObject.Ledger.Offer | crates/core/src/ledger.rs:182-205 | What a reservation can be granted at most: it fits every scope on the path and no larger output cap does |
| LedgerObject.Ledger.Reserve | crates/core/src/ledger.rs:182-222 | Succeeds exactly when no scope on the path is closed and each has room for the prompt and min(4096, requested) tokens; then each holds the same tokens more, with the largest cap up to the request that fits them all, and no other scope changes. Otherwise nothing changes |
| LedgerObject.Ledger.Settle | crates/core/src/ledger.rs:224-255 | An attempt is charged what was measured, nothing, or as input exactly the tokens it held. On every scope of its path reserved falls by those tokens, used and usage grow by the charge, and the scope closes when used and reserved pass its limit; own grows at its node alone, no other scope changes, and charge and excess are reported |
| LedgerObject.Ledger.CloseAdmission | crates/core/src/ledger.rs:257-260 | Closing admission changes that flag alone |
| LedgerObject.Ledger.Shutdown | crates/core/src/ledger.rs:262-271 | Ends the node and releases a live agent's slot once; doing it again changes nothing, and nothing else changes |
| LedgerInvariant.CapUnique | crates/core/src/ledger.rs:196-205 | The granted output cap is determined by the path |
| LedgerInvariant.CapIsUseful | crates/core/src/ledger.rs:190-205 | A grant has a cap of at least min(4096, requested) and at most the request |
| LedgerInvariant.ReserveFits | crates/core/src/ledger.rs:196-222 | After a reservation, every scope still has used plus reserved within its limit |
| LedgerInvariant.AdmitKeepsInv | crates/core/src/ledger.rs:115-180 | Admission keeps conservation and the counts of agents and leaves while the tree grows |
| LedgerInvariant.ReserveKeepsInv | crates/core/src/ledger.rs:182-222 | Reservation keeps the ledger invariant |
| LedgerInvariant.SettleKeepsInv | crates/core/src/ledger.rs:224-255 | Settlement keeps the ledger invariant |
| LedgerInvariant.PaidConserves | crates/core/src/ledger.rs:224-255 | A settlement keeps reserved, used, usage and own equal to their sums at every scope |
| LedgerInvariant.ShutdownKeepsInv | crates/core/src/ledger.rs:262-271 | Release keeps the count of live agents equal to the number of live agent scopes |
| LedgerRuns.ClosedRefuses | crates/core/src/ledger.rs:182-205 | Nothing is reserved at or below a closed scope |
| LedgerRuns.ClosedForever | crates/core/src/ledger.rs:182-255 | A closed scope never reopens and never again takes a reservation below it, over any run |
| LedgerRuns.FirstClosure | crates/core/src/ledger.rs:224-255 | At the step that closes a scope, what it has used beyond its limit is due to the attempt settled there |
| LedgerRuns.OvershootBound | crates/core/src/ledger.rs:182-255 | Over any run a scope's use is at most its limit plus the excess of the attempts that were outstanding when it first closed |
| LedgerRuns.AskedBound | crates/core/src/ledger.rs:155-255 | Over any run a scope admitted with a limit of its own has used and reserved at most that while it is open, and once closed never uses more than that limit plus the excess of the attempts outstanding before the step that closed it |
| LedgerRuns.SubtreeConservation | crates/core/src/ledger.rs:115-255 | In every reachable ledger each scope's reserved, used and usage are the sums over its subtree, usage totals used, and an open scope is within its limit |
| Guards.ReservationGuard.Settle | crates/core/src/runtime.rs:2183-2188 | The owner's settlement consumes the guard and charges the path of its attempt as the ledger's settlement does |
| Guards.ReservationGuard.Drop | crates/core/src/runtime.rs:2190-2201 | Dropping a guard that still holds its reservation charges its path the tokens it held, all as input, once the request was dispatched, and nothing before; a guard that holds nothing changes nothing |
| Guards.OneAttempt | crates/core/src/runtime.rs:1067-1166 | Whether an attempt is dropped in a wait, not recorded, stopped before its dispatch, answered, refused or panics: in the end every scope on the path holds what it held before and is charged what was measured when it was answered, nothing when it never went out or was turned down unprocessed, and all it held otherwise |
| Guards.Course | crates/core/src/runtime.rs:1077-1149 | On every path an attempt has either settled with its charge or still holds a guard whose drop settles with that charge |
| LifecycleInvariant.NextKeepsInv | crates/core/src/runtime.rs:383-454 | Every step keeps the lifecycle invariant in every interleaving, cancellation between a spawn's check and its admission, or before a reservation or dispatch, included |
| LifecycleInvariant.SpawnKeepsInv | crates/core/src/runtime.rs:1319-1480 | An admission under the work lock its check took keeps every child owned by its parent; under a cancelled parent the child is cancelled from the start |
| LifecycleInvariant.CloseWorkKeepsInv | crates/core/src/runtime.rs:439-454 | Closing work refuses new children, closes admission, cancels the subtree and takes the tasks to join at once |
| LifecycleInvariant.EndKeepsInv | crates/core/src/runtime.rs:425-432 | A node's end is recorded once, with its final usage, after all of its children's slots were released |
| LifecycleInvariant.ReleaseKeepsInv | crates/core/src/runtime.rs:430-431 | The slot is released once, after the end record |
| LifecycleRuns.ChildrenEndBeforeParents | crates/core/src/runtime.rs:383-454 | In every run a descendant's end record and slot release precede its ancestor's end record |
| LifecycleRuns.AliveAncestors | crates/core/src/runtime.rs:383-454 | In every run a live scope has only live ancestors, and live counts the live agent scopes |
| LifecycleRuns.EndedHoldsNothing | crates/core/src/runtime.rs:2167-2204 | When a node has ended, no attempt is outstanding in its subtree |
| LifecycleRuns.RecordedUsageIsFinal | crates/core/src/runtime.rs:425-432 | The usage a node's end record carries is the ledger's final own and subtree usage, with nothing reserved |
| LifecycleGrowth.StepGrows | crates/core/src/runtime.rs:1287-1392 | A step adds a node below a closed node exactly when it is the admission of a spawn past its check further down; the node is cancelled from the start |
| LifecycleGrowth.ClosedHasNoNewChild | crates/core/src/runtime.rs:439-446 | A node that closed its own work never gains another child |
| LifecycleGrowth.ClosedSubtreeIsBounded | crates/core/src/runtime.rs:439-446 | Below a closed node any run adds at most one node for each spawn that was past its check when it closed, everything there is cancelled, and with no such spawn nothing is ever added |
| LifecycleGrowth.GrowsIff | crates/core/src/ledger.rs:115-180 | Some run still adds a node below a closed node if and only if a spawn there is past its check and has room for what it asks: calls for a leaf call, agents and depth for an agent, identifiers and the limits on its path for both |
| LifecycleGrowth.ClosedRootStillGrows | crates/core/src/runtime.rs:439-446 | A run in which the closed root still gains a node below it |
| LifecycleRuns.NeverStuck | crates/core/src/runtime.rs:383-454 | While a node is unfinished some shutdown step can be taken |
| LifecycleRuns.AdvanceShortens | crates/core/src/runtime.rs:383-454 | Every shutdown step leaves less to do |
| LifecycleRuns.ShutdownCompletes | crates/core/src/runtime.rs:383-454 | From every reachable state a run of shutdown steps finishes every node |
| LifecycleLedger.StepOnLedger | crates/core/src/runtime.rs:383-454 | What each lifecycle step does to the ledger: a spawn admits, an attempt reserves, its owner settles it with a charge, a dropped guard settles in full once dispatched and at nothing before, closing work closes admission, and a release gives the slot back |
| LifecycleLedger.LifecycleIsLedgerRun | crates/core/src/runtime.rs:383-454 | The ledger of every lifecycle run is one that a run of ledger operations reaches |
| LifecycleLedger.ChildKeepsItsLimit | crates/core/src/runtime.rs:1319-1480 | Whatever the agents do, a child spawned with a limit uses and holds no more while its scope is open, and afterwards exceeds it by no more than the excess of the attempts outstanding when it closed |
| Envelopes.DeliveryUnique | crates/core/src/messages.rs:140-164 | The longest affordable prefix is unique |
| Envelopes.PickedBySender | crates/core/src/messages.rs:146-153 | A pick selects everything, or all envelopes of its senders and none of any other, in order |
| Envelopes.StoppedIsDelivery | crates/core/src/messages.rs:146-164 | Stopping at the first envelope that does not fit gives the longest affordable prefix |
| Envelopes.TakesFront | crates/core/src/messages.rs:153-166 | A delivery takes the front of what each sender has queued and leaves the rest in order |
| Envelopes.TakesOnly | crates/core/src/messages.rs:153-166 | Everything queued is taken or left, and nothing else is |
| Envelopes.UnpickedStay | crates/core/src/messages.rs:153-166 | The envelopes of senders that are not selected stay, in order |
| Envelopes.OldestGoes | crates/core/src/messages.rs:148-157 | In a turn that has used nothing a delivery of everything starts with the oldest envelope, whatever its size |
| MailboxSpec.DeliveredKeepsInv | crates/core/src/messages.rs:140-186 | A delivery keeps the mailbox invariant |
| MailboxSpec.DeliveredKeepsOrder | crates/core/src/messages.rs:153-166 | A delivery keeps, for every sender, handed over followed by queued equal to arrived |
| MailboxSpec.DeliveredKeepsTurn | crates/core/src/messages.rs:148-168 | A delivery keeps a turn within its budget, or to one item |
| MailboxSpec.DeliveredKeepsAccounts | crates/core/src/messages.rs:169-173 | A delivered notice moves its agent from queued to seen |
| MailboxSpec.PushKeepsInv | crates/core/src/messages.rs:282-302 | A push keeps the mailbox invariant when its caller holds a reservation or the agent is awaited |
| MailboxSpec.CloseKeepsInv | crates/core/src/messages.rs:381-390 | Closing hands every queued envelope over as dropped and keeps each sender's order |
| MailboxSpec.HandedOverInOrder | crates/core/src/messages.rs:140-186 | What was handed over of a sender is the beginning of what arrived of it |
| MailboxObject.Mailbox.Reserve | crates/core/src/messages.rs:264-274 | Refuses when closed or full, otherwise holds one place; plain and reserved never exceed the capacity |
| MailboxObject.Mailbox.Expect | crates/core/src/messages.rs:276-279 | Registers a child, once, whose notice is awaited |
| MailboxObject.Mailbox.Push | crates/core/src/messages.rs:282-302 | Queues the envelope or hands it back when closed; either way the reservation or the awaited child is cleared |
| MailboxObject.Mailbox.Stage | crates/core/src/messages.rs:312-319 | Stages exactly when open and neither awaited nor concluded |
| MailboxObject.Mailbox.Charge | crates/core/src/messages.rs:331-338 | Charges exactly when the turn is unused or the cost fits |
| MailboxObject.Mailbox.NewTurn | crates/core/src/messages.rs:340-342 | Starts a new turn's budget |
| MailboxObject.Mailbox.Select | crates/core/src/messages.rs:140-166 | The loop takes the first selected envelopes that fit the rest of the turn's budget up to the last character, or the one that starts the turn, and one more would not fit; it keeps all others in order and counts by sender what was left |
| MailboxObject.Mailbox.Take | crates/core/src/messages.rs:352-359 | Hands over the longest delivery that fits, moves the shown notices to seen and keeps the counts |
| MailboxObject.Mailbox.Idle | crates/core/src/messages.rs:364-379 | Delivers while anything is queued; is done exactly when nothing is queued, awaited or reserved, closing in the same step |
| MailboxObject.Mailbox.Close | crates/core/src/messages.rs:381-390 | Closes and returns everything still queued |
| MailboxObject.Mailbox.Outstanding | crates/core/src/messages.rs:401-410 | The agents that are awaited or whose notice is queued |
| MessagingInvariant.BoxesKept | crates/core/src/runtime.rs:1548-1618 | Every step of the protocol meets what the mailbox asks of its callers, so every mailbox keeps its invariant |
| MessagingInvariant.BoxKept | crates/core/src/runtime.rs:1564-1612 | A send pushes only with the reservation it made, a notice only while its agent is awaited |
| MessagingInvariant.ReservationsKept | crates/core/src/runtime.rs:1564-1612 | A mailbox's reservations are exactly the sends to it that are not queued or refused yet |
| MessagingNotices.OneNoticeKept | crates/core/src/runtime.rs:1440-1475 | A child's own notice and a staged one never meet in one mailbox |
| MessagingNotices.ExpectedKept | crates/core/src/runtime.rs:1440-1452 | A node-owned child is awaited from its spawn until its notice is posted |
| MessagingNotices.AwaitedKept | crates/core/src/runtime.rs:1867-1896 | A notice on its way is awaited and one that arrived is concluded |
| MessagingNotices.ArrivalsKept | crates/core/src/runtime.rs:1596-1612 | A message is queued in its recipient's mailbox exactly once |
| MessagingOrder.AllBefore | crates/core/src/runtime.rs:1585-1595 | When a send's predecessor is done, all earlier sends of its sender are |
| MessagingOrder.InTurnKept | crates/core/src/runtime.rs:1585-1611 | A send goes on only after every earlier send of its sender is done, whatever order records are acknowledged in |
| MessagingOrder.ArrivesLast | crates/core/src/runtime.rs:1585-1612 | What arrives was sent after everything of the same sender that arrived before |
| MessagingOrder.NoticesLastKept | crates/core/src/runtime.rs:383-436 | A notice is made after everything its agent sent, since shutdown joins the sends |
| MessagingRecords.RecordedOnce | crates/core/src/runtime.rs:1898-1931 | An envelope that arrived is recorded once at most as delivered or dropped, and once when its node has ended |
| MessagingRecords.AgentOkKept | crates/core/src/runtime.rs:881-900 | What was taken is in hand or in the record chain; nothing taken is lost |
| MessagingRecords.TraceKept | crates/core/src/runtime.rs:995-1007 | The trace counts of every message follow its task, its recipient's records and the drained queue |
| MessagingRuns.ProtocolKept | crates/core/src/runtime.rs:1548-1931 | Every step of sends, notices, deliveries, records and shutdown keeps the protocol invariant |
| MessagingRuns.SettledAtMostOnce | crates/core/src/runtime.rs:1598-1611 | In every reachable state a message has at most one send record and at most one of a delivered or undelivered record, each after the send record |
| MessagingRuns.SettledExactlyOnce | crates/core/src/runtime.rs:408-454 | When the root has ended every message is recorded exactly once as delivered or undelivered |
| MessagingRuns.RootEndsLast | crates/core/src/runtime.rs:439-454 | Once the root has ended every agent has |
| MessagingRuns.HandedInOrder | crates/core/src/runtime.rs:1585-1611 | Each recipient is handed a sender's messages in send order, the notice about that sender last |
| MessagingRuns.MailboxesOfRun | crates/core/src/messages.rs:264-338 | Over any run every mailbox stays within capacity and turn budget, has one notice for each agent at most, and while open accounts for every concluded agent |
| MessagingProgress.NeverStuck | crates/core/src/runtime.rs:1578-1612 | While an agent is not over, some step of a send, notice, record or shutdown can be taken: chains of sends and records never wait for each other |
| MessagingProgress.OwedShortens | crates/core/src/runtime.rs:1578-1612 | Every such step leaves fewer of them |
| MessagingProgress.RootCanEnd | crates/core/src/runtime.rs:439-454 | Every run can be continued by steps already owed to the end of the root, and then every message is recorded exactly once as delivered or undelivered |
| MessagingRecordOrder.RecordOrderIff | crates/core/src/runtime.rs:881-900 | Delivery records are in the order of handing over if and only if no receive or wait took messages while a turn's delivery was not yet recorded |
| MessagingRecordOrder.DeliveryCanBeOvertaken | crates/core/src/runtime.rs:1632-1648 | A run in which the later of two deliveries is recorded first |
| Utf8.Encode | crates/mcp/src/secrets.rs:318-330 | The encoding of a scalar value is one well-formed character, one byte exactly for ASCII |
| Scalars.ScalarOfEncode | crates/mcp/src/secrets.rs:318-330 | What is encoded reads back as the same scalar value |
| Scalars.EncodeScalarOf | crates/mcp/src/secrets.rs:318-330 | Every well-formed character is the encoding of one scalar value |
| Scalars.ScalarsOf | crates/mcp/src/secrets.rs:318-330 | Every well-formed text is the encodings of scalar values one after another |
| Scalars.TextIsValid | crates/mcp/src/secrets.rs:318-330 | Encodings of scalar values one after another are well-formed text |
| Utf8.OccurrenceIsAligned | crates/mcp/src/secrets.rs:263-265 | Wherever one text occurs in another, it starts and ends on character boundaries |
| Escapes.Unescape | crates/mcp/src/secrets.rs:354-371 | An escape decodes to a scalar value and takes 2, 6 or 12 bytes; which one it is, is what UnescapeIff states |
| DecodedText.UnescapeIff | crates/mcp/src/secrets.rs:354-398 | A text starts with an escape of a character exactly when it starts with what a JSON writer can write for that character: its letter after a backslash, or four hexadecimal digits in any case, two such units beyond 16 bits |
| Escapes.Unicode | crates/mcp/src/secrets.rs:374-391 | A unicode escape or surrogate pair decodes to a scalar value; a lone or wrong surrogate is none |
| Escapes.DecodedIsValid | crates/mcp/src/secrets.rs:303-344 | Decoding text gives text |
| Escapes.DecodeFromToken | crates/mcp/src/secrets.rs:316-340 | From a token on, decoding depends on the rest of the text only |
| Escapes.BoundaryIsToken | crates/mcp/src/secrets.rs:331-341 | Every character boundary of the decoded text maps to the start of a token |
| Escapes.MatchCoversTokens | crates/mcp/src/secrets.rs:346-350 | A decoded match maps back to whole escapes, at most six times as long |
| DecodedText.DecodeLoop | crates/mcp/src/secrets.rs:312-344 | The loop computes the decoded text and, for each byte of it, where it came from |
| DecodedText.NewView | crates/mcp/src/secrets.rs:303-344 | A view is made exactly when there is a backslash, or as if one came first, its origins shifted back |
| DecodedText.EverySpellingDecodes | crates/mcp/src/secrets.rs:292-298 | Whatever mixture of spellings a JSON writer, defined apart from the decoder, chooses for a string, decoding gives the string |
| SpanMask.Spans.Push | crates/mcp/src/secrets.rs:241-264 | A span that arrives in order of ends extends the record of spans, with everything written so far final |
| SpanMask.Spans.Emit | crates/mcp/src/secrets.rs:266-275 | Writes the gap and one placeholder, so that the output is the mask up to the span's end |
| SpanMask.Spans.Finish | crates/mcp/src/secrets.rs:277-283 | The output is the whole-text mask of all spans: each maximal covered run is one placeholder |
| SpanMask.MaskGapRun | crates/mcp/src/secrets.rs:266-275 | An open gap followed by a covered run is masked as the gap and one placeholder |
| SpanMask.MaskSplit | crates/mcp/src/secrets.rs:245-260 | A mask can be cut at any open position |
| SpanMask.MaskSame | crates/mcp/src/secrets.rs:241-283 | A mask depends only on the positions covered |
| SpanMask.FarIsFinal | crates/mcp/src/secrets.rs:249-257 | No later span touches a position more than the reach before the last end |
| SpanMask.MaskGrowth | crates/mcp/src/secrets.rs:105-109 | The output is longer than the text by at most one placeholder for each match |
| Redaction.MatchesAreExact | crates/mcp/src/secrets.rs:138-140 | The matches are exactly the occurrences of the values |
| Redaction.MatchesInOrder | crates/mcp/src/secrets.rs:132-137 | Matches come in order of their ends |
| Redaction.PlainFaithful | crates/mcp/src/secrets.rs:152-157 | Matches of the decoded view map to non-empty ranges within reach, in order of ends |
| Redaction.LeadingFaithful | crates/mcp/src/secrets.rs:307-312 | So do the matches of the view with a backslash before the text |
| Redaction.FoundIsHidden | crates/mcp/src/secrets.rs:126-171 | The merged spans cover exactly the positions of raw and spelled values |
| Boundaries.FoundIsAligned | crates/mcp/src/secrets.rs:266-275 | Every span to mask, raw, decoded or decoded after a cut, starts and ends on a character boundary |
| Boundaries.MaskIsValid | crates/mcp/src/secrets.rs:266-283 | Masking aligned spans turns well-formed text into well-formed text |
| Redactor.Earliest | crates/mcp/src/secrets.rs:162-168 | The stream whose next match ends first, the first such on a tie |
| Redactor.PushAll | crates/mcp/src/secrets.rs:162-170 | Merging the streams pushes their spans in order of ends and loses none |
| Redactor.RedactSpans | crates/mcp/src/secrets.rs:126-172 | The redacted text is the text from the next character boundary on, with every maximal run of positions to hide as one placeholder, and is well-formed text |
| CutText.CutInside | crates/mcp/src/secrets.rs:117-124 | A cut inside an escape: the view with a backslash finds its end when the cut is right after the backslash, the plain view otherwise |
| CutText.NoEscapeInside | crates/mcp/src/secrets.rs:374-391 | No escape starts two bytes into an escape or later; the second half of a surrogate pair is none |
| CutText.Resynchronises | crates/mcp/src/secrets.rs:117-172 | For every text and cut, one of the two views has exactly the tokens of the whole text from the end of the token straddling the cut, and decodes to the same from there |
| CutText.DecodedHiddenAfterCut | crates/mcp/src/secrets.rs:142-157 | Every spelled value that starts after the cut is found in the text after the cut |
| CutText.EverySpellingIsHidden | crates/mcp/src/secrets.rs:138-157 | A value is hidden wherever a JSON writer wrote it, in any mixture of spellings, from a token of the text on |
| CutText.WrittenValueIsHidden | crates/mcp/src/secrets.rs:138-157 | In a text that is itself written as a JSON string a value is hidden in whatever spelling it stands |
| StderrTail.BoundaryIsNear | crates/mcp/src/process.rs:154-163 | At most three continuation bytes follow one another |
| StderrTail.RingStart | crates/mcp/src/process.rs:154-164 | Skipping the leading continuation bytes of the ring aligns it with the text |
| StderrTail.HiddenAfterCut | crates/mcp/src/process.rs:98-102 | With room for six times the longest value, every raw or spelled value that reaches into the tail is hidden after the cut |
| StderrTail.Tail.Append | crates/mcp/src/process.rs:103-112 | The ring holds the last bytes of everything read and tells whether any were dropped |
| StderrTail.Tail.Report | crates/mcp/src/process.rs:150-171 | The report starts at the last 2048 bytes and shows no byte there that is part of a value |
| EditText.ReplacedIsJoined | crates/tools/src/files.rs:448-455 | Replacing is joining the pieces between matches with the new text |
| EditText.PutBack | crates/tools/src/files.rs:448-455 | Replacing matches by what was found changes nothing |
| EditText.SingleEdit | crates/tools/src/files.rs:448-455 | Without replace_all an edit succeeds only at one match and changes that alone |
| EditText.EditIff | crates/tools/src/files.rs:436-455 | An edit succeeds exactly when the text to find is given, not empty and matches once, or more often with replace_all; the result is the pieces between the matches, each cut at the first match, joined by the new text |
| EditText.EditErrors | crates/tools/src/files.rs:436-453 | Each error, and the number of matches it reports |
| EditText.CutIsUnique | crates/tools/src/files.rs:448-448 | There is one way to cut a text at the first match each time |
| EditLocks.LockRegistry.Acquire | crates/tools/src/files.rs:203-217 | A lease shares the lock of an identity while anybody holds it, otherwise a new one |
| EditLocks.LockRegistry.Drop | crates/tools/src/files.rs:222-228 | Giving a lease back forgets exactly the identities whose lock nobody holds, so none is left without leases |
| EditLocks.LockRegistry.Publish | crates/tools/src/files.rs:454-457 | The new identity gets the editor's lock |
| EditRuns.MutualExclusion | crates/tools/src/files.rs:424-458 | At most one editor is between revalidation and publication |
| EditRuns.CurrentKept | crates/tools/src/files.rs:424-458 | Whoever may come to act on the present identity leased the lock registered for it, or until publication the replacing editor's, although every edit changes the identity |
| EditRuns.EntryStays | crates/tools/src/files.rs:222-228 | An identity's lock stays registered while somebody who may act on it leases it |
| EditRuns.SerialKept | crates/tools/src/files.rs:448-458 | Each successful edit is applied once to the content it read |
| EditRuns.EditsSerialise | crates/tools/src/files.rs:194-228 | In every run whose replacements bring safe identities: exclusive editing, the content as the composition of the successful edits in order, and an empty registry without leases |
| EditRuns.ExclusionIff | crates/tools/src/files.rs:424-458 | A replacement can be followed by two editors at once, all later identities being safe, if and only if an editor that has leased or locked and not yet revalidated holds a lease for the new identity under another lock |
| EditRuns.ReissueBreaksExclusion | crates/tools/src/files.rs:427-435 | A run from the start with an unsafe identity, in which two editors edit at once |
| Codec.ChunksAreText | crates/providers/src/fake.rs:209-220 | The chunks of a text concatenate to it |
| Codec.ChunksAreTight | crates/providers/src/fake.rs:209-220 | A chunk is within the size or one character, and was closed only because the next character did not fit |
| Codec.Chunks | crates/providers/src/fake.rs:209-220 | The loop computes these chunks |
| Codec.Utf8LenIs | crates/providers/src/fake.rs:209-220 | The length a chunk is charged for a character is that of its encoding |
| Codec.ResponseStream | crates/providers/src/fake.rs:222-336 | Streams every response without tool results and refuses the others: a missing model is the request's, missing usage a quarter of the bytes of its texts but at least one, and output tokens, stop reason and iterations come at the end only |
| AccumulatorObject.Accumulator.Push | crates/providers/src/accumulator.rs:44-197 | Consumes an event exactly when it may follow those before it, rejects any other unchanged, and keeps the state what the events so far say |
| AccumulatorObject.Accumulator.Finish | crates/providers/src/accumulator.rs:200-221 | The response of a stopped stream, its blocks in order of index |
| StreamHistory.EventsTell | crates/providers/src/accumulator.rs:44-197 | After any accepted events each usage counter is the last one given, where a start and a snapshot give all and a delta those that are not zero; header, stop reason and iterations are the last ones given; every block started holds the text of its own deltas in order, however blocks are interleaved, and its input read when it stopped |
| StreamHistory.AcceptedIff | crates/providers/src/accumulator.rs:44-197 | A sequence of events is accepted exactly when each may follow those before it: one start first, nothing after the stop, each block started once, deltas only for open blocks of their kind, and the stop only when every block has stopped |
| Accumulation.DeltasPushed | crates/providers/src/accumulator.rs:96-136 | Deltas append their text to an open block, however it was cut |
| Accumulation.BlockPushed | crates/providers/src/accumulator.rs:59-157 | The events of a block add that block, closed, and no invalid input |
| Accumulation.RoundTrip | crates/providers/src/fake.rs:222-336 | Streaming any response without tool results in chunks of any size and accumulating the events gives the response with defaults filled in and no invalid tool input |
| SseGrammar.LinesOfRender | crates/providers/src/anthropic/sse.rs:32-48 | Lines written with any of CR, LF and CRLF are read back |
| SseParser.Parser.Feed | crates/providers/src/anthropic/sse.rs:32-49 | Every way of chunking gives the events of the whole input, and an error exactly when a complete line is not text |
| SseParser.Parser.Line | crates/providers/src/anthropic/sse.rs:51-95 | One line changes the pending event, or dispatches it when blank, as the grammar says |
| SseParser.FeedAll | crates/providers/src/anthropic/sse.rs:32-95 | The events of any sequence of chunks are those of their concatenation |
| SseParser.FedFollows | crates/providers/src/anthropic/sse.rs:78-93 | Fields accumulate: last event name, joined data, last id without NUL, last valid retry |
| SseParser.BlankFollows | crates/providers/src/anthropic/sse.rs:60-75 | A blank line dispatches exactly when there is data, with the trailing line end removed and the name defaulted |
| SseWriter.FieldIff | crates/providers/src/anthropic/sse.rs:74-78 | Every line reads as exactly one field: a name alone, or a name, a colon, and the value after at most one space |
| SseWriter.RetryIff | crates/providers/src/anthropic/sse.rs:85-90 | A reconnection time is read exactly from decimal digits of a number that fits 64 bits, with any zeros before them |
| SseWriter.StreamIsReceived | crates/providers/src/anthropic/sse.rs:32-95 | Messages written as fields with any line ends are received, each once and in order: name or default, data lines joined, last identifier and last reconnection time |
| SseWriter.MarkedStreamIsReceived | crates/providers/src/anthropic/sse.rs:55-58 | A byte order mark before such a stream changes nothing |
| SseParser.EventSize.Feed | crates/mcp/src/http.rs:467-491 | Fails exactly when the bytes of some event, line ends not counted, exceed the limit, at whatever chunking |
| SseParser.BlankLinesIff | crates/mcp/src/http.rs:467-491 | The lines that are blank to the size check are those that are blank in this project's event grammar if and only if the first line is not a byte order mark alone |
| SseParser.MarkAloneDiffers | crates/mcp/src/http.rs:467-491 | An input whose first line is a byte order mark alone: the size check counts its three bytes towards the next event |
| Truncation.Truncate | crates/core/src/tool.rs:296-320 | Never exceeds the cap, keeps the most characters that fit with their own marker, and only the head when no count fits |
| Truncation.AroundKeeps | crates/core/src/tool.rs:308-316 | What is kept is a prefix and a suffix, as long as each other or the prefix one longer, and the marker states the number left out |
| Truncation.DigitsGrow | crates/core/src/tool.rs:301-307 | A larger number has at least as many digits |
| Truncation.DecimalReads | crates/core/src/tool.rs:302-302 | The digits of the marker read back as the number |
| Schema.Validate | crates/core/src/tool.rs:214-259 | On a checked schema decides satisfaction for every value and never fails for a fault of the schema; what passes any schema satisfies it |
| Schema.CheckedIff | crates/core/src/tool.rs:260-293 | A schema is accepted exactly when every part of it, itself and the schemas of its properties and items, is well formed by itself |
| Schema.SatisfiesIff | crates/core/src/tool.rs:214-259 | What a schema's own fields ask of a value, and what they leave to the schemas of its parts |
| Schema.ValidateProperties | crates/core/src/tool.rs:246-252 | Every property satisfies its schema or is allowed |
| Schema.ValidateRequired | crates/core/src/tool.rs:236-245 | Every required name is a string and present |
| Naming.NameTellsServer | crates/mcp/src/tool.rs:95-119 | Every tool name is within 64 allowed characters and its server can be read off it |
| Naming.ToolNameIs | crates/mcp/src/tool.rs:95-119 | A usable tool name that fits is kept; any other is cleaned, cut only as far as needed, and told apart by the hash of the whole name |
| Naming.ServerThenSeparator | crates/mcp/src/config.rs:195-211 | A valid server name ends at the first separator after the prefix |
| Naming.UnchangedNamesDiffer | crates/mcp/src/tool.rs:107-110 | Tool names that need no change stay distinct |
| Naming.NewListing | crates/mcp/src/server.rs:522-545 | Keeps exactly the tools whose name no other tool has, in order, and warns about exactly the names that two tools have |
| Naming.ListingDistinct | crates/mcp/src/server.rs:522-545 | A listing has no name twice |
| Naming.NewToolset | crates/core/src/tool.rs:117-130 | Freezes the tools by name, failing exactly when a name comes twice |
| Naming.SnapshotDistinct | crates/mcp/src/server.rs:769-777 | Unique built-ins and all servers' listings together have no name twice, however the hash collides |
| Naming.Snapshot | crates/mcp/src/server.rs:769-777 | The snapshot never fails and offers every built-in and, under its own name, every tool whose name no other tool of its server has |
| TraceTree.StartPass | crates/core/src/trace.rs:392-422 | Fails exactly for a second start of a node |
| TraceTree.StartsAreDescribed | crates/core/src/trace.rs:392-422 | With unique starts every started node is what its start record describes |
| TraceTree.CountPass | crates/core/src/trace.rs:423-449 | Counts turns and charges each attempt once |
| TraceTree.TurnsAreMessages | crates/core/src/trace.rs:423-430 | A node's turns are its assistant messages, each once |
| TraceTree.OneMoreCharge | crates/core/src/trace.rs:430-449 | One more record charges a node exactly when it is the first end of one of its attempts: what was measured, or the charge as input |
| TraceTree.EndPass | crates/core/src/trace.rs:450-458 | The last end of a node has the last word on status, turns and usage; a node without one stays as it is |
| TraceTree.ChainEnds | crates/core/src/trace.rs:481-490 | Following parents ends exactly when the node is not on a cycle or above one |
| TraceTree.CheckForest | crates/core/src/trace.rs:459-490 | Succeeds exactly when parents are present and ancestry is acyclic |
| TraceTree.Build | crates/core/src/trace.rs:466-479 | Takes a node and all below it out of the map, each once, and makes its tree |
| TraceTree.Reconstruct | crates/core/src/trace.rs:392-496 | Succeeds exactly when starts are unique, parents present and ancestry acyclic, and gives the forest of the nodes |
| TraceTree.EveryNodeOnce | crates/core/src/trace.rs:491-496 | Every started node is in the forest exactly once, and no other |
| TraceAgreement.OrderIsIrrelevant | crates/core/src/trace.rs:392-459 | Any permutation of a well-formed trace gives the same nodes, so the same forest |
| TraceAgreement.SubtreeIsSum | crates/core/src/trace.rs:472-477 | A tree's usage is the sum of its nodes' own usage |
| TraceAgreement.UsageAgrees | crates/core/src/trace.rs:467-496 | Own and subtree usage of a tree rebuilt from a complete trace are the ledger's |
| TraceCharges.OwnFromAttemptsIff | crates/core/src/trace.rs:423-449 | A node without an end record is rebuilt with the ledger's own usage if and only if every settlement of it that charged something has its attempt record |
| TraceOfRun.RebuiltUsageIsTheLedgers | crates/core/src/trace.rs:392-496 | For every run in which all nodes ended and every order of its records, the rebuilt usage is the ledger's |
| Retry.DelayIsBounded | crates/providers/src/retry.rs:44-65 | A delay is given exactly while retries are left for a retryable error and is never above the cap; a hint is followed up to the cap |
| Retry.DelayDoubles | crates/providers/src/retry.rs:60-64 | The whole delay starts at the base and doubles with every failure up to the cap; what is taken is its random part |
| Retry.Attempts | crates/core/src/runtime.rs:1058-1212 | Tries until the first try that no other follows: an answer, a refusal, a stop, an error that does not pass, no retries left, or one unhinted rate limit too many; an answer is given exactly when that try is one, after at most max_retries + 1 attempts |
| Retry.ResultIsUnique | crates/core/src/runtime.rs:1058-1212 | The tries decide what a request comes to |
| AgentLoop.Agent | crates/core/src/runtime.rs:559-824 | Runs the agent to its outcome and logs what every round came to. Every round but the last goes on, the last decides the status, each status exactly under its own condition, the answer and the turns; the history is the task and what the rounds added. At most 2 x max_turns model calls and 2 x max_turns x (max_retries + 1) attempts, one reminder, every tool use answered in the next message, and a contract completed only with an answer that meets it. A contract's schema was checked when its node was admitted (lines 1368-1378) |
| AgentLoop.RunIsUnique | crates/core/src/runtime.rs:559-824 | What the outside does decides everything: two runs from the same rounds have the same log and the same outcome |
| AgentLoop.IdleCompletes | crates/core/src/runtime.rs:756-779 | An agent without a contract that ends its turn with nothing to wait for, and is not stopped, completes with that turn's text |
| AgentLoop.Turn | crates/core/src/runtime.rs:603-822 | One turn: which messages it adds, what was said, whether the reminder is given, and whether it ends the run and how |
| AgentTools.RunTools | crates/core/src/runtime.rs:640-735 | A tool runs exactly when the response asked for tools, its input is usable, the node is not stopped, and no earlier tool committed an accepted answer; one result for every tool use in order, an error unless its tool went well, and the first accepted answer is final |
| AgentTools.UsesPlaces | crates/core/src/runtime.rs:640-640 | The tool uses of a message are its tool-use blocks, all of them, in order |
| AgentTools.TextsAre | crates/core/src/runtime.rs:881-905 | Delivered messages become text blocks, each its own, in order |
| AgentTools.Accept | crates/core/src/runtime.rs:830-850 | With a checked schema accepts exactly a JSON value that satisfies it and fits one message |
| AgentTools.Cleaned | crates/core/src/runtime.rs:625-631 | Invalid inputs become empty objects, everything else stays |
| AgentTools.PairedTurn | crates/core/src/runtime.rs:636-749 | An assistant message and its results keep every tool use answered |

## Left out

- Tasks, wakeups, timers and select are nondeterministic steps; cancellation and deadlines are flags that may turn true at
  any step.
- Token counts, sizes and ids are unbounded naturals; 64-bit overflow of token sums is not modelled.
- LedgerObject.NewLedger: of the configured limits only those the ledger reads are modelled and checked.
- The lifecycle and the message protocol are two models of the same shutdown, each with its own steps; that one refines
  the other is not proved. Where the message protocol ends a node it asks for its messages, records and children to be
  done, which is what the tasks that the lifecycle joins stand for.
- MessagingRuns.SettledExactlyOnce: a trace write is one step that succeeds; a failing sink, which fails the whole run, is
  not modelled.
- SseParser.EventSize.Feed: the event parser that reads the bytes behind the size check is an external crate and not part of
  this model; as in the source, a byte order mark counts as bytes of its line.
- AgentLoop.Agent: failures of the trace sink, which end the loop early with an error, are not modelled, nor is the text
  of tool results.
- MailboxObject.Mailbox.Take: an envelope carries its rendered size; rendering and names are not modelled.
- Redaction.MatchesAreExact: the Aho-Corasick automaton is the function that lists all occurrences in order of their ends.
- Redactor.RedactSpans: texts too long for 32-bit offsets, which the source matches raw only, are not modelled.
- StderrTail.Tail.Report: the bytes read are valid UTF-8; the lossy repair of other bytes and the trimming of blanks are
  not modelled.
- Redaction of JSON values, and reading secrets from the environment, are plumbing around the text redactor.
- EditRuns.EditsSerialise: the file is an identity and a content; paths, permissions, reading errors and writers outside
  the editor are not modelled.
- Accumulation.RoundTrip: writing and reading JSON are any pair of functions where reading gives back what was written.
- SseParser.Parser.Feed: after an error the parser is not used again, as in the source.
- Schema.Validate: which of several failing properties is reported first is left open.
- Naming.NameTellsServer: the hash is any function to eight hexadecimal digits.
- Retry.DelayIsBounded: durations are real numbers, without rounding.
- TraceOfRun.RebuiltUsageIsTheLedgers: start and end records are those the lifecycle model writes; reading a trace file is
  not modelled.
- HTTP, process handling, session files, provider request bodies, the terminal interface and the command line are input
  and output around these cores.
