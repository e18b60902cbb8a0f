# Peer chat delivery: a verified model

The repository bridges local agent sessions: a listener per session accepts messages over a Unix
socket, stores them in one SQLite inbox, and gets them to the model either through the session's
lifecycle hooks or, when the session is idle, by queueing one small wake notice. Allowances limit
what may be handed over without the owner, a hop list limits reply loops, and a machine-wide
watchdog restarts listeners that died.

This project models that engine and proves what it keeps. `dafny verify dfyconfig.toml` checks all
of it.

## How it is built

- `Common`, `Json`: whitespace, substring, UUID and JSON-string helpers.
- `Budget`, `Wake`, `Messages`, `Prompts`, `Texts`: the rules of `src/peer_budget.py`, the ranked wake
  lifecycle of `src/peer_wake.py`, the message table with its offer and search loops, and the texts
  the bridge itself puts before the model.
- `Bridge`: one bridge as a state machine. Each action is one transaction of the code (or one call
  out of it), taken by a dispatcher, any number of hooks, the command line, the socket side, a
  restarting listener or a new owner. `Next` is total: an action that cannot happen changes nothing,
  so every list of actions is a run and every interleaving and every crash point is covered.
- `Offers`, `Ticks`, `Transactions`: what each batch, tick and transaction answers, exactly.
- `Invariants`, `AtMostOnce`, `WakeRuns`, `WakeAccounts`, `WakeCounts`, `Wedge`, `EarlyClaims`,
  `Allowances`, `Drain`, `Truthful`: what holds of every step and of every run.
- `Inbox`: the store as an object whose methods overwrite its fields, each proved to be the
  transition of the state machine.
- `Framing`, `Envelope`, `Markers`, `Frames`, `Decoding`, `Sending`, `ReplyChains`: byte stream,
  envelope, frames and hop lists.
- `Watch`, `Resets`, `Hours`: the watchdog's recovery, when it forgets, and what any hour sees of it.
- `Lifecycle`, `Endings`: the bounded log scan, the race of reconciling against hooks, and what comes of
  each ending. `Delivery`, `Advisories`: advisories.

## What the code does that a reader may not expect

Where the code and its own descriptions differ the model follows the code.

- `src/peer_watch.py:8-9` speaks of a rolling window. The window is fixed: `Hours.SevenInSixMinutes`
  gives a run of a fresh bridge with seven attempts in six minutes. `Hours.MoreThanSixExactly` says
  from the stored record and the clock alone when the coming hour can see more than six: some
  attempts must still fit into the stored window, each after its backoff, and enough of the next
  must follow after its end before the hour is over. It never can with six on record, with no window
  stored or with the stored one over (`Hours.NoRoomLeft`), and it never sees more than twelve.
- `src/peer_chat.py:653` says idle wakes require observed lifecycle hooks. The dispatcher does not
  check that: `Truthful.WhenAWakeIsAllowed` says exactly when a wake may be claimed, and
  `EarlyClaims.ClaimsWhileAwaiting` is a run from a new bridge in which it claims while the state
  still reads `awaiting_lifecycle_hook`.
- `src/peer_wake.py:11-14` says an active hook decision clears the marker. It does so exactly when
  the marked message was not decided before (`Wake.WhenAHookClears`). A message whose wake was
  decided by a hook that then died before offering it is claimed again, and that marker stays until
  the message is acknowledged or the owner changes (`Wedge.AWedgeIsReachable`,
  `WakeAccounts.WedgedUntilAcknowledged`).
- `src/peer_wake.py:139-141` says that deleting the marker is final. The `writing` record can put it
  back if the acknowledgement came between the claim and that record
  (`EarlyClaims.AnAcknowledgedMarkerReturns`, exactly when in
  `EarlyClaims.WhenAnAcknowledgedMarkerReturns`); a completion cannot (`Wake.WhenAMarkerReappears`).
- A hook that dies between its two writes can leave phase `interrupted` beside the record of another
  turn, with no hook alive (`Lifecycle.TornIsReachable`); the next hook that completes mends it
  (`Lifecycle.WhatADeadHookLeaves`).
- `src/peer_watch.py:36` says a restarted listener must live for thirty seconds before failures reset.
  That holds from the last recovery on record (`Resets.WhenAttemptsAreForgotten`,
  `Resets.SuccessIsTrusted`); an attempt whose success nobody recorded leaves none, and a listener it
  started resets the count at once (`Resets.UnseenSuccessIsForgottenAtOnce`).
- The branch of `_recover` and `_keep_endpoint` that stores a pause is never reached in a run that
  began with a fresh record: the pause is stored with the sixth attempt
  (`Watch.PauseIsStoredWithTheSixth`).

## Model

| member | source | states |
|---|---|---|
| Budget.ParseBudget | src/peer_budget.py:9-15 | A budget is unlimited exactly for the word `unlimited`, an error exactly for any other text that is no integer, and otherwise the window in 0..50 nearest to the integer. |
| Common.SpacesAre | src/peer_chat.py:138 | Stripping removes exactly the 29 characters Python takes for white space. |
| Common.UuidShape | src/peer_chat.py:93-97 | A valid id is 32 hexadecimal digits in groups of 8, 4, 4, 4 and 12 with hyphens between, in either case (section 4 of RFC 9562). |
| Prompts.ReadingOfNotice | src/peer_wake.py:193-196 | A submitted prompt counts as the notice of a message exactly when its stripped text is that notice, for every prompt and id; no prompt is the notice of two messages. |
| Prompts.OwnTextIsNotTheOwner | src/peer_budget.py:38-55 | Every text the bridge itself produces (wake notice, forwarded message, short reference, advisory), whatever surrounds it and whatever a peer wrote inside it, is never read as the owner's prompt. |
| Prompts.ReferenceFits | src/peer_hooks.py:92-96 | The short reference to an over-long message fits into a hook's context. |
| Texts.OwnerExactly | src/peer_budget.py:38-55 | A prompt counts as the owner's exactly if it is not blank and carries none of the six markers. |
| Texts.MessagesAreQuoted | src/peer_chat.py:335-344 | A forwarded message is one JSON string that reads back as exactly the body, whatever it contains, behind a head naming peer, class and id. |
| Texts.NoticesTellTheirMessage | src/peer_wake.py:50-57 | No two ids share a wake notice or a short reference. |
| Texts.ShownInFullIfShort | src/peer_hooks.py:91-99 | An offered message is shown in full exactly if that is at most 18000 characters, and by its reference otherwise. |
| Wake.WakeKeys.Bump | src/peer_wake.py:90-94 | Exactly the counter of the new state grows, and none for `writing` and `queued`. |
| Wake.WakeKeys.Record | src/peer_wake.py:97-136 | One transition on the three stored keys: refused when it would regress or change a decided outcome (then it may only fill in an unknown queue id); otherwise record, marker and counter as the ranked rule says. |
| Wake.WakeKeys.RecordWake | src/peer_wake.py:153-174 | The producer's records: ignored for an invalid id or state, for a completion of an older wake, and turned into `cancelled` when the marker was cleared meanwhile. |
| Wake.WakeKeys.ActiveHook | src/peer_wake.py:177-202 | A hook decides the marked wake, and only that one. |
| Wake.RecordedKeeps | src/peer_wake.py:97-136 | One transition never lowers a rank, changes a decided outcome or a known queue id, or turns time back; the marker still copies the record; one outcome is counted exactly when a wake becomes decided. |
| Wake.WhenAMarkerReappears | src/peer_wake.py:163-174 | Exactly when a producer's record makes an absent marker present: a completion only on a store without any record, the `writing` record unless that id is already past `writing`. |
| Wake.WhenAHookClears | src/peer_wake.py:104-110 | An active hook clears the marker if and only if the newest record did not already decide the marked id; otherwise it leaves the marker as it is. |
| Wake.OnlyTheNoticeActivates | src/peer_wake.py:193-202 | Activated if and only if the submitted prompt is exactly the notice of the marked message; raced only from `writing`, cancelled only after it; always decided. |
| Wake.WhatAHookCounts | src/peer_wake.py:90-136 | Over one hook each counter moves in its own case and in no other: `activated` for the notice of the undecided marked message, `raced` when other activity meets an undecided `writing` marker, `cancelled` when it meets an undecided later one; `failed` and `uncertain` never. |
| Wake.WhatAProducerCounts | src/peer_wake.py:153-174 | Over one producer record: `cancelled` exactly for a completion whose marker was taken away, `failed` and `uncertain` exactly for a first completion that says so, `activated` and `raced` never, and nothing for `writing` and `queued`. |
| Wake.AHookSigns | src/peer_wake.py:111-128 | A deciding hook clears the marker and leaves its event and turn on record. |
| Wake.CompletionsKnowTheirWake | src/peer_wake.py:104-110 | A completion for an older wake changes nothing of a newer one; one for the newest fills in its queue id exactly if none was known, decided or not. |
| Messages.ReceivedUntouched | src/peer_chat.py:255-256 | Moving rows none of which is received leaves the received list as it was. |
| Messages.HeadLeaves | src/peer_chat.py:255-256 | Moving the oldest received row drops exactly the head of the received list. |
| Offers.OfferingTable | src/peer_hooks.py:84-101 | The offer loop settles exactly a prefix of what it was given (offered if deliverable, held if not) and touches nothing else. |
| Offers.OfferingHands | src/peer_hooks.py:99-101 | What it hands over are the deliverable messages of that prefix, in order, each in full or as a reference. |
| Offers.OfferingPays | src/peer_hooks.py:85-102 | A finite allowance drops by exactly the number offered; held messages are free; total piece length stays within 18000 or the notice's own length. |
| Offers.OfferingStops | src/peer_hooks.py:84-98 | The loop stops only at the end of its rows, at an empty allowance, or at a deliverable message that no longer fits. |
| Offers.BatchExact | src/peer_hooks.py:78-102 | One hook batch exactly: at most four, oldest first, a prefix of the received list; table, keys, pieces, allowance and reason for stopping. |
| Texts.FourAtATime | src/peer_hooks.py:83-84 | With room for them a hook gets to exactly the four oldest received messages, or to all of fewer. |
| Offers.ScannedExact | src/peer_chat.py:417-429 | The search for a message worth a wake holds exactly the undeliverable ones ahead of the first deliverable one and finds that one. |
| Invariants.RowsGrow | src/peer_chat.py:232-262 | Every action keeps every stored row, changes nothing of it but its status, and moves the status only up; only an arrival adds a row, at the end. |
| Invariants.NoOvertaking | src/peer_hooks.py:83-101 | What leaves `received` in a hook's offer or a wake search is a prefix of the received list in arrival order. |
| AtMostOnce.StatusOnlyClimbs | src/peer_chat.py:258-262 | In every run statuses only climb received, forwarding, outcome, consumed, under duplicate frames, restarts, mode changes and late dispatcher writes; consumed is final. |
| AtMostOnce.HandedAtMostOnce | src/peer_chat.py:384-402 | In every run each (peer, id) is handed to the model at most once, by a hook or by the queue, and never if it had already left `received`. |
| AtMostOnce.WrittenAtMostOnce | src/peer_chat.py:349-365 | In every run with listener crashes anywhere each outgoing row is written to a socket at most once. |
| WakeRuns.RankNeverFalls | src/peer_wake.py:8-18 | Over any stretch of any run in which the record names one id: rank, decided outcome, time and known queue id are monotone. |
| WakeRuns.CompletionsNeverRecreate | src/peer_wake.py:168-173 | In every run a completion of the dispatcher never makes an absent marker present. |
| WakeRuns.MarkersAgree | src/peer_wake.py:129-135 | In every reachable state a marker past `writing` equals the newest record in id and state. |
| Ticks.OldestIsSent | src/peer_chat.py:349-365 | Whatever mode and phase: three undisturbed dispatcher steps write the oldest pending row to the socket once, record it as written exactly if that succeeded and as uncertain otherwise, and touch nothing else. |
| Ticks.WhenATickIsIdle | src/peer_chat.py:366-376 | With nothing to send a tick changes nothing exactly when the session is interrupted, the mode is inbox or live, or in queue mode allowance or received list are empty. |
| Ticks.OldestIsDecided | src/peer_chat.py:373-391 | In queue mode two undisturbed steps decide the oldest received message and touch no other: claimed and paid for exactly if its peer is enrolled and it carries fewer than eight hops, held for nothing otherwise. |
| Ticks.ForwardIsStored | src/peer_chat.py:392-402 | Two further steps give it to the queue command and store how that ended, unless it was acknowledged first: then it stays consumed. |
| Ticks.WakeIsStored | src/peer_chat.py:434-444 | A wake nobody interfered with: one notice to the queue command, and record and marker say how that ended and under which queue id. |
| Ticks.OnlyDeliverableIsHanded | src/peer_hooks.py:83-101 | In every run whatever is handed to the model was, when chosen, received, of a peer enrolled then and with fewer than eight hops: at that step in live or automatic mode by a hook, at an earlier one in queue mode and not interrupted by the queue. |
| WakeAccounts.MarkerStays | src/peer_chat.py:414-416 | A stored marker survives every single action except a hook's decision on it, an acknowledgement consuming its message, an owner change or a restore; meanwhile nothing claims a wake. |
| WakeAccounts.OneWakeOutstanding | src/peer_chat.py:412-433 | Between any two wake claims of any run there is such a release of the first one's marker, with unlimited allowances and dispatcher crashes anywhere. |
| WakeAccounts.ClaimBetweenNotices | src/peer_chat.py:433-444 | Between any two steps of a run that give the queue command a wake notice there is a claim. |
| WakeAccounts.NoticesAreClaimed | src/peer_chat.py:412-444 | In every run, wherever the dispatcher crashes, the queue command is given at most as many wake notices as wakes were claimed. |
| WakeAccounts.DecidedAtMostClaimed | src/peer_wake.py:90-136 | In every run activated, raced and cancelled wakes together never outnumber the claims. |
| WakeAccounts.FreshIsAccounted | src/peer_wake.py:79-87 | A store without a wake starts with that account in balance. |
| WakeCounts.CountersCount | src/peer_wake.py:90-136 | In every run each of the five counters has grown by exactly the number of steps of its own kind. |
| WakeAccounts.WedgedUntilAcknowledged | src/peer_wake.py:104-110 | A marker on an already decided message survives every hook and every record and stops all claims until that message is acknowledged or the owner changes. |
| Wedge.WhenAClaimWedges | src/peer_chat.py:412-432 | A claim produces such a marker if and only if the newest record already decided the claimed message. |
| Wedge.AWedgeIsReachable | src/peer_hooks.py:67-78 | From every world in automatic mode with a wake allowed and one more left after it, nothing to send and an undecided deliverable message, a run reaches it: wake, a hook at a tool boundary that dies between decision and offer, end of turn, next claim. |
| EarlyClaims.WhenAnAcknowledgedMarkerReturns | src/peer_chat.py:430-433 | Claim, acknowledgement of that message, `writing` record: the marker is back on the consumed message if and only if the newest record is not already about that message and past `writing`. |
| EarlyClaims.AnAcknowledgedMarkerReturns | src/peer_wake.py:139-141 | It does come back in a run from a new bridge, for every message, budget and clock. |
| EarlyClaims.ClaimsWhileAwaiting | src/peer_hooks.py:51-69 | From a new bridge whose only hook was an unmatched startup the dispatcher claims a wake while the state reads `awaiting_lifecycle_hook`. |
| Allowances.ClaimsAreSpent | src/peer_chat.py:414-432 | While the wake window is finite, wakes claimed equal exactly what was spent of it, net of renewals and reconfigurations. |
| Allowances.DebitsAreSpent | src/peer_hooks.py:101-102 | The same equation for the message window and its debits. |
| Allowances.OwnTextIsQuiet | src/peer_budget.py:49-55 | A hook whose prompt is any text of the bridge's own, with anything around it, renews nothing. |
| Allowances.DispatchPays | src/peer_chat.py:384-391 | Each dispatcher step debits exactly what it claims and grants nothing. |
| Allowances.MeshIsBounded | src/peer_budget.py:48-65 | Over every run of a mesh with finite windows, no owner prompt and no reconfiguration, everything handed over is covered by the initial message windows and every wake by the initial wake windows. |
| Drain.ClaimChosen | src/peer_chat.py:417-432 | The claim of a bridge that may wake takes the first deliverable received message, holds exactly those ahead of it and spends one wake. |
| Drain.OfferTakesTheHead | src/peer_hooks.py:83-102 | An unlimited offer always takes a non-empty prefix of a non-empty received list. |
| Drain.CycleDrains | src/peer_chat.py:405-444 | One cycle of wake, notice prompt and stop leaves the bridge ready for the next and takes a non-empty prefix off the received list, whatever the queue command answered. |
| Drain.InboxDrains | src/peer_hooks.py:67-102 | Without new arrivals N received messages are all gone from `received` after N cycles, each with its own clock, enrollment, queue answer and turn. |
| Truthful.ClaimExactly | src/peer_chat.py:414-432 | A claim succeeds if and only if a wake is allowed and some received message is deliverable, and then for the oldest such. |
| Truthful.IdleWakeEnabledWakes | src/peer_budget.py:100-102 | `idle_wake_enabled` with a deliverable message, no marker and nothing to send: the dispatcher's next two steps claim that message. |
| Truthful.PausedNeverWakes | src/peer_budget.py:85-101 | In each paused state no action claims a wake, even if the dispatcher had already decided to try. |
| Truthful.WhenAWakeIsAllowed | src/peer_budget.py:95-102 | In automatic mode without a marker: exactly which reported states allow a claim. |
| Truthful.ActiveHooksOffer | src/peer_budget.py:102 | `active_hooks` means the next hook's offer is open and takes at least one message off a non-empty received list. |
| Inbox.InboxStore.constructor | src/peer_chat.py:746-752 | A new bridge has an empty inbox, no wake, the asked mode, and unlimited windows unless a budget was given. |
| Inbox.InboxStore.Accept | src/peer_chat.py:232-236 | A message is stored at the end as received exactly when its (peer, id) is new; a duplicate changes nothing. |
| Inbox.InboxStore.AcceptReceipt | src/peer_chat.py:222-231 | A receipt is stored unless it repeats the stored one, and then answers exactly the outgoing rows of that id bound to that peer (or unbound legacy ones). |
| Inbox.InboxStore.ClearConsumedWake | src/peer_chat.py:250-253 | The marker goes exactly when its message is consumed. |
| Inbox.InboxStore.AcknowledgeAll | src/peer_chat.py:238-248 | Received, queued and offered messages (of one peer or all) become consumed, then the marker rule. |
| Inbox.InboxStore.AcknowledgeOne | src/peer_chat.py:1058-1066 | One selected message becomes consumed, then the marker rule. |
| Inbox.InboxStore.Configure | src/peer_budget.py:105-115 | The mode, and with a budget all three window fields, in one transaction. |
| Inbox.InboxStore.RenewForOwnerPrompt | src/peer_budget.py:48-65 | Both windows return to the configured limit exactly for a new owner turn with a finite limit of at most 50. |
| Inbox.InboxStore.OfferBatch | src/peer_hooks.py:77-102 | The loop over the four oldest received rows is the state machine's offer, in table, allowance, text and keys. |
| Inbox.InboxStore.Deliver | src/peer_hooks.py:46-106 | A matched hook is evidence, renewal, phase, wake decision and offer, in that order; start and stop hooks end before the offer. |
| Inbox.InboxStore.ClaimWake | src/peer_chat.py:412-432 | The claim transaction: guards, search loop with holds, marker and debit. |
| Inbox.InboxStore.WakeIdle | src/peer_chat.py:405-444 | Claim, `writing` record, queue command, and the record of how it ended. |
| Inbox.InboxStore.ClaimForward | src/peer_chat.py:384-391 | Claim and debit of one message in queue mode, together or not at all. |
| Inbox.InboxStore.StartListener | src/peer_chat.py:491-493 | A starting listener turns forwards and socket writes under way into uncertain ones and touches no other row. |
| Inbox.HookRunIsARun | src/peer_hooks.py:46-102 | An uninterrupted hook is five actions of the state machine. |
| Inbox.WakeIdleIsARun | src/peer_chat.py:405-444 | An uninterrupted wake is four dispatcher actions of the state machine. |
| Inbox.RealReferencesAreShort | src/peer_hooks.py:91-98 | With the code's own texts no message can block the inbox by its size. |
| Inbox.HooksPrintTheRow | src/peer_hooks.py:91-96 | What a hook prints for a row is that row's body, quoted, behind its peer's enrolled name, its class and its id, or the reference to its id. |
| Transactions.NewBridgesWait | src/peer_chat.py:746-752 | A new bridge is empty, has mode and windows as asked or unlimited ones, and claims no wake and reports no session before a phase is written. |
| Transactions.ArrivalsExactly | src/peer_chat.py:232-236 | A message is stored, as received and at the end, exactly if its id is valid and its peer and id are new; nothing else changes. |
| Transactions.ReceiptsExactly | src/peer_chat.py:222-231 | A receipt answers exactly the outgoing rows of its id bound to its peer, or to none when the peer is the original one; repeating it changes nothing. |
| Transactions.SendsExactly | src/peer_chat.py:1115-1116 | A message to send is stored at the end, pending and bound to its peer, exactly if its id is new. |
| Transactions.AcknowledgedExactly | src/peer_chat.py:240-243 | Acknowledging everything consumes exactly the received, queued and offered messages of the peers meant. |
| Transactions.OneAcknowledgedExactly | src/peer_chat.py:1058-1066 | Acknowledging one message consumes exactly that one. |
| Transactions.RenewalsExactly | src/peer_budget.py:48-65 | A prompt sets both windows to the declared one exactly if the owner typed it in a named turn that has not just renewed and a finite window is declared; otherwise it changes nothing. |
| Transactions.OneRenewalPerTurn | src/peer_budget.py:61-63 | In every run two renewals for one turn have one for another turn between them. |
| Transactions.WindowsAreAsDeclared | src/peer_budget.py:105-115 | A declared window holds at once for messages and wakes and again after the owner's next turn; an unlimited one is never renewed; changing the mode alone changes no window. |
| Transactions.NewOwnersStartAfresh | src/peer_chat.py:730-735 | Another owner takes the marker away, and phase and hook evidence unless a hook of its own came first; then no wake is claimed before a phase is written. |
| Transactions.RestartsExactly | src/peer_chat.py:491-493 | A starting listener makes exactly the forwards and writes under way uncertain. |
| Transactions.ReconcilesExactly | src/peer_lifecycle.py:107-117 | A reconciled ending changes only an active or idle session, interrupts it exactly if the turn was aborted, and an interrupted one is reported so and does nothing. |
| Transactions.HooksOfferInTwoModes | src/peer_hooks.py:80-81 | In inbox and queue mode a hook offers nothing and returns only the stored notices. |
| Transactions.StatesExactly | src/peer_budget.py:85-102 | Each of the nine reported states has its exact condition on mode, phase, windows and evidence. |
| Transactions.ManualMeansManual | src/peer_budget.py:87-88 | `manual_inbox`: neither a hook nor a tick with nothing to send does anything. |
| Transactions.QueueStateQueues | src/peer_budget.py:93-94 | `after_turn_queue` is reported exactly when a tick with nothing to send chooses among the received messages. |
| Transactions.LiveOnlyWaits | src/peer_budget.py:102 | `idle_live_only` is reported exactly in live mode, idle, with evidence and an allowance; then no tick does anything. |
| Framing.LineBuffer.Feed | src/peer_chat.py:84-90 | One feed: the non-empty complete lines and the kept rest, or the error with the bytes kept, exactly when some part is over the limit. |
| Framing.LineBuffer.Receive | src/peer_chat.py:587-605 | The reads of one connection in order, until one fails. |
| Framing.CutsPrintBack | src/peer_chat.py:86 | Splitting loses and invents nothing: the parts are newline-free and print back to the stream. |
| Framing.PrintedCutsBack | src/peer_chat.py:86-89 | And they are the only newline-free parts that do. |
| Framing.ChunkingDoesNotMatter | src/peer_chat.py:84-90 | Any split of a byte stream into reads yields the non-empty complete lines of the whole with the same rest; some read fails if and only if some line of the whole, finished or not, is too long. |
| Framing.FramesComeBack | src/peer_chat.py:318-320 | Printed lines within the limit come back in order from any chunking of the stream. |
| Json.StringComesBack | src/peer_chat.py:318 | A string printed as JSON is read back exactly, wherever it stands. |
| Json.EscapeHasNoBreak | src/peer_chat.py:318 | A string printed as JSON contains no raw newline, whatever it holds. |
| Json.Utf8HasNoBreak | src/peer_chat.py:318 | Nor do its UTF-8 bytes. |
| Json.Utf8ComesBack | src/peer_chat.py:318 | UTF-8 bytes are decoded back to exactly the text. |
| Envelope.PairsComeBack | src/peer_chat.py:132-133 | Finding the pairs of printed attributes returns the pairs. |
| Envelope.AcceptedIffPrinted | src/peer_chat.py:132-134 | An attribute string is accepted if and only if it is the printing of well-formed pairs with distinct keys, and then those are the pairs found. |
| Envelope.HopsComeBack | src/peer_chat.py:144-146 | Joining 24-digit hops by commas and splitting again is the identity. |
| Envelope.EnvelopeComesBack | src/peer_chat.py:316 | A printed envelope parses to its attributes and body, whatever the body. |
| Envelope.ParsedIsPrinted | src/peer_chat.py:128-131 | Whatever parses as an envelope is the printing of what was parsed. |
| Envelope.StrippedHasNoMarker | src/peer_chat.py:39-40 | Right-trimming a body without an envelope marker cannot create one, so what passes the sender's test passes the receiver's. |
| Markers.MarkedExactly | src/peer_chat.py:39-40 | A body is refused exactly if it splits into an opening bracket, spaces, slashes, spaces, the tag name in any case and no word character behind it, with anything around. |
| Markers.EnvelopesDoNotNest | src/peer_chat.py:138-139 | A body containing any printed envelope is refused. |
| Frames.MessageComesBack | src/peer_chat.py:276-325 | Every message `outbound` agrees to send decodes at the other side to exactly its id, right-trimmed body, permission class and extended hop list; an advisory decodes to nothing. |
| Frames.AcceptedMessagesArePrinted | src/peer_chat.py:128-148 | Every accepted message is the printing of well-formed attributes with distinct keys, among them the sender's own address, and of the body returned. |
| Decoding.TakenExactly | src/peer_chat.py:128-148 | A content is taken for a message with this body, class and hops if and only if it is the printing of well-formed distinct attributes that give the sender's own address, a known class and at most 32 hops, and of a body neither blank nor marked nor an advisory. |
| Decoding.MessagesExactly | src/peer_chat.py:100-127 | A line is taken for a message if and only if it fits, parses, is a user frame of the verified sender under a valid id, and its content is taken. |
| Decoding.NoticesExactly | src/peer_chat.py:108-113 | A line is taken for an advisory if and only if it is such a control frame of the verified sender with a state of at most 80 and a warning of at most 1000 characters and a known kind of remaining window. |
| Decoding.ReceiptsExactly | src/peer_chat.py:114-119 | A line is taken for a receipt if and only if it is such a control frame of the verified sender for a valid id and one of the six statuses. |
| Frames.FrameComesBack | src/peer_chat.py:317-318 | Id, envelope and address can be read off the printed frame whatever they contain: no two frames print alike. |
| Frames.BytesComeBack | src/peer_chat.py:318 | The frame can be read off its bytes. |
| Frames.PrintHasNoBreak | src/peer_chat.py:318 | A printed frame is one non-empty line. |
| Frames.SentFramesComeBack | src/peer_chat.py:318-325 | Any chunking of any stream of sent frames returns them in order. |
| Sending.SentExactly | src/peer_chat.py:276-320 | A message is sent if and only if its body is not blank and not marked, an advisory opens as one, the hop list leaves room and the printed frame is at most 65536 bytes. |
| Sending.NamesExactly | src/peer_chat.py:297-302 | The sender's name: the bridge for an advisory, else Codex with at most 48 characters of the model on record, unsafe ones replaced. |
| Sending.OrdinaryFits | src/peer_chat.py:318-320 | Every frame with address and body of at most five hundred characters fits, whatever they contain and whatever the hop list. |
| ReplyChains.ChainsCountHops | src/peer_chat.py:305-310 | In every run of a Codex mesh the n-th message of a reply chain carries exactly n hops through inherit, append, print and parse, and no message beyond the 32nd is sent. |
| ReplyChains.OnlySevenAreAutomatic | src/peer_hooks.py:87-90 | Only the first seven messages of a chain can be offered or can wake anybody. |
| ReplyChains.ChainsEnd | src/peer_chat.py:309-310 | The 33rd message of a chain is refused by its sender. |
| Sending.RepliesAreSent | src/peer_chat.py:305-320 | Answering the stored n-th message of a chain, n at most 31, in a frame that fits sends the (n+1)-th, and the receiver stores it with n+1 hops, the sender's own last. |
| Sending.ChainsReachTheirEnd | src/peer_chat.py:305-310 | Two bridges answering each other reach exactly the 32nd message: all are sent in order, the last is stored with 32 hops, and its answer is not sent. |
| Watch.Watchdog.Recover | src/peer_watch.py:253-283 | One recovery attempt: the count and the next time are stored before anything is spawned, and survive a crash there. |
| Watch.Watchdog.KeepEndpoint | src/peer_watch.py:286-303 | The same for keeping an endpoint without an owner. |
| Watch.Watchdog.Tick | src/peer_watch.py:335-400 | The loop over all supervised bridges: signal, reset, wait or attempt, until the watchdog dies. |
| Watch.BridgesAreIndependent | src/peer_watch.py:345-400 | A tick is one pass over each bridge's own record; other bridges play no part, and a bridge is left out only if the watchdog dies first. |
| Watch.AttemptsAreBounded | src/peer_watch.py:246-250 | From a fresh bridge attempts never exceed six for each stored window and each stable reset, wherever the watchdog crashes. |
| Watch.AttemptsPerHour | src/peer_watch.py:167-171 | Without a stable reset at most 6·(⌊D/3600⌋+1) attempts in D seconds. |
| Watch.AttemptsAreSpaced | src/peer_watch.py:163-164 | After the k-th attempt of a window none follows before min(300, 10·2^(k-1)) seconds, also across windows, and after the sixth none before the window ends, whether attempts succeed, fail or crash. |
| Resets.BackoffIs | src/peer_watch.py:163-164 | The waits are 10, 20, 40, 80, 160 and from the sixth on 300 seconds. |
| Resets.WhenAnAttemptIsMade | src/peer_watch.py:379-395 | In every reachable record a pass makes an attempt if and only if the listener is gone, no wait runs, fewer than six are on record for the open window and whoever it is for is still alive; and what it then stores. |
| Resets.WhenAttemptsAreForgotten | src/peer_watch.py:371-377 | A pass forgets the attempts of an open window if and only if a listener serves whose last recovery is at least thirty seconds back and that was not done before; then it forgets all of them, wait and pause. |
| Resets.OnlyThenOrInANewWindow | src/peer_watch.py:167-171 | The count falls in no other case without a new window. |
| Resets.WhenAListenerIsSignalled | src/peer_watch.py:364-370 | A listener that a replacement of its dead owner wants gone is only asked to exit. |
| Resets.SuccessIsTrusted | src/peer_watch.py:276-278 | With any resets: after a successful attempt none is made before the earlier of the time it demands and thirty seconds. |
| Resets.UnseenSuccessIsForgottenAtOnce | src/peer_watch.py:36 | After an attempt not seen to succeed, a pass that finds its listener alive forgets all attempts at once if and only if no earlier recovery is less than thirty seconds back. |
| Hours.AttemptsBalance | src/peer_watch.py:167-171 | Without a stable reset the attempts made equal those now on record plus those forgotten by rolled windows less those on record before. |
| Hours.AttemptsInAnyHour | src/peer_watch.py:163-171 | In any stretch of less than an hour without a stable reset: at most twelve attempts, and no more than the record still allows if no window rolls in it, in particular if it ends before the stored window does. |
| Hours.MoreThanSixExactly | src/peer_watch.py:8-10 | The promise of six in a rolling hour, exactly: a run of the coming hour with more than six attempts and no stable reset exists if and only if window start, attempts and next time on record and the clock leave room for it. |
| Hours.NoRoomLeft | src/peer_watch.py:246-250 | They leave none with six on record, with no window stored, or with the stored one over. |
| Hours.SevenInSixMinutes | src/peer_watch.py:8-10 | A run of a fresh bridge with seven attempts in six minutes: the window does not roll. |
| Watch.PauseIsStoredWithTheSixth | src/peer_watch.py:255-257 | No pass over a reachable record stores the late pause. |
| Lifecycle.ScanLines | src/peer_lifecycle.py:68-83 | The loop over lines yields the fold of the records, or nothing if some line is no record. |
| Lifecycle.LatestIsTheEnd | src/peer_lifecycle.py:76-83 | The fold yields a record if and only if the log ends with it but for token counts. |
| Lifecycle.TailHoldsLastLines | src/peer_lifecycle.py:59-67 | The bounded tail without its first partial line holds exactly the last lines of the log. |
| Lifecycle.TailScanIsFullScan | src/peer_lifecycle.py:59-83 | For any finished log of records and any tail size: what the tail yields the whole log yields, followed by token counts only; and the tail, which is the log without its first n lines, yields it exactly when its line is not one of those. |
| Lifecycle.PhaseKeeper.Observe | src/peer_lifecycle.py:98-109 | The first half of reconcile reads phase, hook record and evidence, and proposes a change only if there is one. |
| Lifecycle.PhaseKeeper.Commit | src/peer_lifecycle.py:110-118 | The second half re-checks everything observed and overwrites phase and evidence together, or changes nothing. |
| Lifecycle.InterruptionsAreJustified | src/peer_lifecycle.py:98-118 | In every interleaving of two-write hooks, hooks that die between their writes, reconciles, owner changes, seeds and stops, with records in any order of their times: with no hook between its writes and none dead there since the last phase write, phase `interrupted` is backed by an aborted end of exactly the last hook's turn and time. |
| Endings.InterruptedByAnAbort | src/peer_lifecycle.py:84-118 | In every run from a new store, with no hook between its writes and none dead there: an interruption means that a look and a later commit of that run both found, verified, a `turn_aborted` of exactly the last hook's turn, between the hook's time and theirs. |
| Endings.EndingsDecideThePhase | src/peer_lifecycle.py:84-118 | With nothing changed in between, a verified `task_complete` of that turn and time makes the session idle and a `turn_aborted` interrupts it. |
| Endings.OtherEndingsChangeNothing | src/peer_lifecycle.py:84-94 | A record of another turn or time, or an unverified one, changes nothing; neither does one for a stopped bridge, another owner or a hook that began no turn. |
| Endings.SeedsExactly | src/peer_registry.py:612-626 | Seeded evidence is stored exactly if it is of the current owner and newer than what that owner has on record. |
| Endings.OwnersExactly | src/peer_chat.py:730-735 | Another owner keeps phase and hook only if the hook on record is its own. |
| Lifecycle.WhatADeadHookLeaves | src/peer_hooks.py:46-69 | A hook that dies there leaves an interruption justified exactly if it was of the same turn and time, and the next hook that completes mends whatever it left. |
| Lifecycle.TornIsReachable | src/peer_hooks.py:46-69 | From a new store a run reaches an unjustified interruption with no hook alive. |
| Lifecycle.OvertakenCommitsFail | src/peer_lifecycle.py:112-115 | Whatever happens between observation and commit, if a hook's record lands there and the observed record is not written again, the commit changes nothing. |
| Lifecycle.UndisturbedCommitsPass | src/peer_lifecycle.py:110-118 | With nothing changed since the observation the commit stores phase and evidence. |
| Delivery.MarkKeysDiffer | src/peer_delivery.py:98 | The stored mark of an advisory tells peer and message apart whatever characters they contain. |
| Delivery.Notifier.Notify | src/peer_delivery.py:79-126 | The loop over peers: marks first, one by one, then the advisory; a crash leaves the marks. |
| Delivery.NamedAtMostOnce | src/peer_delivery.py:60-66 | Over any sequence of passes, table changes, state flaps and crashes each (peer, message) is named in at most one advisory. |
| Delivery.NothingIsNamedAgain | src/peer_delivery.py:85-104 | The (up to twenty) messages a peer's turn finds unseen are named in its advisory unless the process dies there, and after the rest of that pass and any further passes none of them is ever found unseen or eligible again. |
| Advisories.NamedExactly | src/peer_delivery.py:79-92 | Within the limits of a thousand rows and twenty ids a turn finds to name exactly the unmarked messages of that peer that are held, or received while the session cannot be reached and, if only a first hook is awaited, at least twenty seconds old. |
| Advisories.OldestAreNamed | src/peer_delivery.py:81-90 | Beyond those limits it names the first twenty among the first thousand rows. |
| Delivery.ShownAtMostOnce | src/peer_delivery.py:40-57 | Every advisory received from a peer is shown to the model at most once. |
| Advisories.BoxHoldsTheNewest | src/peer_delivery.py:40-46 | The box holds for each peer exactly the newest advisory that came since it was last taken. |
| Advisories.TakingShowsTheBox | src/peer_delivery.py:49-57 | Taking it shows the model exactly what it holds and empties it. |

## Left out

- Sockets, selectors, signals, subprocesses and the queue command: only their outcomes (done, refused, no answer, crash) are modelled.
- SQLite: each transaction is one atomic step. Arrival order stands for the `created` time, so a clock that runs back between arrivals is not covered.
- Reading JSON text in general: a received frame is decoded from its parsed value. That the text `outbound` prints has that value is assumed beyond `Json.StringComesBack` and `Frames.BytesComeBack`.
- Regular expressions: written out as scanners; which characters the engine takes for word characters is a parameter, of which only is used that spaces are none.
- Tolerance for damaged metadata: stored values are well-formed in the model.
- The `detail` texts of messages and wakes, `message_record`, the timing trigger and delivery-time statistics: reporting only.
- Inbox.InboxStore.Deliver: a prompt enters as its reading (`Prompts.Reading`) and the stored notices as one text; the lemmas of Prompts connect the reading to the prompt's text. The separators between the returned pieces are not counted, as in the code.
- Inbox.InboxStore.OfferBatch: the configuration is read once, so an enrollment that changes within one transaction is not covered; between transactions it may change freely.
- Bridge.Next: a rejected child hook writes a diagnostic only and is not an action.
- Drain.InboxDrains: assumes ids unique across peers, as markers are kept by id alone, and no received message with an already decided wake; without the latter the marker stays behind and no further cycle begins (`WakeAccounts.WedgedUntilAcknowledged`).
- AtMostOnce.WrittenAtMostOnce: says nothing about which of a late receipt and the dispatcher's final status write wins, as the code guards neither.
- Claude peers in reply chains: such a peer may keep a hop list as it is, so only Codex meshes count hops.
- Lifecycle.ScanLines: lines end at newlines only; the code also splits at carriage returns and the like, which a JSON log does not contain.
- Lifecycle.InterruptionsAreJustified: whether owner, path and file could be verified is a parameter; there is one reconciling worker, as there is one listener.
- Watch.Watchdog.Tick: which listener, owner and replacement are alive is a parameter, once per bridge and tick; a bridge whose pass raises an error is skipped by not listing it.
- Process identities, `/proc`, locks, endpoint resolution, enrollment, registry, session listing, setup, installer and status rendering: easy or mostly I/O.
