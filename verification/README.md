# Seatmesh verification

Seatmesh runs several agent CLIs side by side in tmux panes and coordinates them with a daemon:
it delivers mail into panes, keeps a ledger of asks that still await an answer, watches for
limit screens and restarts connectivity, loads role files, places mini seats on a grid, routes
room messages and repaints pane borders. This project models those state machines, the command
parser, the matching algorithm and the merge algebra in Dafny, and proves what they promise over
whole runs. `dafny verify dfyconfig.toml` checks everything.

## Layout

| files | subject |
|---|---|
| `AckLedger`, `AckMatcher`, `AckSweep`, `AckWatch` | the ack ledger: matching asks with filings, the repeated sweep, the store, the operator-prompt watch |
| `ComposeGate`, `InjectDelivery`, `DeliveryRuns` | the timed coordinator gate, the delivery decision over it, runs of captures and which of them the gate sees |
| `ArgText`, `ArgTokens`, `AgentApply`, `AgentPrint`, `AgentStrings` | the text of arguments, their classification, the lookahead parser of `agent apply`, its printer, and laws on whole argument lists |
| `Dedup`, `RoleIndex`, `ParentChain`, `RoleLoader`, `RoleFiles` | keyed lists, the role merges, chains of parents, the recursive loader, the loaded role told from its files |
| `Connectivity`, `ConnectivityTables`, `ConnectivityRuns`, `ConnectivityHistory`, `ConnectivityDaemon`, `ScanCoverage`, `PaneHistory`, `RecoveryScripts` | connectivity recovery: the step functions, the limit cache, safety over runs, decisions told from the log, the mutable daemon state, the round-robin scan, the tables told from each pane's own history, the scripts in flight |
| `Minis`, `FanoutRouting` | leads-left placement and room routing |
| `Rotation`, `BorderPaint`, `StickyBorder` | rotating windows, border selection, sticky statuses |
| `StableOrder`, `Checkback`, `CheckbackTicks` | the stable sort, due order, the branches of a fire, renewal, repeated ticks with rows that give up |
| `PackVersion`, `RoleMigrate`, `RoleMigrateLaws`, `RoleMigrator` | version order and role-pack migration |
| `Basics` | options, results, small arithmetic |

Code that changes state is modelled twice: as a function from state to state, about which the
run theorems are proved, and as a class or a method with the program's own loops, proved equal to
that function. Screens, clocks, exit codes, addresses and file contents are inputs of the steps.

## Conventions

- Times are integers (milliseconds, or the order of the ISO strings); clocks along a run are
  positive and never go back. One sweep and one poll read the clock once.
- Ack ids are held in lower case. Where a sweep's result is stated row by row, no row can be mistaken for
  another in any order of the ledger (`AckSweep.Addressable`), as with the ids the store makes up itself.
- Seat names are held as the program compares them (trimmed, lower case); room agent ids are
  held normalised; whitespace in notes and prompts is already collapsed.
- Arguments of `agent apply` are strings of whole characters; white space is what JavaScript's
  `trim` takes for it. The index of an instruction mark is an unbounded number.
- The composer phase, the draft, the follow-up box and whether a mail is an acknowledgement or
  carries override words are inputs. So are the patterns a room message body matches, and
  whether a border status is negative.
- Each script that is started completes exactly once.
- Version parts are kept as text with the number read off their front.
- tmux pane ids never equal a pane id with a `:cursor-usage` or `:kiro-limit` suffix.

## Where code and comments differ

The model follows the code in each case.

- "One filing per row" holds within one call; the next sweep reads the same filings again, so a
  single filing ends up closing the whole earlier backlog of its seat (`AckSweep.OneFilingClosesWholeBacklog`).
- `remindableAcks` always returns an empty list, so reminders never fire.
- The not-ready branch of the gate (compose-gate.ts:178-181) cannot be reached: what gets that
  far is an empty or afk composer without a draft. The model leaves it out.
- A rate-limit episode always starts with no recovery noted as started, so the branch that skips
  a repeated recovery (connectivity-recovery.ts:610-612) cannot be reached (`ConnectivityRuns.StartedOnlyInEpisode`).
- A rate-limit episode that starts while another script runs gets no recovery at all.
- Cursor and Kiro limits are meant to be raised on the rising edge; their marks are pruned at the
  head of every poll, so they are raised at every scan (`ConnectivityTables.ProviderLimitRises`).
- A proxy restart that succeeds while the address before it was unknown sends no resume wave.
- Panes with pending mail beyond the cap are not painted, and then nothing else is either.
- A nudge with neither a recipient label nor a role of its pane stays due and keeps its place
  (mesh-orchestrator.ts:450-458). Nothing else gives up: without an owner pane a row is cancelled
  (checkback-scope.ts:95), so the checks for a missing pane at mesh-orchestrator.ts:413 and 546 are never
  taken. A due row is attempted in the end exactly when fewer than six such nudges stand in front
  of it (`CheckbackTicks.EventuallyAttemptedIff`); `CheckbackTicks.SeventhRowStarves` gives an example.
  Supervise rows and all others in front of the nudges never starve (`CheckbackTicks.SmallPriorityNeverStarves`).
- An extend file without a kind gets the role's name as its kind, and so hides a kind its vendor file
  sets (`RoleIndex.ExtendAddsUp`).
- A held coordinator expectation is deferred and then renewed or switched off all the same
  (mesh-orchestrator.ts:566, without the `continue` of the other branches; `Checkback.HeldExpectationIsNotRetried`).
- The settle time is meant as time without activity (compose-gate.ts:113-117). A delivery stopped
  by the hard floor never reaches the gate, so a busy capture does not restart the clock; the
  promise holds exactly when no capture within the settle time was kept from the gate
  (`DeliveryRuns.PasteIsQuietIff`, `DeliveryRuns.PastedHalfASecondAfterBusy`).
- An ack id names the first row of exactly the stripped id, or else the first whose stripped id
  begins with it, and nothing keeps ids from beginning one another. `AckSweep.FindsOwnRowIff` says when a
  row is found by its own id, `AckSweep.ShorterIdClosesOtherRow` gives a ledger where it is not. No caller
  passes its own id (ack-open.ts:69 and 90, ack-sweep.ts:64) and all made-up ids have one length, so
  such a ledger takes the unused parameter or a file edited by hand (`AckSweep.GeneratedIdsAreAddressable`).
- A lock protects a vendor file from its own extend file only; a child role replaces inherited
  policies. A child's `allow: []` lifts the parent's restriction.
- In keyword-first `supervise`/`balance`, a member list in front of another keyword-first clause
  loses its last member unless that is a slot or mini id; the lost one becomes the lead of that
  clause (`AgentApply.KeywordFirstMisparses`).
- A member spelled like a flag must stand in brackets or behind a comma; bare it is taken for the
  option. Directly behind a `--main` a flag is never taken out, so `interval --main --dry-run supervise a`
  names a lead `--dry-run` (`AgentPrint.FlagLeadIsShielded`); the printer shields such leads the same way.
- An id holding a comma, or both a plus and white space, cannot be named at all (`ArgText.SpellableIff`).
- An installed pack version "1.0" is not normalised to 1.0.0 and cannot be migrated up; "1.1" is
  never repaired.
- Migrating up, down and up again overwrites the archived original flat files.

## Model

| member | source | states |
|---|---|---|
| `AckLedger.MatchIsMaximum` | packages/core/src/ack/ack-algo.ts:182-206 | No pairing of open asks with strictly later filings of the same seat, each filing used once, closes more asks than one call does |
| `AckLedger.MatchIsPairing` | packages/core/src/ack/ack-algo.ts:182-206 | The matches of one call are themselves such a pairing, one pair per match and on exactly the matched rows, so the maximum is attained |
| `AckLedger.MatchCountIgnoresFilingOrder` | packages/core/src/ack/ack-algo.ts:182-206 | The number of matches is the same for every order in which the filings are given |
| `AckLedger.MatchClosesOldestFirst` | packages/core/src/ack/ack-algo.ts:182-206 | Per seat the closed asks are a prefix by age: an ask is never closed while an older open ask of its seat stays open |
| `AckLedger.CloseSays` | packages/core/src/ack/ack-algo.ts:209-220 | A closed row says when and by whom, and with what note: the old one for an empty note, at most 200 characters, a longer one cut to 199 and marked |
| `AckMatcher.QueueHeadIsOldest` | packages/core/src/ack/ack-algo.ts:186-203 | The first fitting entry of a seat's sorted queue is the oldest eligible ask of the whole ledger |
| `AckMatcher.MatchFiledAcks` | packages/core/src/ack/ack-algo.ts:182-206 | The loops over per-seat queues that are sorted and spliced return exactly the specified greedy matches, with their notes |
| `AckSweep.FindsOwnRowIff` | packages/daemon/src/store/jsonl-store.ts:360-371 | In any ledger a row is found by its own id exactly when its stripped id is not empty and it is the first row of exactly that id, or there is no such row and no earlier stripped id begins with it |
| `AckSweep.FindAckIff` | packages/daemon/src/store/jsonl-store.ts:360-371 | The lookup of any id, own or shortened: the first row of exactly the stripped id, or where there is none the first whose stripped id begins with it, and none otherwise |
| `AckSweep.OwnIdClosesRowIff` | packages/daemon/src/store/jsonl-store.ts:360-386 | With different ids, closing an open row by its own id takes it off the open rows exactly under that condition; otherwise what is closed, if anything, is another row |
| `AckSweep.AddressableIffAnyOrder` | packages/daemon/src/store/jsonl-store.ts:334-371 | Every row is found by its own id in every order of the ledger exactly when no row can be mistaken for another; closing moves rows to the end, so the order does change |
| `AckSweep.ShorterIdFirstIsFound` | packages/daemon/src/store/jsonl-store.ts:360-371 | The ledger ack-1, ack-1a: in this order both rows find themselves, in the other one ack-1 does not |
| `AckSweep.AckAckReplaces` | packages/daemon/src/store/jsonl-store.ts:375-386 | In any ledger, closing an open row that is found by its own id replaces it by its closed form and keeps every row of another id; the ledger keeps its length exactly when no other row has that id |
| `AckSweep.GeneratedIdsAreAddressable` | packages/daemon/src/store/jsonl-store.ts:348-348 | In a ledger whose ids are all made up by the store (one length) and differ, no row can be mistaken for another, so the results about sweeps apply to it |
| `AckSweep.ShorterIdClosesOtherRow` | packages/daemon/src/store/jsonl-store.ts:360-386 | An input where it fails: behind an open row whose stripped id begins with its own, a row closed by its own id stays open and the earlier one is closed |
| `AckSweep.AckStore.Ack` | packages/daemon/src/store/jsonl-store.ts:375-386 | The store method finds its row by that lookup, refuses an unknown or already closed one and otherwise rewrites it at the end of the ledger |
| `AckSweep.AckStore.Find` | packages/daemon/src/store/jsonl-store.ts:360-371 | The two searches over the ledger return the specified row, or none |
| `AckSweep.SweepClosingsAreOwed` | packages/daemon/src/ack/ack-sweep.ts:135-150 | A sweep only tries to close open rows that have a strictly later filing of their own seat, and no row twice |
| `AckSweep.SweepMakesProgress` | packages/daemon/src/ack/ack-sweep.ts:135-150 | A sweep closes at least one row whenever some open row is still owed a close |
| `AckSweep.SweepShrinksOwed` | packages/daemon/src/ack/ack-sweep.ts:135-150 | Each sweep keeps every row as it was or closes it as filed, and the set of owed rows shrinks strictly until it is empty |
| `AckSweep.SweptRowSays` | packages/daemon/src/ack/ack-sweep.ts:135-150 | What stands in a row a sweep has closed: closed at its time, as filed, with what a strictly later filing of its own seat says for a note |
| `AckSweep.RepeatedSweepsReachFixpoint` | packages/daemon/src/ack/ack-sweep.ts:135-150 | With a fixed set of filings, as many sweeps as there are open rows reach a fixpoint; the rows still open there are exactly those without a strictly later filing of their seat, and one more sweep closes nothing |
| `AckSweep.OneSweepUsesEachFilingOnce` | packages/core/src/ack/ack-algo.ts:180-206 | Within one sweep no more rows close than there are filings |
| `AckSweep.OneFilingClosesWholeBacklog` | packages/daemon/src/ack/ack-sweep.ts:135-150 | Across sweeps one filing closes every earlier open ask of its seat: "one filing per row" holds for one call only |
| `AckSweep.SinceOldestLosesNothing` | packages/daemon/src/ack/ack-sweep.ts:98-150 | Reading only filings since the oldest open ask gives the same closings as reading all filings |
| `AckSweep.PaneReplyClosesOperatorAsks` | packages/daemon/src/ack/ack-sweep.ts:81-96 | After a pane reply exactly the open operator asks of the replying panes are closed, at that time, as pane-reply and with that note, and every other row is unchanged |
| `AckSweep.AckStore.CloseAcksOnFilings` | packages/daemon/src/ack/ack-sweep.ts:135-150 | The loop over the store is exactly one specified sweep, ledger and count |
| `AckSweep.AckStore.CloseOperatorAcksOnPaneReply` | packages/daemon/src/ack/ack-sweep.ts:81-96 | The loop over the open rows of the store closes exactly the specified rows and counts the ones that closed |
| `AckWatch.PaneReplyHasCause` | packages/daemon/src/ack/ack-watch.ts:77-90 | Over any run, a pane-reply close is preceded by an operator submit in that pane and then a busy tick, with no daemon paste in between |
| `AckWatch.CycleClosesAsk` | packages/daemon/src/ack/ack-watch.ts:48-90 | The converse: submit, busy, then the first idle tick, undisturbed by a paste, does close the ask |
| `AckWatch.NoSubmitNearInject` | packages/daemon/src/ack/ack-watch.ts:40-75 | No submit is recorded within 5 s after a daemon paste into the pane |
| `AckWatch.SubmitIffDraftWentToTranscript` | packages/core/src/ack/ack-algo.ts:136-161 | On any run an observation is recorded as a submit exactly when the pane was last seen, undisturbed, with an operator draft that is now gone from the composer and found in the transcript (by a search that is an input here), outside the quiet window |
| `AckWatch.PromptsAreConserved` | packages/daemon/src/ack/ack-watch.ts:92-97 | Prompts handed out so far followed by those still pending are exactly the recorded submits, in order, each once, with the pane, the seat label, the text found in the transcript and the time of its observation |
| `AckWatch.ArmedPanesHaveEvidence` | packages/daemon/src/ack/ack-watch.ts:77-90 | A pane is armed, and marked busy, only with the submit and the busy tick in its history to show for it |
| `AckWatch.Watcher.ObservePaneComposer` | packages/daemon/src/ack/ack-watch.ts:48-75 | The method over the module maps is exactly the observe step, quiet window included |
| `AckWatch.Watcher.DrainOperatorPaneReplyCloses` | packages/daemon/src/ack/ack-watch.ts:99-103 | Draining hands out each replying pane once and empties the list |
| `ComposeGate.IdleDeliveryIffSettled` | packages/daemon/src/inject/compose-gate.ts:118-201 | On any run with the typing gate on, delivery into an empty composer happens exactly when every gate-reaching tick of at least the last settle time was idle-ready with no draft |
| `ComposeGate.DraftDeliveryIffStuck` | packages/daemon/src/inject/compose-gate.ts:99-201 | Delivery around a draft happens exactly when the same draft was seen at every gate-reaching tick for at least the stuck time |
| `ComposeGate.OneClockSuffices` | packages/daemon/src/inject/compose-gate.ts:160-201 | The busy-ended clock never changes a verdict or a countdown: the gate equals a gate with the idle clock alone |
| `ComposeGate.IdleClockIsStreak` | packages/daemon/src/inject/compose-gate.ts:118-201 | The stored idle clock is the start of the current unbroken idle-ready streak, 0 outside one |
| `ComposeGate.StreakStartIsEarliest` | packages/daemon/src/inject/compose-gate.ts:118-201 | That start is the earliest tick from which the pane was idle-ready throughout |
| `ComposeGate.DraftStartIsEarliest` | packages/daemon/src/inject/compose-gate.ts:99-116 | The draft clock is the earliest tick from which the same draft was seen throughout |
| `ComposeGate.BusyClockIsEarlier` | packages/daemon/src/inject/compose-gate.ts:150-201 | The busy-ended clock never runs behind the idle clock |
| `ComposeGate.VerdictSays` | packages/daemon/src/inject/compose-gate.ts:118-201 | On any run, the phase of every verdict, the draft it names and which countdown it carries |
| `ComposeGate.CountdownsAreExact` | packages/daemon/src/inject/compose-gate.ts:160-201 | What the countdowns mean: if nothing changes in the pane, mail can be delivered d seconds later exactly when d is at least the number given; for typing without a draft the number is the stuck time and it never can |
| `ComposeGate.CoordGate.ClassifyCoordDelivery` | packages/daemon/src/inject/compose-gate.ts:118-201 | The method over the per-pane map computes the specified verdict and pane state and touches no other pane |
| `DeliveryRuns.PlainPasteIffJustified` | packages/daemon/src/inject/inject-delivery.ts:134-246 | Over any run of captures of a pane (deliveries of any mail and options, border paints), with no flags and the typing gate on, mail is pasted exactly when justified: an ACK box, an idle worker pane, or a coordinator pane where every capture that went through the gate for at least the settle time was idle-ready, or for at least the stuck time showed the same draft (typing panes only with override words) |
| `DeliveryRuns.PastedIff` | packages/daemon/src/inject/inject-delivery.ts:134-225 | For all options and any captures, mail is pasted exactly when the pane is ready, the hard floor lets it pass, and it is forced, or a room ping or acknowledgement for an open box on a pane not co-typed, or for a worker pane lightweight or the pane idle, or for a coordinator pane settled or stuck by what went through the gate; as a follow-up exactly when it is an acknowledgement in an open box of a Cursor pane |
| `DeliveryRuns.RoomPingReachesIdlePane` | packages/daemon/src/inject/inject-delivery.ts:192-218 | A room ping reaches every idle pane that is not co-typed, whatever the gate has seen |
| `DeliveryRuns.GateSeesFedOnly` | packages/daemon/src/inject/inject-delivery.ts:161-206 | Which captures reach the gate: after any run of captures the gate stands where the ones that pass the guards in front of it have put it |
| `DeliveryRuns.PasteIsQuietIff` | packages/daemon/src/inject/inject-delivery.ts:161-218 | A plain paste into an empty coordinator composer went to a pane seen busy, typing or with a draft within the settle time exactly when one of the captures of that time was kept from the gate |
| `DeliveryRuns.MissedDeliveryIff` | packages/daemon/src/inject/inject-delivery.ts:161-206 | Which captures of an active coordinator pane are kept from the gate: deliveries with force, with a room ping or an ACK box on a pane not co-typed, and busy or typing ones stopped by the hard floor for want of override words (or co-typed); of the paints, those without unsent mail |
| `DeliveryRuns.BusyMailIsMissed` | packages/daemon/src/inject/inject-delivery.ts:168-188 | A delivery without override words that finds the pane busy leaves every gate state as it was |
| `DeliveryRuns.PastedHalfASecondAfterBusy` | packages/daemon/src/inject/inject-delivery.ts:168-206 | With a settle time of 1.5 s: empty at 1 ms and busy at 1001 ms are held, empty at 1501 ms is pasted, half a second after the pane was seen busy |
| `InjectDelivery.PasteIffGateJustifies` | packages/daemon/src/inject/inject-delivery.ts:134-246 | The decision itself: over any history of gate calls a plain paste happens exactly when that history justifies it |
| `InjectDelivery.BusyCoordStaysClosed` | packages/daemon/src/inject/inject-delivery.ts:161-218 | With the typing gate on, a busy coordinator pane without an ACK box is never pasted into without force or a room ping, override words or not |
| `InjectDelivery.BusyPasteNeedsException` | packages/daemon/src/inject/inject-delivery.ts:161-188 | Under any options, a paste onto a busy pane means the pane is not co-typed and the mail is an ACK in a follow-up box or carries override words |
| `InjectDelivery.CoTypedPasteIsQuiet` | packages/daemon/src/inject/inject-delivery.ts:161-171 | A co-typed pane is only ever pasted into while empty or afk, or typing with the typing gate off |
| `InjectDelivery.ForcedPasteIffFloor` | packages/daemon/src/inject/inject-delivery.ts:134-218 | With force, a paste happens exactly when the hard floor lets it, and the gate state is not touched |
| `InjectDelivery.PasteIff` | packages/daemon/src/inject/inject-delivery.ts:134-225 | The decision itself, for all options: ready, past the hard floor, and bypassed, let in by the gate, or for a worker lightweight or idle |
| `InjectDelivery.WhyHeld` | packages/daemon/src/inject/inject-delivery.ts:134-214 | The reason given for every hold |
| `InjectDelivery.DeliverToPane` | packages/daemon/src/inject/inject-delivery.ts:134-246 | The guard sequence over the shared gate gives the specified outcome and changes the gate of that pane only |
| `AgentPrint.ParseUndoesPrint` | packages/core/src/contracts/agent-apply.ts:121-243 | Parsing the printed arguments of a printable bundle gives back the bundle and the options: every supervise, balance, traffic and instruction entry, in order, with members, interval and the main lead in force |
| `AgentPrint.ParsedIffPrintable` | packages/core/src/contracts/agent-apply.ts:121-243 | The printable bundles are exactly those some arguments are parsed as: the condition is on the bundle alone (no empty lead, list or text, members a list can hold, flag-spelled leads only where a --main argument shields them) |
| `AgentPrint.ParsedComesBack` | packages/core/src/contracts/agent-apply.ts:121-243 | Whatever the arguments, printing the parsed bundle and parsing that gives the same bundle and options again |
| `AgentPrint.ParsedIsPrintable` | packages/core/src/contracts/agent-apply.ts:121-243 | Whatever the arguments, a bundle the parser returns is printable |
| `ArgText.SpellableIff` | packages/core/src/contracts/agent-apply.ts:56-68 | The ids some member argument can hold at all: not empty, trimmed, without a comma, and not holding both a plus and white space |
| `ArgText.AloneIsAlone` | packages/core/src/contracts/agent-apply.ts:56-68 | For each of them there is an argument whose member list is exactly that id: behind a comma when it holds no white space, in brackets otherwise |
| `ArgTokens.MemberArgNames` | packages/core/src/contracts/agent-apply.ts:56-91 | The argument printed for an id is a word, never a keyword, flag or instruction mark, and names exactly that id |
| `AgentPrint.ParsePrintedClauses` | packages/core/src/contracts/agent-apply.ts:134-239 | Printed clauses in any order are parsed onto any bundle as what they say: lead first where the lead can stand first, otherwise keyword first behind a neutral --main clause |
| `ArgTokens.SeatIff` | packages/core/src/contracts/agent-apply.ts:82-91 | Exactly which arguments never lead: slot- or mini-, in any letter case, followed by digits alone |
| `ArgTokens.ClassifyIff` | packages/core/src/contracts/agent-apply.ts:45-79 | Exactly which strings are flags, keywords and instruction marks, with the number a mark names; any other argument is a word |
| `AgentStrings.ChainsIffSeat` | packages/core/src/contracts/agent-apply.ts:82-207 | On argument strings: two keyword-first relations in a row come back as given exactly when the last member of the first one is a slot or mini id |
| `AgentStrings.SlotsChain` | packages/core/src/contracts/agent-apply.ts:82-207 | For all numbers, supervise L slot-a slot-b balance slot-c slot-d gives L over a and b and slot-c over d |
| `AgentStrings.InstructionWords` | packages/core/src/contracts/agent-apply.ts:106-119 | The words behind an instruction mark become one text, joined by single blanks and trimmed |
| `ArgText.BracketListReads` | packages/core/src/contracts/agent-apply.ts:56-68 | In brackets both the comma and the plus part a list, and blanks inside an id belong to it |
| `ArgText.PlainListReads` | packages/core/src/contracts/agent-apply.ts:56-68 | Without brackets the comma and white space part a list, and a plus belongs to the id |
| `AgentApply.WhyClauseFails` | packages/core/src/contracts/agent-apply.ts:134-239 | Clause by clause, exactly when parsing fails and with which error |
| `AgentApply.BlankEndsList` | packages/core/src/contracts/agent-apply.ts:93-104 | An empty argument ends a list, and no clause starts with one |
| `AgentApply.BareFlagMemberVanishes` | packages/core/src/contracts/agent-apply.ts:121-132 | A flag-spelled argument in any place behind whole arguments is taken as the option and parses as if it were not there |
| `AgentApply.BareFlagListFails` | packages/core/src/contracts/agent-apply.ts:121-132 | So a list of one such member is an error: the relation has no members |
| `AgentPrint.FlagLeadIsShielded` | packages/core/src/contracts/agent-apply.ts:121-160 | Behind an interval of --main a flag-spelled argument is not taken out and becomes the lead of the relation |
| `AgentPrint.ParsedIsWellFormed` | packages/core/src/contracts/agent-apply.ts:134-243 | Whatever the arguments, a bundle that parses has no empty lead, member, list or text |
| `AgentApply.KeywordFirstLosesLastMember` | packages/core/src/contracts/agent-apply.ts:82-104 | In front of a keyword-first clause a member list keeps its last argument only when it is a slot or mini id; otherwise that argument is left over as the next lead |
| `AgentApply.KeywordFirstMisparses` | packages/core/src/contracts/agent-apply.ts:82-207 | What the whole parse makes of it: the left-over argument becomes the lead of the next relation and that relation's own lead its first member; if nothing is left of the first list it fails instead |
| `AgentApply.ParseClause` | packages/core/src/contracts/agent-apply.ts:134-239 | Every turn of the parser consumes at least one token |
| `AgentApply.CollectAgentList` | packages/core/src/contracts/agent-apply.ts:93-104 | The index loop returns the specified members and stops at the specified token |
| `AgentApply.ParseAgentApplyArgs` | packages/core/src/contracts/agent-apply.ts:121-243 | From the argument strings, the flag loop and the clause loop together return the specified bundle, options or error |
| `RoleIndex.MergeAssociative` | packages/core/src/runtime/role-index.ts:60-93 | Merging three roles gives the same role, in every field, whichever pair is merged first |
| `RoleIndex.FoldIsFlat` | packages/core/src/runtime/role-index.ts:67-93 | Folding the merge over a parent chain equals one flat merge of all its entries |
| `RoleIndex.ChainWinners` | packages/core/src/runtime/role-index.ts:67-93 | In the folded chain read_first paths are unique with the ancestor's entry kept, and policy ids are unique with the descendant's kept |
| `RoleIndex.ChainAllows` | packages/core/src/runtime/role-index.ts:60-164 | The merged rule lets an id through exactly when no role on the chain denies it and the last allow list set, if it is not empty, contains it |
| `RoleIndex.ExtendKeepsDenials` | packages/core/src/runtime/role-index.ts:102-157 | An id is denied after an extend merge exactly when the vendor or the extend file denies it |
| `RoleIndex.ExtendAllowUnderLock` | packages/core/src/runtime/role-index.ts:102-157 | A lock on guards or funcs keeps the vendor's allow list; without it the extend file's replaces it |
| `RoleIndex.ExtendAddsUp` | packages/core/src/runtime/role-index.ts:102-146 | Field by field, an extend file adds to the vendor file: vendor banner and inject lines first and all kept, each path and file where it first comes up, the extend file's variable winning, its parent used if it names one, its kind |
| `RoleIndex.ChildAddsUp` | packages/core/src/runtime/role-index.ts:67-93 | The same for a child role on its parent, with the child's own parent and kind and the nearest lock list |
| `RoleIndex.LockedPoliciesIff` | packages/core/src/runtime/role-index.ts:102-115 | Exactly which policies stand under the lock: the vendor's last one of each id, and for every other id the first one of the extend file |
| `RoleIndex.UnlockedPoliciesIff` | packages/core/src/runtime/role-index.ts:102-115 | Exactly which policies stand without the lock: the extend file's last one of each id, and the vendor's for every other id |
| `RoleIndex.ChildPoliciesIff` | packages/core/src/runtime/role-index.ts:75-78 | Exactly which policies stand in a child role: its own last one of each id, and the inherited one for every other id |
| `Dedup.FirstByPlaces` | packages/core/src/runtime/role-index.ts:67-74 | Deduplication keeps exactly the entries whose key comes up for the first time, in order |
| `Dedup.PutAllPlaces` | packages/core/src/runtime/role-index.ts:75-78 | A table keeps each key where it first came up; with PutAllKeepsLast it holds the value that came last |
| `RoleIndex.LockedPoliciesSurviveExtend` | packages/core/src/runtime/role-index.ts:102-115 | With policies locked every vendor policy survives the extend file, ids staying unique |
| `RoleIndex.UnlockedPoliciesYield` | packages/core/src/runtime/role-index.ts:102-115 | Without the lock the extend file's policy is the only one left under its id |
| `RoleIndex.ChildReplacesInheritedPolicy` | packages/core/src/runtime/role-index.ts:75-78 | The lock ends at the file: a child role's policy replaces the inherited one of the same id |
| `RoleIndex.MergeRoleIndex` | packages/core/src/runtime/role-index.ts:67-93 | The loops over a seen set and an insertion-ordered map compute the specified merge |
| `RoleIndex.MergeExtendRespectingLocked` | packages/core/src/runtime/role-index.ts:102-157 | The locked merge loop computes the specified extend merge |
| `RoleLoader.LoadOutcome` | packages/core/src/runtime/role-index.ts:225-303 | Loading ends in exactly one of three ways, told by the parent chain alone: success iff it reaches a root, the missing-file error iff it runs into a missing role, the cycle error iff it revisits a role |
| `RoleLoader.LoadIsFlatMerge` | packages/core/src/runtime/role-index.ts:225-303 | A loaded role is one flat left merge over its parent chain in order, root first: the i-th entry is what the files of the i-th ancestor from the root contribute |
| `RoleLoader.LineageIsChain` | packages/core/src/runtime/role-index.ts:225-303 | From any visiting set, the merged list is the ancestor chain from the root down to the role, complete and in order |
| `RoleFiles.LoadedFromFiles` | packages/core/src/runtime/role-index.ts:225-303 | Told from the files: the loaded role holds the banner and inject lines of all vendor, extend and flat files in use on the chain, in order, every read_first path and file once and where it first comes up, and every variable with the value of the last file that sets it |
| `RoleFiles.EveryLineIsLoaded` | packages/core/src/runtime/role-index.ts:225-303 | No extend file and no child role clears a line of any file in use |
| `RoleFiles.ParentFromFiles` | packages/core/src/runtime/role-index.ts:225-303 | The next role up, told from the files: the extend file's name, else the vendor's or flat file's, with master read as manager; else common where it exists |
| `RoleFiles.LoadedKind` | packages/core/src/runtime/role-index.ts:225-303 | The kind of a loaded role is that of its extend file where there is one, else of its vendor or flat file; common for a root of that name |
| `RoleFiles.LoadedLocks` | packages/core/src/runtime/role-index.ts:225-280 | The locks of a loaded role are its own vendor or flat file's; only a vendor file that lists none has the three default locks |
| `RoleFiles.UnlistedVendorPoliciesReachIndex` | packages/core/src/runtime/role-index.ts:225-280 | Vendor policies are protected also when the vendor file lists no locks |
| `RoleLoader.DeniedAnywhereIsRefused` | packages/core/src/runtime/role-index.ts:159-303 | An id denied by any vendor, extend or flat file of any role on the chain is refused by the loaded role, whatever others allow |
| `RoleLoader.LockedVendorPoliciesReachIndex` | packages/core/src/runtime/role-index.ts:102-303 | With policies locked every vendor policy of the requested role is in the loaded index unchanged |
| `RoleLoader.Loader.LoadRoleFileChain` | packages/core/src/runtime/role-index.ts:225-303 | The recursion that mutates the visiting set returns the specified outcome, and on success leaves the set as it found it |
| `ConnectivityTables.CachedConnectIsConfirmed` | packages/daemon/src/connectivity/connectivity-recovery.ts:346-501 | Over any run of polls, script completions and resume acks, every pane cached with connect=true has a streak at the threshold, nothing is cached without a flag, and ocLimited and connectPanes mirror the cache |
| `ConnectivityTables.PollSettlesEpisode` | packages/daemon/src/connectivity/connectivity-recovery.ts:488-574 | After every completed poll connectPanes is a subset of ocLimited, the dead-proxy episode is on exactly when connectPanes is non-empty, no probe lock is held and re-arming is not blocked, and the cache rewrite of the clear branch changed nothing |
| `ConnectivityTables.DeadProxyNeedsEnoughCaptures` | packages/daemon/src/connectivity/connectivity-recovery.ts:142-156 | A pane counts as a dead proxy only after the configured number of captures showing it, with no working composer and no other proxy-type limit screen of that pane in between; Claude, Cursor and Kiro limits and captures without a monitored CLI neither count nor reset the count |
| `PaneHistory.DeadProxyIff` | packages/daemon/src/connectivity/connectivity-recovery.ts:142-574 | On every run a pane counts as a dead proxy exactly when one of its captures completed the configured number of failures since the last reset and nothing but Claude, Cursor and Kiro limit screens was read of it after that: no other capture, poll without the pane, cleared episode or acknowledgement |
| `PaneHistory.TablesSayHistory` | packages/daemon/src/connectivity/connectivity-recovery.ts:142-574 | The streak kept for a pane is exactly the count of its own failures since its last reset (a working composer, another proxy-type screen, leaving the mesh, a cleared episode, an acknowledgement) |
| `PaneHistory.EpisodeByPanes` | packages/daemon/src/connectivity/connectivity-recovery.ts:488-612 | After a completed poll a rate-limit episode is on exactly when some pane of the mesh is rate-limited by its own history (its banner says so and it is no confirmed dead proxy), or one was on by the log and the last limited poll is at most 120 s back |
| `PaneHistory.AckEndsEpisodeIff` | packages/daemon/src/mesh-inbox-server.ts:1143-1158 | A resume acknowledgement ends the rate-limit episode exactly when the pane stood limited and no other pane's banner says rate limit any more |
| `PaneHistory.ClaudeLimitRisesIff` | packages/daemon/src/connectivity/connectivity-recovery.ts:374-456 | A Claude limit is raised exactly when it is read of a pane that has shown no such limit since its last working composer or poll without it |
| `ConnectivityTables.ScanShowsEachCapture` | packages/daemon/src/connectivity/connectivity-recovery.ts:404-486 | After a batch of different panes each pane is cached and counted exactly as its own capture says, whatever the other captures were |
| `ConnectivityTables.RunningMeansOneScript` | packages/daemon/src/connectivity/connectivity-recovery.ts:619-760 | recoveryRunning is up exactly while one script is in flight, and there is never a second one |
| `ConnectivityTables.WaveAfterScript` | packages/daemon/src/connectivity/connectivity-recovery.ts:109-119 | What each finished script leads to: wait-ip resumes iff it exited 0 or the address changed; a restart chains into wait-ip iff it failed, was skipped or did not change the address; a restart that succeeded from an unknown address ends in silence |
| `ConnectivityTables.ProviderLimitRises` | packages/daemon/src/connectivity/connectivity-recovery.ts:374-456 | Only the plain provider-limit mark is edge-triggered; the two suffixed marks do not survive pruning, so those limits are raised at every scan |
| `ConnectivityRuns.RecoveriesAreApart` | packages/daemon/src/connectivity/connectivity-recovery.ts:650-671 | Any two OC-LIMIT recoveries are at least 180 s apart and an episode ended between them |
| `ConnectivityRuns.StartedOnlyInEpisode` | packages/daemon/src/connectivity/connectivity-recovery.ts:588-616 | On every run rateLimitRecoveryStarted is up only inside an episode, so the branch that skips a repeated recovery is never taken |
| `ConnectivityRuns.ProxyUpsAreApart` | packages/daemon/src/connectivity/connectivity-recovery.ts:619-641 | Proxy-up runs are at least 60 s apart and each directly follows a dead-proxy episode start of the same poll |
| `ConnectivityRuns.GraceIsWaitedOut` | packages/daemon/src/connectivity/connectivity-recovery.ts:83-102 | An episode is cleared only more than 120 s after every poll that saw a limited pane |
| `ConnectivityRuns.OneStuckNoticePerEpisode` | packages/daemon/src/connectivity/connectivity-recovery.ts:247-256 | The still-down notice comes at most once per dead-proxy episode and not before 120 s of it |
| `ConnectivityRuns.RecoveryOnlyAtEpisodeStart` | packages/daemon/src/connectivity/connectivity-recovery.ts:588-612 | Between the start of a rate-limit episode and its end the only recovery is the one begun at its start |
| `ConnectivityRuns.StartGetsRecoveryIff` | packages/daemon/src/connectivity/connectivity-recovery.ts:588-671 | A poll that starts an episode begins a recovery exactly when no script runs and the rotate cooldown is over |
| `ConnectivityRuns.MissedEpisodeIsNeverServed` | packages/daemon/src/connectivity/connectivity-recovery.ts:650-666 | An episode that starts while a script runs or in the cooldown never gets a recovery, whatever happens until it ends |
| `ConnectivityRuns.MissedEpisodesHappen` | packages/daemon/src/connectivity/connectivity-recovery.ts:588-666 | Such an episode is reachable: with any two panes, one poll that finds one proxy dead and the other pane limited starts both episodes, and the proxy-up script keeps the recovery from starting |
| `RecoveryScripts.ScriptOfRecovery` | packages/daemon/src/connectivity/connectivity-recovery.ts:650-745 | On every run, what a poll that begins a recovery leaves in flight: a restart exactly when the policy asks for it, no cooldown is left and the script is there, otherwise a wait for another address if that script is there, otherwise nothing, from the address of the carrier now or else of the start of the dead-proxy episode; any other poll has started proxy-up where it logged that and the script is there, and has otherwise changed nothing in flight |
| `RecoveryScripts.SmartOffNeverRestarts` | packages/daemon/src/connectivity/connectivity-recovery.ts:719-725 | With the policy off no run ever has a script in flight that restarts the proxy |
| `RecoveryScripts.StartAddressIsStored` | packages/daemon/src/connectivity/connectivity-recovery.ts:525-548 | The stored start address is the one read at the last dead-proxy episode start that has not been cleared |
| `ConnectivityHistory.ClocksAreHistory` | packages/daemon/src/connectivity/connectivity-recovery.ts:346-760 | On every run each stored time (last proxy-up, last clear, episode start, last rotate, last limited poll) is the time of the last such entry in the log, and the flags (episode on, notice sent, limited) are told by the last entries of their kinds |
| `ConnectivityHistory.DownPhaseByHistory` | packages/daemon/src/connectivity/connectivity-recovery.ts:525-587 | From the log and the scripts in flight alone: whether a dead-proxy episode is on, when a poll starts, clears or reports one, that clearing always sends a resume wave, and that proxy-up runs with a start exactly when no script runs and the last run is 60 s back |
| `ConnectivityHistory.EpisodeByHistory` | packages/daemon/src/connectivity/connectivity-recovery.ts:83-102 | After a completed poll a rate-limit episode is on exactly when a live pane is rate-limited now, or one was on by the log and the last limited poll is at most 120 s back |
| `ScanCoverage.EveryPaneIsScanned` | packages/daemon/src/connectivity/connectivity-recovery.ts:386-392 | After any history, in any continuation with ceil(n/4) polls of n panes, whatever script completions and resume acks lie between them, every pane is read by one of the polls |
| `ConnectivityDaemon.Recovery.PollConnectivityRecovery` | packages/daemon/src/connectivity/connectivity-recovery.ts:346-617 | The method that prunes, scans, rebuilds the sets and runs both episode machines in place is exactly the specified poll step |
| `ConnectivityDaemon.Recovery.ScanBatch` | packages/daemon/src/connectivity/connectivity-recovery.ts:386-486 | The batch loop with its moving offset reads exactly the specified panes and updates cache, streaks and marks as specified |
| `ConnectivityDaemon.Recovery.MaybeRunOcLimitRecovery` | packages/daemon/src/connectivity/connectivity-recovery.ts:650-760 | The recovery starter picks restart or wait-ip as specified and sets the running flag to match |
| `ConnectivityDaemon.Recovery.OnScriptDone` | packages/daemon/src/connectivity/connectivity-recovery.ts:673-760 | The completion callbacks are the specified script step |
| `ConnectivityDaemon.Recovery.OnResumeAckPane` | packages/daemon/src/mesh-inbox-server.ts:1143-1145 | A resume ack clears the pane's banner and ends the episode with the last rate-limited pane |
| `Minis.WantOrderIsLayout` | packages/core/src/layout/minis.ts:32-66 | For distinct leads in range on a full grid the order fails exactly when there are more leads than rows; otherwise it is a permutation of 1..max with lead r at the left of row r and the other minis ascending |
| `Minis.RowLeadInvertsOrder` | packages/core/src/chatroom/fanout-routing.ts:60-76 | The row-lead lookup inverts the order: every mini placed in row r gets lead r, or none past the last lead |
| `Minis.OrderFitsGrid` | packages/core/src/layout/minis.ts:32-66 | On any grid the order holds no more minis than there are, nor than there are cells |
| `Minis.ComputeMinisWantOrder` | packages/core/src/layout/minis.ts:32-66 | The nested loops with the moving index compute the specified order or fail where it fails |
| `FanoutRouting.RowMiniReachesOnlyItsLead` | packages/core/src/chatroom/fanout-routing.ts:92-147 | When room leads are the grid leads, one per row, and hold no other office, a message of any non-lead mini reaches exactly the lead at the left of its own row (rich, or thin for noise) and every other lead is skipped |
| `FanoutRouting.OverfullGridLosesRowMinis` | packages/core/src/chatroom/fanout-routing.ts:92-115 | Routing a message of a non-lead mini to anyone fails exactly when the grid has more leads than rows |
| `FanoutRouting.ManagerHearsLeadsOnly` | packages/core/src/chatroom/fanout-routing.ts:117-126 | The manager gets a message exactly when it is a broadcast, or non-noise substance from a lead, a lead worker, or the supervisor or secretary when that is not a row mini |
| `FanoutRouting.NoiseNeverArrivesInFull` | packages/core/src/chatroom/fanout-routing.ts:117-147 | Noise is never delivered in full except a broadcast to the manager and substance to a lead worker; coordinators never get what is not substance |
| `FanoutRouting.FullDeliveryHasOffice` | packages/core/src/chatroom/fanout-routing.ts:134-146 | A full delivery to any other seat comes from a non-lead mini to the lead of its own row |
| `FanoutRouting.CoordinatorsGetSubstance` | packages/core/src/chatroom/fanout-routing.ts:117-132 | The supervisor and the secretary get exactly what tells something and is no noise, always in full |
| `FanoutRouting.MembersGetIff` | packages/core/src/chatroom/fanout-routing.ts:128-147 | Every other seat, exactly: in full what its own row sends unless it is noise, and substance to a lead worker; in short noise of its own row, and to a room member all the rest but noise to a mini and what another lead's row sends to a lead |
| `FanoutRouting.FailsOnlyByRow` | packages/core/src/chatroom/fanout-routing.ts:92-115 | Nobody hears itself, and routing fails only where the sender's row cannot be looked up |
| `BorderPaint.BatchIsBounded` | packages/daemon/src/border/border-paint.ts:104-135 | A batched selection names real panes, none twice, and is no longer than the cap |
| `BorderPaint.PriorityFitsOrStarves` | packages/daemon/src/border/border-paint.ts:116-134 | Panes with pending mail are all selected exactly when they fit under the cap; when they fill it no quiet pane is selected and the rotation stands still |
| `BorderPaint.EarlierPaneGoesFirst` | packages/daemon/src/border/border-paint.ts:104-135 | Of the panes with mail those earlier in the list are selected first |
| `BorderPaint.SmallOrQuietIsPaintedWhole` | packages/daemon/src/border/border-paint.ts:104-112 | A mesh of at most ten panes, or one without mail, is painted whole and starts the rotation over |
| `BorderPaint.EveryQuietPaneIsPainted` | packages/daemon/src/border/border-paint.ts:104-135 | With fixed panes and mail that leaves room under the cap, any ceil(rest/room) selections in a row cover every quiet pane |
| `BorderPaint.SelectWorkerMiniPaintTargets` | packages/daemon/src/border/border-paint.ts:104-135 | The loops with the seen set and rotating offset compute the specified selection |
| `StickyBorder.HeldIffNotTwiceHealthy` | packages/daemon/src/border/border-paint.ts:174-217 | After any run of paints and resets the border is held exactly when some negative status since the last reset has not been followed by two healthy paints in a row, and then it shows the last negative status |
| `StickyBorder.ShownStatus` | packages/daemon/src/border/border-paint.ts:174-217 | What a paint shows: the status of the holder while one is held, otherwise the pane's own |
| `StickyBorder.Stickies.ApplyStickyNegativeStatus` | packages/daemon/src/border/border-paint.ts:174-217 | The method over the per-pane map is the specified step for that pane and leaves the others alone |
| `StickyBorder.Stickies.ResetStickyNegativeStatus` | packages/daemon/src/border/border-paint.ts:213-217 | The reset forgets one pane, or all of them, and leaves the others alone |
| `Checkback.DueOrder` | packages/daemon/src/checkback/checkback-fire.ts:65-83 | The fire order holds exactly the due rows, each once, by priority, then expiry, then position |
| `Checkback.OrderByKind` | packages/daemon/src/checkback/checkback-fire.ts:43-63 | By kind: supervise, then balance, then expectations, limit retries and mesh watches, then nudges, then the rest |
| `Checkback.SuperviseGoesFirst` | packages/daemon/src/checkback/checkback-fire.ts:43-45 | While a secretary-supervise row is due every tick fires one first |
| `CheckbackTicks.AttemptedIffFewStuckAhead` | packages/daemon/src/orchestrator/mesh-orchestrator.ts:382-458 | For the nudges that give up at every tick, at one clock reading: a due row with s of them in front of it in fire order is attempted within the ticks that satisfy ticks * (6 - s) >= position + 1 - s when s < 6, and at no number of ticks when s >= 6 |
| `CheckbackTicks.EventuallyAttemptedIff` | packages/daemon/src/orchestrator/mesh-orchestrator.ts:382-458 | The same as one equivalence once there are more ticks than rows in front: attempted iff fewer than six in front give up |
| `CheckbackTicks.TicksAttemptInOrder` | packages/daemon/src/orchestrator/mesh-orchestrator.ts:382-458 | Rows that do not give up are attempted in fire order and none twice, what of them is still due is exactly the rest, and the rows that give up all stay due |
| `CheckbackTicks.EnoughTicksDrain` | packages/daemon/src/orchestrator/mesh-orchestrator.ts:382-458 | With s < 6 rows that give up in all, ceil(others / (6 - s)) ticks attempt every other due row exactly once, whatever mix of failures, cancellations and renewals they meet, and leave due only the rows that give up |
| `CheckbackTicks.SixAttemptsATick` | packages/daemon/src/orchestrator/mesh-orchestrator.ts:382-390 | With none that gives up, n ticks attempt exactly the first 6n rows of the fire order and leave the rest of it due |
| `CheckbackTicks.SeventhRowStarves` | packages/daemon/src/orchestrator/mesh-orchestrator.ts:450-458 | An input: six due nudges without a recipient on panes without a role, and one due row behind them that could be delivered; it is never attempted and stays due, after any number of ticks |
| `CheckbackTicks.StarvedAtAnyTime` | packages/daemon/src/orchestrator/mesh-orchestrator.ts:382-458 | The same at any later clock readings: behind six due rows that give up at every tick a row is never attempted and stays as it is, whatever all other rows and deliveries do |
| `CheckbackTicks.SmallPriorityNeverStarves` | packages/daemon/src/checkback/checkback-fire.ts:43-63 | A due supervise, balance, expectation, limit-retry or mesh-watch row is never held up: at position i it is attempted within ceil((i + 1) / 6) ticks, whatever gives up |
| `Checkback.GivesUpIff` | packages/daemon/src/orchestrator/mesh-orchestrator.ts:391-458 | Exactly which fire leaves its row as it is: a nudge other than the manager nudge, its pane bound and not held, with neither a recipient nor a role of the pane; a row without an owner pane, or with a foreign one, is cancelled |
| `Checkback.SuperviseRow` | packages/daemon/src/orchestrator/mesh-orchestrator.ts:499-504 | A supervise or balance row that is delivered is due again after its whole renewal time (off if it has none); held, it is tried again in 30 to 90 seconds |
| `Checkback.WatchRow` | packages/daemon/src/orchestrator/mesh-orchestrator.ts:424-445 | A mesh watch is off once the campaign is done and is otherwise renewed, whatever its deliveries come to |
| `Checkback.NudgeRow` | packages/daemon/src/orchestrator/mesh-orchestrator.ts:450-498 | A nudge is retried only when an idle lead with open tasks could not be reached, stays as it is without recipient and role, and is otherwise renewed |
| `Checkback.LimitRetryRow` | packages/daemon/src/orchestrator/mesh-orchestrator.ts:505-542 | A limit retry is off once delivered or once its session is gone, and is otherwise retried |
| `Checkback.ExpectationRow` | packages/daemon/src/orchestrator/mesh-orchestrator.ts:543-568 | A coordinator expectation is off once it is met or asked about |
| `Checkback.OneShotRow` | packages/daemon/src/orchestrator/mesh-orchestrator.ts:590-691 | Every other row is off once delivered and retried when held |
| `Checkback.EarlyEnd` | packages/daemon/src/orchestrator/mesh-orchestrator.ts:391-422 | Fires that do not get to their kind: retried for a gone pane or the overload gate, off without an owner or with a foreign one, and off for the manager nudge |
| `Checkback.OnlyHeldExpectationIsCapped` | packages/daemon/src/orchestrator/mesh-orchestrator.ts:543-570 | Of the bounded rows only a coordinator expectation whose delivery is held is ever renewed, so the caps decide that case alone |
| `CheckbackTicks.SuperviseNeverStops` | packages/daemon/src/orchestrator/mesh-orchestrator.ts:499-709 | Over any ticks at any times a supervise or balance row with a renewal time stays on for ever, as long as its pane is in the mesh |
| `Checkback.HeldExpectationIsNotRetried` | packages/daemon/src/orchestrator/mesh-orchestrator.ts:543-570 | A coordinator expectation whose delivery is held gets its full renewal time, or is switched off when it has none left, instead of the 30 to 90 seconds of every other held row |
| `Checkback.FireOne` | packages/daemon/src/orchestrator/mesh-orchestrator.ts:391-713 | The branches of one fire, kind by kind, change the row as specified |
| `Checkback.FiredRowIsNotDue` | packages/daemon/src/checkback/checkback-fire.ts:86-91 | A row that was deferred, renewed or cancelled is not due at the same clock reading |
| `Checkback.OnlyFirstFiresRenew` | packages/daemon/src/checkback/checkback-fire.ts:27-41 | A bounded row with a known creation time, fired at least renewSec apart, can be renewed only by its first cap fires, whatever its stored counts say |
| `Checkback.CountedRowStops` | packages/daemon/src/orchestrator/mesh-orchestrator.ts:693-709 | With its count stored, a bounded row is off after cap fires at any times |
| `Checkback.UnknownAgeNeverExpires` | packages/daemon/src/checkback/checkback-fire.ts:36-40 | Without a readable creation time a row never ages out: it renews iff it is unbounded or its stored count is below the cap |
| `Checkback.SortDueCheckbackIndices` | packages/daemon/src/checkback/checkback-fire.ts:65-83 | The collecting loop and the stable sort return the specified fire order |
| `Checkback.FireDueCheckbacks` | packages/daemon/src/orchestrator/mesh-orchestrator.ts:382-713 | The loop that changes rows in place in fire order, six a tick, is the specified tick |
| `PackVersion.CompareIsLexicographic` | packages/core/src/runtime/role-pack.ts:86-97 | The comparison is decided by the first differing part, missing parts counting as 0, and is 0 exactly when all parts agree |
| `PackVersion.CompareIsTransitive` | packages/core/src/runtime/role-pack.ts:86-97 | With CompareFlips: a total preorder |
| `PackVersion.CompareFlips` | packages/core/src/runtime/role-pack.ts:86-97 | Swapping the arguments negates the result, and a version compares 0 to itself |
| `PackVersion.CompareRolePackVersion` | packages/core/src/runtime/role-pack.ts:86-97 | The comparison loop computes the specified comparison |
| `PackVersion.SemverLess` | packages/cli/src/ui/version-nudge.ts:60-70 | The separately written comparison loop agrees with it |
| `RoleMigrateLaws.MigrateUpIsIdempotent` | packages/core/src/runtime/role-migrate.ts:285-357 | With complete templates, migrating to 1.1.0 fails exactly when the installed version is neither 1.0.0 nor equal to 1.1.0; from 1.0.0 or 1.1.0 it leaves nothing to migrate and a second run changes nothing |
| `RoleMigrateLaws.UpGet` | packages/core/src/runtime/role-migrate.ts:111-226 | What stands under every single path after the up step: templates, new extends, archived flats, stamp |
| `RoleMigrateLaws.DownGet` | packages/core/src/runtime/role-migrate.ts:180-241 | What stands under every single path after the down step |
| `RoleMigrateLaws.DownJoinsFiles` | packages/core/src/runtime/role-migrate.ts:180-204 | The flat file of the down step, key by key: keys of one file kept, lists joined vendor first, objects overlaid, the extend file's scalars winning, engine keys gone |
| `RoleMigrateLaws.UpExtendIs` | packages/core/src/runtime/role-migrate.ts:111-160 | The extend file of the up step: kept if there is one, an empty stub without a flat file or where it says what the vendor says, otherwise all the flat file says but the engine keys |
| `RoleMigrateLaws.UpDownUp` | packages/core/src/runtime/role-migrate.ts:206-241 | Up, down and up again leaves every path as the first up left it except the archive, which then holds the flattened vendor + extend |
| `RoleMigrateLaws.ExtendsNeverChange` | packages/core/src/runtime/role-migrate.ts:111-241 | No sequence of migrations in any direction, with any templates, dry or failing, changes an existing extend file |
| `RoleMigrateLaws.UpKeepsCustomisations` | packages/core/src/runtime/role-migrate.ts:111-178 | A flat file without an extend is archived and its content survives as the extend or equals the vendor file |
| `RoleMigrateLaws.ReachableTargets` | packages/core/src/runtime/role-migrate.ts:243-279 | Exactly which targets can be reached from which installed version, in at most one step; an installed "1.0" has no step to 1.1.0 |
| `RoleMigrateLaws.OtherSpellingIsNeverRepaired` | packages/core/src/runtime/role-migrate.ts:308-330 | Another spelling of 1.1.0 is taken for up to date even when files are missing |
| `RoleMigrateLaws.StampedIsRepairedIff` | packages/core/src/runtime/role-migrate.ts:285-357 | A directory stamped 1.1.0 is left alone exactly when every role has its vendor file and flat files are not all there is; otherwise the whole up step is applied again |
| `RoleMigrateLaws.OldOrUnstampedIsMigrated` | packages/core/src/runtime/role-migrate.ts:285-357 | No version, an empty one and every 1.0.x get the up step |
| `RoleMigrateLaws.DryRunForetells` | packages/core/src/runtime/role-migrate.ts:54-73 | A dry run changes no file, fails iff the real run fails and lists exactly the paths the real run writes, but for the second template copy when documents are missing |
| `RoleMigrateLaws.MigrateTells` | packages/core/src/runtime/role-migrate.ts:54-73 | The report of a run is complete and true: every path it changed is listed, a flat file that was moved away under its archive, and what is listed is there afterwards |
| `RoleMigrator.Migrator.RunRolePackMigrate` | packages/core/src/runtime/role-migrate.ts:285-357 | The run over the mutable directory is the specified migration; an unreachable target writes nothing |
| `RoleMigrator.Migrator.PromoteLegacyFlatToExtend` | packages/core/src/runtime/role-migrate.ts:111-160 | The loop over the kinds writes exactly the specified extend files |
| `RoleMigrator.Migrator.FlattenToLegacy` | packages/core/src/runtime/role-migrate.ts:180-204 | The loop over the kinds writes exactly the specified flat files |
| `RoleMigrator.WalkPath` | packages/core/src/runtime/role-migrate.ts:250-279 | The walk with a moving cursor finds the specified plan or the specified missing step |

## Left out

- tmux calls, spawned scripts, HTTP, toasts and log text: input and output.
- Reading screens (composer state, provider detection, follow-up boxes): patterns over terminal text; their results are inputs.
- The supervisor process: depends on process and port timing.
- CLI commands, help, completion, banners and message texts.
- YAML, zod, configuration defaults and path joining: library work or single facts.
- Peer backlog, bulk drain and the sqlite store: separate queues with no bearing on the properties here.
- filingsSince: how a filing's seat is read off peer and inbox rows; filings enter the model with seat and time.
- Ack reminders: they never fire, because the list of remindable rows is always empty.
- Column overlays of roles: a separate explicit path in front of the same chain.
- How a checkback finds its pane and lead, and the texts it sends: what a fire finds is an input (`Checkback.Scene`).
- The ipify probe and its timing: whether the carrier answers, and its cached address, are inputs of each poll; the count of failed probes only goes into log lines.
- The status report of a role pack beyond whether it needs migrating (missing documents, file lists).
- Empty directories: in migration a directory exists when something is in it.
- How `parseInt` reads a version part: a part in unusual spelling carries the number read off it.
- BorderPaint.EveryQuietPaneIsPainted: assumes the panes and their mail stay the same over those ticks; the rotation restarts at 0 when the mesh is small or quiet.
- AckWatch.SubmitIffDraftWentToTranscript: the transcript search with its length limits is an input.
- ScanCoverage.EveryPaneIsScanned: assumes the number of panes stays the same in every poll; the offset then wraps at that number.
