# Verified models of outturn's approval protocol, default agent and stores

Outturn runs agents that act on other people's APIs, and asks a person before an act that needs one. This project
models the parts where that has to be right and proves what they promise, over all inputs and all runs; where a
handler reads in one statement and writes in another, the modules below say what may come between. Each module follows
one part of the repository.

**A refused write and what a yes is worth.** `HeldRequests` is the `held_requests` table: its statements as functions
of a row, and a class that performs them on the table in place. `HeldProtocol` is the life of a request when runtimes
are lost, reports are stale or late, and people decide at any moment: a report or a recovery reads in one step and
writes in another. `Approvals` is what an answer is worth: the refused call let out once, as the request it was or as a
grant of it, and beside either a wider grant only where one was offered and ticked. `Gates` is the question itself: the
hold taken on the conversation, the item that names it, and the loser of two refusals at once. `Invocations` is the
record of declared writes by idempotency key, whose claim is two statements with anything in between.

**The default agent.** `AgentTools` and `TurnLoop` are the loop that hands a conversation to a model and runs the tools
it asks for, with the model, the host and the user as an arbitrary script. `Utf8`, `ReadObject`, `HexDump`,
`ForTheModel` and `OperationUrl` are its byte-level work: trimming ranges to characters, showing both ends of a file,
dumping bytes, cutting a result to two ceilings, and building a request's URL. `PathSegments` is what a reader makes of
that URL's path, and `PublishedUrls` the URLs an operation can have. `Archive` is expansion and creation of archives,
and the reader they go through.

**Stores.** `EgressRules` is the rules that say which hosts may be reached and with whose key, each handler reading its
rule before it writes; `Hollowbrook` is the guesthouse's ledger of bookings and charges; `Paging` is the cursor that
every list uses.

Where the source changes state step by step, the model is a class or a loop, and its `ensures` ties it to a function of
the old state; the claims about many steps are lemmas about those functions. What each operation comes to is also
stated by itself, outcome by outcome, in terms of its inputs and not of those functions.

## What is taken from outside

- A runtime sends a held request only after marking it, sends at most once under one mark, reports a mark at most once,
  and says `NeverSent` or `Refused` only of a send that did not and will not land. `HeldProtocol.RepeatedReportLandsTwice`
  is why each mark must be reported once.
- Turns of one conversation are serial: no report or recovery reads a request while another's update is to be made. An
  update that fails is to be made no longer, and the next turn reads again. Only
  `HeldProtocol.TriesAreBounded` uses it, and `HeldProtocol.SerialTurnsSeeTheCount` is what it comes to.
  `HeldProtocol.EachReturnCostsATry` is of an update that sees the row's count.
- Of a call to the model the host shows pieces, none empty; those of a call that succeeds are its prose.
- `MAX_ATTEMPTS` is 3; the settle of an answer, its grant, the hold and the held request commit together; an item asks
  about at most one held request; an item's state changes once.
- What a handler of `egress.rs` or `connections.rs` reads of a rule may be out of date, but its workspace, host,
  environment and exchange are the rule's: `EgressRules.WhatIsReadOnceStays` is why.
- Identifiers minted are new. A charge's id made from a key is the key's own. A seal says what it is bound to.
- The host hands over exactly the bytes of a range that the file has, or refuses.
- The agent is compiled for a machine of thirty-two-bit words.

## Where the code and what is said of it differ

- `crates/api/src/gated.rs:200-206` says one question per conversation. The check is per conversation, but two refusals
  past it together both ask unless they are of one act and one turn, because that is what the unique index is over:
  `Gates.BothAskIffActsDiffer`, `Gates.TwoActsBothAsked`. Nor does the check find a question whose hold somebody lifted
  by hand, which leaves the question open: `Gates.OpenIsFoundIff`, `Gates.TwoOpenAfterALift`.
- A question asked by hand carries its caller's own payload, of which only a few keys are overwritten. One with a shape, a
  turn, and an offer or none reads as a refusal's record, and a yes to it mints a grant for a call nobody refused:
  `Approvals.ByHandMintsIff` is exact, `Approvals.AskedByHandAndGranted` a run. Such a question also takes its turn's
  place in the unique index, on whatever conversation it was asked: `Gates.RefusedForAQuestionAskedByHand`.
- A yes lets the refused request out and mints a grant too where the wider extent was offered and ticked:
  `Approvals.BothIffWidened`.
- `crates/api/src/invocations.rs:71-74` says one statement decides a claim. It decides who is new; whoever is not is
  told by a second, and told nothing if the record was deleted between, as by a release:
  `Invocations.TheAnswerIsLostIff`, `Invocations.ReleasedBetween`. Nor does an expired record always change
  nothing, as line 117 has it: a claim that met it before can still read it, or lose it to the sweep.
  `Invocations.ForgettingChangesNoAnswerIff` and `Invocations.ALateSettleIsToldIff` are exact,
  `Invocations.AnAnswerTooLateIsTold` an input.
- `agents/default/src/lib.rs:1546` says a tool that was not offered is not run. On the last permitted round nothing is
  offered and the check still lets tools run, and a tool loaded by a call of the same reply runs too:
  `TurnLoop.RunsUnofferedIff`, `TurnLoop.LoadedAndCalledInOneReply`.
- The reply is the text streamed, except where a call to the model fails after some of it was shown: the turn then fails
  with a stream longer than its reply. `TurnLoop.ReplyIsWhatWasStreamed`.
- A try counted by an update whose read was made before a person asked again passes the bound of three:
  `HeldProtocol.BoundedThroughoutIff` is the exact condition on a run, `HeldProtocol.StaleReadsPassTheBound` one
  that breaks it.
- `read_object` names an offset to read on from. Where a read starts at a newline followed by a line longer than the
  head, it names the offset it was given: `ReadObject.HintMovesOnIff`, `ReadObject.FollowingEndsIff`,
  `ReadObject.ALongLineNamesItsOwnOffset`. The count of bytes not shown leaves out what the tail drops of its first line.
- `for_the_model` names an offset for the rest. It falls short of it by one byte for each carriage return dropped, and
  is the beginning where the first line is exactly the budget: `ForTheModel.TheOffsetIsTheRestIff`,
  `ForTheModel.NothingIsShownIff`, and a concrete input for each.
- The values `.` and `..` are unreserved, so they are put into a path as they are, and a reader of the URL removes them
  as dot-segments: `PublishedUrls.EverySegmentSurvivesIff` is exact, `PublishedUrls.TwoDotsTakeASegment` an input.
- Giving an agent's rule to the agent again, where it takes its value from the environment, is refused by the table's
  constraint rather than by the handler: `EgressRules.TheTableRefusesIff`.
- People's keys are to be kept from being stranded (`crates/api/src/egress.rs:513-514`). An operation on a rule read
  before another changed it can strand them in three ways: `EgressRules.KeysStayOkIff` and
  `EgressRules.KeysAreAlwaysTheirsIff` are exact, and `EgressRules.ACredentialSetLateStrands`,
  `EgressRules.AnOwnerSetLateStrands` and `EgressRules.AKeyStoredLateStrands` an input for each.
- The guesthouse's ceiling on charges does not hold at the top of thirty-two bits, where the saturating sum equals the
  total: `Hollowbrook.RefusedAsTooMuchIff`, `Hollowbrook.NoCeilingAtTheTop`. Its own rates never reach it:
  `Hollowbrook.NoGuestIsOvercharged`.
- The archive reader takes what is left in a thirty-two-bit word, and ends early where that is a whole number of words:
  `Archive.ReadsItAllIff`.

## Model

| member | source | states |
|---|---|---|
| HeldRequests.DecideAllIsOne | crates/api/src/held.rs:109-137 | deciding an item changes the one request it holds, and no other row |
| HeldRequests.CallIsKept | crates/api/src/held.rs:109-137 | no statement rewrites what was asked for or moves it to another conversation: what was approved is what is sent |
| HeldRequests.AnOutcomeComesTo | crates/api/src/held.rs:480-500 | answered, a request that may be settled is spent; refused, a person is asked; never sent, or unanswered by a recipient that dedupes, it is sent again while a try is left; otherwise it may have landed |
| HeldRequests.ADecisionComesTo | crates/api/src/held.rs:94-137 | each of the four decisions applies exactly from its states and leaves exactly its own, an approving one with the tries started over and who said so |
| HeldRequests.HeldStore.Hold | crates/api/src/held.rs:47-77 | a request is held once per id and per item, new and undecided, and otherwise nothing changes |
| HeldRequests.HeldStore.DecideTx | crates/api/src/held.rs:109-137 | a decision applies only from its states, restarts the tries when it approves, and reports one row exactly when one was changed |
| HeldRequests.HeldStore.MarkSending | crates/api/src/held.rs:507-532 | a mark succeeds exactly on a waiting request of that conversation; a second marker is refused |
| HeldRequests.HeldStore.CommitSettle | crates/api/src/held.rs:608-670 | a settle is written exactly on a row still waiting or going, with the tries read earlier; the state it leaves and what it says comes next are, outcome by outcome, those |
| HeldRequests.HeldStore.Report | crates/api/src/held.rs:571-604 | a report is not found, in conflict or settled, each exactly when the list says so, and only the last changes the row, to the state its outcome leads to |
| HeldRequests.HeldStore.Recover | crates/api/src/held.rs:547-563 | recovery settles exactly the conversation's requests being sent, each as unanswered, and touches no other row |
| HeldRequests.HeldStore.Move | crates/api/src/held.rs:701-782 | tying a request to a new item keeps one request per item, or changes nothing |
| HeldProtocol.AccountedIsKept | crates/api/src/held.rs:94-137 | every event, an update lost included, keeps the account: marks, and a return pending, are paid for by yeses and by marks that never landed |
| HeldProtocol.LandsAtMostOncePerYes | crates/api/src/held.rs:483-563 | over every run a request whose recipient does not dedupe lands at most once per human yes, and while waiting again one yes is unspent |
| HeldProtocol.FinalIsForever | crates/api/src/held.rs:94-106 | declined, spent or done, a request is never marked again nor approved again, in any continuation |
| HeldProtocol.NothingBeforeAYes | crates/api/src/held.rs:507-532 | nothing lands before a person said yes |
| HeldProtocol.AnUpdateComesTo | crates/api/src/held.rs:608-656 | what an update leaves of a live request, by what was said of the send and the tries read with it |
| HeldProtocol.AReportComesTo | crates/api/src/held.rs:571-656 | whatever happens between a report and its update, the update leaves the request as the report says, where it may still be settled |
| HeldProtocol.ARecoveryComesTo | crates/api/src/held.rs:542-563 | the same of a recovery, which takes the request for unanswered |
| HeldProtocol.ReadsThatSettleNothing | crates/api/src/held.rs:542-592 | a recovery reads only what is being sent, and a report of what is settled has no update to make |
| HeldProtocol.AnsweredIsNeverSentAgain | crates/api/src/held.rs:480-500 | once an answer is written a request is spent, and neither marked nor approved again in any continuation |
| HeldProtocol.CommitKeepsBoundIff | crates/api/src/held.rs:628-656 | an update keeps the bound on tries if and only if the count it read did not allow a try that the row's own count forbids |
| HeldProtocol.SerialTurnsSeeTheCount | crates/api/src/held.rs:483-500 | where turns are serial every update sees the count the row has, marks, answers of people and failed updates in between notwithstanding |
| HeldProtocol.BoundedThroughoutIff | crates/api/src/held.rs:628-656 | over every run, with updates stale, lost or both, the bound on tries holds throughout if and only if no update gives the request back on a count that allows it where the row's own count does not |
| HeldProtocol.TriesAreBounded | crates/api/src/held.rs:483-500 | where a report or recovery reads only with no update still to be made, whatever updates failed before, at most three marks follow a yes before a person or an answer, and attempts stay below three while live |
| HeldProtocol.EachReturnCostsATry | crates/api/src/held.rs:483-500 | by an update that sees the row's count, each return to be sent again uses one of the tries left, and with none left the request goes to a person or is spent |
| HeldProtocol.ReportOutlivesAYes | crates/api/src/held.rs:571-656 | a report can be read, its request recovered and approved again, and the report still be unwritten |
| HeldProtocol.StaleReadsPassTheBound | crates/api/src/held.rs:628-656 | a run, its turns not serial, in which stale counts give more than three marks after one yes |
| HeldProtocol.RepeatedReportLandsTwice | crates/api/src/held.rs:571-656 | were one mark reported twice, one yes could land twice |
| HeldProtocol.StepsAreStatements | crates/api/src/held.rs:507-656 | every step of the table is one of the proved statements, and what becomes of one row is its own protocol step |
| HeldProtocol.NoRequestLandsTwicePerYes | crates/api/src/held.rs:507-656 | the same bound for every request of a table whose requests are held, decided, sent and recovered together |
| Approvals.OnlyAnAnswerDecides | crates/api/src/held.rs:94-137 | only a settled answer lets a held request out for the first time, and nothing takes that back |
| Approvals.SoundIsKept | crates/api/src/approvals.rs:369-388 | every step of raising, holding, reading and settling keeps each item's account of request and grants |
| Approvals.AYesAuthorisesTheCallOnce | crates/api/src/approvals.rs:354-388 | in every interleaving a yes to a refusal lets its call out once, as the held request or as a grant of the call; at most one grant is minted, and the wider one only where offered |
| Approvals.BothIffWidened | crates/api/src/approvals.rs:354-388 | the request is let out if and only if the answer approved and saw it held, and the wider grant minted if and only if it approved, ticked, and the unit was offered; so both exactly where both |
| Approvals.AnAnswerComesTo | crates/api/src/approvals.rs:354-388 | an answer that saw its request held has it wait to be sent, on the word of who answered, or declines it; closes the question; and touches no other request, question or grant but the wider one |
| Approvals.AFollowUpComesTo | crates/api/src/approvals.rs:470-500 | of a request that did not go, a resend has it wait with its tries started over, on the word of who said so, and done closes it; the question is closed and nothing else is touched |
| Approvals.DoneIsForGood | crates/api/src/approvals.rs:470-500 | a request a person said is done stays so in every continuation |
| Approvals.ClosedStaysClosed | crates/api/src/held.rs:94-137 | what is declined, spent or done stays so, whoever decides what after |
| Approvals.AnsweredOnce | crates/api/src/approvals.rs:364-388 | a question already answered is not answered again |
| Approvals.StepsAreStatements | crates/api/src/gated.rs:427-456 | each other step is the one statement it is, on the one row, and an answer's look sees whether its item holds a request |
| Approvals.NothingWithoutAYes | crates/api/src/approvals.rs:364-388 | a decline, or a question still open, releases no request and mints no grant, whoever asked |
| Approvals.ByHandMintsIff | crates/api/src/approvals.rs:128-189 | a yes to a question asked by hand lets no request out, and mints one grant if and only if its payload carries a shape, a turn, and an offer or none, and is no follow-up |
| Approvals.AskedByHandAndGranted | crates/api/src/grant.rs:31-43 | a run in which nothing was refused and the turn a payload names holds the grant it describes, of a call or of a unit |
| Approvals.AFollowUpGrantsNothing | crates/api/src/approvals.rs:623-648 | a question about a send mints no grant, whatever the answer |
| Approvals.ATurnTravelsWithItsYeses | crates/api/src/grant.rs:112-146 | each grant a turn holds is the only one of an item a person said yes to whose record, a refusal's or one sent by hand, names that turn, for its act, keyed on its shape or the unit it offers |
| Approvals.GrantsStayOk | crates/api/src/approvals.rs:623-648 | every step keeps every grant saying what the record on its item says, whoever wrote it |
| Approvals.HeldTooLateIsNeverSent | crates/api/src/gated.rs:382-456 | a request held after its answer looked stays held for good: its yes was a grant |
| Gates.SoundIsKept | crates/api/src/gated.rs:208-456 | every step, a hold lifted by hand included, keeps holds, items and raises naming each other |
| Gates.AnInsertComesTo | crates/api/src/gated.rs:382-425 | a question is asked exactly where it was stored and no open one has its key; otherwise none is added, the hold is let go, and the raise is given what its second look found |
| Gates.OtherStepsComeTo | crates/api/src/gated.rs:208-329 | what a check, a hold taken, a giving up, a lost pod, an answer and a lift each change, and that they change no more |
| Gates.EveryHoldIsAnsweredFor | crates/api/src/gated.rs:221-425 | every hold that stands is named by exactly one open item, or in the hands of the raise that took it, or left by a failed release or a lost pod |
| Gates.AHoldIsAbandonedIff | crates/api/src/gated.rs:279-329 | a step brings about a hold that stands with no open item naming it and no raise having it, if and only if a release fails or a pod is lost with one taken |
| Gates.NothingIsAbandoned | crates/api/src/gated.rs:279-425 | where nothing fails no hold is ever left standing with nobody to lift it, on any early return or lost race |
| Gates.QuestionsAndHoldsMatch | crates/api/src/approvals.rs:128-189 | once the raises are over, in a run where nothing failed, the holds standing are exactly those of open questions that nobody lifted by hand |
| Gates.OneQuestionPerAct | migrations/0018_approval_grants.sql:160-168 | of one act of one turn at most one question is open, whatever interleaves |
| Gates.OpenIsFoundIff | crates/api/src/gated.rs:208-219 | the check finds an open question if and only if its hold was not lifted by hand |
| Gates.OneOpenQuestion | crates/api/src/gated.rs:200-219 | in every run whose overlapping raises are about one act of one turn at most one gate question is open on a conversation and held, and so at most one open where no open question's hold was lifted by hand |
| Gates.TwoOpenAfterALift | crates/api/src/router.rs:1884-1904 | a run, with no raises that overlap and nothing failing, in which a hold lifted by hand leaves two gate questions open on one conversation |
| Gates.BothAskIffActsDiffer | crates/api/src/gated.rs:397-425 | of two refusals past the check together both ask if and only if their acts or turns differ; else the loser is given what its second look finds, which is a question open there unless the look fails or the winner's hold was lifted |
| Gates.TwoActsBothAsked | crates/api/src/gated.rs:208-235 | a run that leaves one conversation with two open questions, each with its own hold |
| Gates.RefusedForAQuestionAskedByHand | crates/api/src/gated.rs:397-425 | a run in which a question asked by hand elsewhere, naming the same turn and act, has a refusal's question refused: nobody on its conversation is asked, and its hold is let go |
| Gates.GateStore.ApprovalOnSession | crates/api/src/gated.rs:208-219 | finds an approval open on the conversation, its hold standing, exactly when there is one |
| Gates.GateStore.Raise | crates/api/src/gated.rs:208-425 | a raise with nothing beside it gives the question open and held, or asks and keeps its hold, or takes back its hold and asks nobody |
| Gates.GateStore.Lift | crates/api/src/router.rs:1884-1904 | lifting a hold by hand deletes it alone, and its question stays open, unheld |
| Gates.GateStore.Answer | crates/api/src/approvals.rs:369-388 | an answer wins once, and lifts exactly its item's hold, where it still stands |
| Invocations.InvocationStore.ClaimInserted | crates/api/src/invocations.rs:80-98 | a claim's insert takes a key unseen or expired, says so exactly then, and otherwise changes nothing |
| Invocations.AClaimIsRecorded | crates/api/src/invocations.rs:80-98 | a key told new is recorded as attempted now, is in doubt since then to whoever claims it within the day, unsettled, and new again after it |
| Invocations.InvocationStore.ClaimReadBack | crates/api/src/invocations.rs:99-117 | a claim that met a record is told what the record says by then, and nothing exactly where it is gone |
| Invocations.TheAnswerIsLostIff | crates/api/src/invocations.rs:75-118 | whatever runs between its two statements, a claim is told nothing if and only if the record was deleted between, by a release or a sweep, and not claimed again |
| Invocations.ReleasedBetween | crates/api/src/invocations.rs:99-171 | a run in which a refusal's release between the two loses the answer, with no time passing |
| Invocations.ToldAsAtOnce | crates/api/src/invocations.rs:71-118 | what a claim is told otherwise, one made in a single statement at some moment between would have been told, unless the answer read was recorded after the record expired |
| Invocations.AnAnswerTooLateIsTold | crates/api/src/invocations.rs:99-171 | a run that tells an answer recorded too late, which a single statement would have told at no moment |
| Invocations.InvocationStore.SettleIn | crates/api/src/invocations.rs:141-171 | an answer is recorded, a refusal releases only an attempt, and an unknown key changes nothing |
| Invocations.InvocationStore.ForgetExpired | crates/api/src/invocations.rs:120-125 | exactly the expired records go, and the count is right |
| Invocations.ForgettingOnlyLoses | crates/api/src/invocations.rs:75-125 | with or without its sweeps, in any sequence of statements every claim is told the same, save those told nothing |
| Invocations.ForgettingChangesNoAnswerIff | crates/api/src/invocations.rs:75-125 | and every claim the same if and only if none that met a record reads it back after its sweep, where it would be there still but for the sweeps; so where every record is read back within its day |
| Invocations.AForgetAnywhereIff | crates/api/src/invocations.rs:120-125 | a sweep put anywhere, between a claim's two statements too, only loses answers, and changes none if and only if no claim reads back after it a record it took |
| Invocations.OneNewPerEpoch | crates/api/src/invocations.rs:75-118 | within a day of a first claim a key is new again only as often as a claim on it was released, whatever is read back between |
| Invocations.TheLastAnswerIsTold | crates/api/src/invocations.rs:75-171 | once an answer is recorded every claim read back before expiry is told the last one, and none is new |
| Invocations.ALateSettleIsToldIff | crates/api/src/invocations.rs:141-171 | settling an expired record changes what claims are told if and only if one that met it before reads it back, unclaimed and unswept, while it says another thing than it would have, further settles of it followed through; so never where none reads it back first |
| AgentTools.ResolvesIff | agents/default/src/lib.rs:161-173 | a name means itself where it can be loaded, and otherwise the one operation whose file is called that; two mean neither |
| AgentTools.ToolsAre | agents/default/src/lib.rs:87-104 | the tools there are are the component's own and the declared operations of any other name; those to be loaded are the ones not eager |
| AgentTools.EndsWithIff | agents/default/src/lib.rs:161-173 | a file is called so exactly where its path ends so |
| AgentTools.StringsAre | agents/default/src/lib.rs:691-729 | the names asked for are the strings of the list, in order |
| AgentTools.RequestedAre | agents/default/src/lib.rs:691-729 | and there are none where the arguments are no object with such a list |
| AgentTools.OneUnresolved | agents/default/src/lib.rs:691-729 | a name is given back exactly where it means no tool |
| AgentTools.UnresolvedAre | agents/default/src/lib.rs:691-729 | and the names given back are in the order asked |
| AgentTools.AlreadyLoaded | agents/default/src/lib.rs:805-845 | the scan of a transcript gives exactly the tools its `load_tools` calls resolve to |
| AgentTools.ResolveAll | agents/default/src/lib.rs:691-729 | each tool asked for is found once, and every name that means none is given back in order |
| AgentTools.LoadTools | agents/default/src/lib.rs:691-800 | exactly the tools the names resolve to are added, and what is told back says which were and were not |
| TurnLoop.EchoKeepsCalls | agents/default/src/lib.rs:1838-1880 | an echoed reply keeps every part's place and kind, its text, and every call's id, name and arguments but the label written for the user |
| TurnLoop.EchoInPlace | agents/default/src/lib.rs:1838-1880 | the loop that puts stripped calls back gives that echo; its fallback is never reached |
| TurnLoop.WhereATurnBegins | agents/default/src/lib.rs:1679-1712 | a turn begins with the agent's prompt and the rule that ends one, then the conversation as it was, and only where somebody has spoken |
| TurnLoop.ToolsRunIff | agents/default/src/lib.rs:1795-1830 | a round runs tools if and only if its reply has calls and gives a reason other than the limit; else nothing is run and nothing loaded |
| TurnLoop.ACutReplyIsRefused | agents/default/src/lib.rs:1795-1830 | of a reply with the limit as its reason, or none, every call is answered with its refusal and the loop goes on |
| TurnLoop.ARoundIsTranscribed | agents/default/src/lib.rs:1832-1888 | a round that runs tools adds its reply, then each call's own result under its id, then what the user said meanwhile, and no more |
| TurnLoop.AReplyWithoutCalls | agents/default/src/lib.rs:1777-1793 | a reply without calls is kept, with what the user said, only where the user said something, and otherwise ends the turn |
| TurnLoop.TheTurnEndsIff | agents/default/src/lib.rs:1732-1897 | when a round ends the turn, and with what reply or error |
| TurnLoop.OneCallMore | agents/default/src/lib.rs:1536-1575 | of a round's calls exactly those to the loader, or of a tool eager or loaded by then, are run, in order |
| TurnLoop.TranscriptIsBalanced | agents/default/src/lib.rs:1751-1888 | at every model call each assistant message's calls are followed by exactly one tool message each, same ids, same order |
| TurnLoop.LoadedIsRebuilt | agents/default/src/lib.rs:805-845 | at every round boundary what the transcript shows loaded is the loop's set and what cut-off calls asked for; equal where none was cut off |
| TurnLoop.NothingDeferredRunsUnloaded | agents/default/src/lib.rs:681-689 | a deferred tool that the loop ran is one the transcript shows loaded |
| TurnLoop.ReplyIsWhatWasStreamed | agents/default/src/bindings.rs:2803-2816 | in every run the reply is what the host streamed, piece by piece and with its own blank lines, if and only if no call failed after some of it was shown; the reply is then a prefix, and the turn fails |
| TurnLoop.RoundsAreBounded | agents/default/src/lib.rs:1732-1897 | with a limit, at most that many rounds run tools, and model calls exceed it only by rounds cut short or extended |
| TurnLoop.OfferedIsCallable | agents/default/src/lib.rs:578-588 | of the tools there are, what is offered is what is eager or loaded, and the loader where anything is deferred |
| TurnLoop.RunsUnofferedIff | agents/default/src/lib.rs:1545-1575 | a call that the check lets run was not on its round's offer if and only if the round is the last permitted, or an earlier call of the reply loaded the tool, or it is the loader with nothing deferred or no tool at all |
| TurnLoop.ARoundRunsUnoffered | agents/default/src/lib.rs:1732-1740 | the tools the loop records as run unoffered are those of each round that were run and not on its offer |
| TurnLoop.LoadedAndCalledInOneReply | agents/default/src/lib.rs:1536-1575 | a reply that loads a tool and calls it, which is run though the loader alone was offered |
| TurnLoop.Run | agents/default/src/lib.rs:1679-1897 | the loop over its variables computes the turn the claims are about |
| TurnLoop.OneRound | agents/default/src/lib.rs:1732-1897 | one round's branches, in place, are one step of that turn, and say which tools ran: none where the reply was cut short |
| TurnLoop.RunTools | agents/default/src/lib.rs:1881-1883 | the tools of a round are run in order, one answer each, loading as they go; which ran is given back, and is what the check allows |
| Utf8.FromUtf8 | agents/default/src/lib.rs:1013-1034 | the decoder says whether bytes are text by the RFC's grammar, and if not how far |
| Utf8.CharAtIff | agents/default/src/lib.rs:1013-1034 | the grammar of section 4 of RFC 3629 finds a character exactly where the bytes encode one by its section 3 |
| Utf8.Slice | agents/default/src/lib.rs:1007-1035 | the trimming loop computes the slice the claims are about |
| Utf8.NextIsNear | agents/default/src/lib.rs:999-1012 | from any byte of a text the next boundary is at most three bytes on, all of them continuing a character |
| Utf8.WindowIsValidTo | agents/default/src/lib.rs:1013-1029 | a text cut anywhere is valid exactly to its last boundary before the cut |
| Utf8.SliceBetweenBoundaries | agents/default/src/lib.rs:979-1035 | any range of a text gives the bytes between its first and last boundary, at most three short at each end; with no character in it, nothing or a refusal, each exactly when |
| Utf8.SliceIsTheWholeCharacters | agents/default/src/lib.rs:979-1035 | a range holding a whole character gives exactly the characters wholly inside it |
| ReadObject.Shares | agents/default/src/lib.rs:293-302 | the head and the tail are the shares of the budget |
| ReadObject.WindowShows | agents/default/src/lib.rs:979-1035 | a window shows the text between its boundaries, and no newline in it is lost |
| ReadObject.BothEndsAreTheFiles | agents/default/src/lib.rs:1199-1246 | the head is the bytes to the offset named, the tail all of the end's window but its first line, the windows apart, and the single-line refusal exactly where neither holds a newline |
| ReadObject.RestIsShown | agents/default/src/lib.rs:1187-1197 | what is left, where it fits, is shown whole |
| ReadObject.EndIsTheFiles | agents/default/src/lib.rs:1166-1185 | the end asked for directly is all of a file that fits, and of another all of the budget's last bytes but the first, possibly partial, line |
| ReadObject.ANamedFile | agents/default/src/lib.rs:979-998 | a file named as binary is refused exactly where its beginning would be shown, and read as any other elsewhere |
| ReadObject.ReadsAreRefusedIff | agents/default/src/lib.rs:1141-1246 | any other is refused exactly where a window that would be shown is no text |
| ReadObject.HintMovesOnIff | agents/default/src/lib.rs:1230-1246 | the offset named is further on if and only if the read did not begin at a newline followed by a line longer than a head |
| ReadObject.PiecesAreTheFile | agents/default/src/lib.rs:1187-1246 | the pieces shown by following the offsets are the rest of the file, each byte once |
| ReadObject.FollowingEndsIff | agents/default/src/lib.rs:1187-1246 | following from the beginning ends if and only if no newline is followed by a line longer than a head and one end has a newline |
| ReadObject.FollowingReadsTheFile | agents/default/src/lib.rs:1187-1246 | a text whose lines fit is read to its end, and what was shown is the text |
| ReadObject.ALongLineNamesItsOwnOffset | agents/default/src/lib.rs:1230-1246 | a file whose offset named is the one just read from |
| HexDump.HexDumpOf | agents/default/src/lib.rs:1119-1139 | the loops write the dump the claims are about |
| HexDump.Padding | agents/default/src/lib.rs:1131-1133 | the padding of a line never underflows, and puts the characters in one column |
| HexDump.ALineBegins | agents/default/src/lib.rs:1119-1139 | an offset is written in eight digits while it can be |
| HexDump.DumpReadsBack | agents/default/src/lib.rs:1119-1139 | a reader of columns gets the bytes back from any dump, each line at the offset it names, with its own characters beside it |
| HexDump.PageShows | agents/default/src/lib.rs:1089-1113 | a page is where it was asked for, or at the end, holds the budget or what is left, shows those bytes, and names a next exactly where there is more |
| HexDump.PagesAreTheFile | agents/default/src/lib.rs:1089-1113 | following the next offset and reading the dumps back gives the rest of the file |
| ForTheModel.Show | agents/default/src/lib.rs:928-972 | the loop shows what its specification says |
| ForTheModel.ThreeAnswers | agents/default/src/lib.rs:928-948 | what fits is shown whole; of the rest, only a first line too long to show anything of is not cut, and the totals told are right |
| ForTheModel.WhatEndsALine | agents/default/src/lib.rs:928-958 | a line leaves out its newline and the return before it, and nothing else; the text's end leaves out nothing |
| ForTheModel.TheMostIsShown | agents/default/src/lib.rs:949-958 | a cut result shows the longest run of whole lines within both ceilings: all shorter runs fit and no longer one, and the ceiling named is right |
| ForTheModel.NothingIsShownIff | agents/default/src/lib.rs:939-958 | nothing is shown if and only if the first line is exactly the budget |
| ForTheModel.TheOffsetIsTheRestIff | agents/default/src/lib.rs:949-971 | the offset named is where the unshown text begins if and only if no line shown lost a return, and each lost one costs a byte |
| ForTheModel.WhatIsShownIsThePrefix | agents/default/src/lib.rs:949-971 | text without returns is shown as its own prefix up to the offset, with something left |
| ForTheModel.AReturnMovesTheOffset | agents/default/src/lib.rs:949-971 | a text whose offset named is not that of the rest |
| ForTheModel.AFullFirstLineShowsNothing | agents/default/src/lib.rs:939-958 | a text of which nothing is shown |
| OperationUrl.Encode | agents/default/src/lib.rs:276-287 | the loop encodes every byte outside the unreserved set |
| OperationUrl.DecodeEncode | agents/default/src/lib.rs:276-287 | decoding what was encoded gives back any bytes |
| OperationUrl.ByteIsEncoded | agents/default/src/lib.rs:276-287 | the characters left as they are are those of section 2.3 of RFC 3986, and any other is a percent sign and two upper-case digits |
| OperationUrl.EncodedIsInert | agents/default/src/lib.rs:274-287 | an encoded value is unreserved bytes and percent signs: of these only dots, as a whole segment, mean anything to a URL |
| OperationUrl.PutParameters | agents/default/src/lib.rs:229-233 | the loop puts the parameters in one at a time |
| OperationUrl.ReplacePutsIn | agents/default/src/lib.rs:229-233 | replacing one parameter's pattern in a template with closed braces disturbs no other |
| OperationUrl.OneAtATimeIsAllAtOnce | agents/default/src/lib.rs:229-233 | one at a time is all at once, where braces are closed and names hold none |
| OperationUrl.OrderIsOfNoAccount | agents/default/src/lib.rs:229-233 | in any order the path is the same |
| OperationUrl.ThePathIsPutInAtOnce | agents/default/src/lib.rs:143-150 | the same of an operation's own path and the parameters found in it |
| OperationUrl.ValuesAddNoSegments | agents/default/src/lib.rs:143-150 | the path as built has as many segments as its template, whatever the values |
| OperationUrl.ValuesBeginNoQuery | agents/default/src/lib.rs:274-287 | no value begins a query |
| PathSegments.SegmentsSurviveIff | crates/runtime/src/component/egress.rs:61-62 | removing dot-segments leaves a path as it was if and only if none of its segments is dots, spelled out or encoded |
| PathSegments.AParameterIsASegment | agents/default/src/lib.rs:143-150 | a path's parameters are exactly the names that stand in braces as a segment of it |
| PathSegments.EncodedDots | agents/default/src/lib.rs:274-287 | an encoded value is dots if and only if the value is one dot or two |
| PathSegments.SegmentsOfThePath | agents/default/src/lib.rs:229-233 | the segments of the path built are the template's, each filled in, with what comes before the path untouched |
| PathSegments.SegmentsSurviveUnlessDots | crates/core/src/egress/gate.rs:280-296 | the segments are read as built if and only if no segment, filled in, is dots |
| PathSegments.SegmentsSurviveUnlessAValueIsDots | crates/core/src/egress/gate.rs:280-296 | where each segment is one parameter or plain text, if and only if no text is dots and no parameter is given as one dot or two |
| PublishedUrls.PublishedIsPlain | crates/api/src/skill/frontmatter.rs:934-973 | every URL that publishing accepts has closed braces, names without any, each alone in its segment, and neither query nor fragment |
| PublishedUrls.EveryPathIsPutInAtOnce | agents/default/src/lib.rs:229-233 | of every operation there is, the path is its template with all parameters in place at once, in whatever order they are put in |
| PublishedUrls.EverySegmentSurvivesIff | crates/runtime/src/component/egress.rs:61-62 | of every operation there is, the path's segments are read as built if and only if none is dots, in the template or as a parameter's value |
| PublishedUrls.EverySegmentDecodes | agents/default/src/lib.rs:229-233 | of every operation there is, a segment of the path built is the template's text, or decodes to the text of the argument given |
| PublishedUrls.EveryCallIsRead | agents/default/src/lib.rs:229-253 | of every operation there is, the URL sent splits into the path and the query that were built |
| PublishedUrls.TwoDotsTakeASegment | agents/default/src/lib.rs:274-287 | `https://h/a/{x}/b`, which can be published, given `..`: three segments are built, and one is read |
| PublishedUrls.NestedBracesDependOnTheOrder | crates/core/src/egress/gate.rs:324-335 | why publishing refuses a brace inside another: of a URL it refuses, the last segment would depend on the order of the parameters |
| OperationUrl.QueryReadsBack | agents/default/src/lib.rs:236-253 | split and decoded, a query is exactly the names and values that went in, in order, lists repeated |
| OperationUrl.TextsAre | agents/default/src/lib.rs:222-227 | a string goes as itself and anything else as its JSON text |
| OperationUrl.TheQueryHas | agents/default/src/lib.rs:234-250 | under each declared name the query has exactly what was given, a list item by item, and under any other nothing |
| OperationUrl.TheBodyHas | agents/default/src/lib.rs:255-270 | the body has exactly the declared names given and not null, each with its value |
| OperationUrl.ToldWhatIsWrong | agents/default/src/lib.rs:188-217 | what is not sent is told exactly what was missing and what the operation does not take |
| OperationUrl.MissingInOrder | agents/default/src/lib.rs:198-210 | what is missing is told in the schema's order |
| OperationUrl.SentIff | agents/default/src/lib.rs:188-221 | a request goes out if and only if everything required was given and nothing unknown was |
| OperationUrl.WhatIsSentIsRead | agents/default/src/lib.rs:229-253 | the URL sent splits into the path and the query that were built |
| Archive.SafeNameIsClean | agents/default/src/archive.rs:44-54 | a name given back has parts between single slashes, none empty, `.` or `..`, no backslash, and they are the parts kept |
| Archive.CleanIffKept | agents/default/src/archive.rs:44-54 | the names given back unchanged are exactly those |
| Archive.RefusedNameIff | agents/default/src/archive.rs:44-54 | a name is refused exactly where no part of it is a name or one is the folder above |
| Archive.SafeNameTwice | agents/default/src/archive.rs:44-54 | tidying a name twice is tidying it once |
| Archive.ExpandInto | agents/default/src/archive.rs:57-115 | the loop with its early returns expands as its specification does |
| Archive.AnyExpansion | agents/default/src/archive.rs:57-115 | for any archive and any refusals: bytes handed over within the limit however it ends, every name clean, every entry counted, and a refusal ends it only with nothing landed |
| Archive.JudgedAs | agents/default/src/archive.rs:57-115 | an entry is left out, unreadable or to be written, each exactly by its name, its declared size and its bytes |
| Archive.WhatIsExpandedIff | agents/default/src/archive.rs:57-115 | where the writer refuses nothing an archive expands if and only if it is within its limits and readable; exactly the entries to be written are, in order, and exactly those left out are told of |
| Archive.CreateInto | agents/default/src/archive.rs:123-147 | the loop archives the files in order, or fails on the first unopened, on too many, or on none |
| Archive.CreatedIff | agents/default/src/archive.rs:123-147 | there is an archive exactly where there are files, not too many, and all open, with an entry for each in order; and which failure otherwise |
| Archive.WhatGoesInComesOutIff | agents/default/src/archive.rs:57-147 | archived and expanded, files come back exactly, name and bytes, if and only if names are clean and sizes within limits |
| Archive.OneFileByItsName | agents/default/src/archive.rs:234-247 | a path that is a file archives that file alone, by its bare name |
| Archive.OtherwiseAFolder | agents/default/src/archive.rs:234-247 | any other path is a folder and all that is under it |
| Archive.InputsInOrder | agents/default/src/archive.rs:250-285 | what goes in is what was found, in order, but the archive itself |
| Archive.TargetHasOneSlash | agents/default/src/archive.rs:219-230 | however many slashes the destination ends with, one stands before the name |
| Archive.AFolderComesBack | agents/default/src/archive.rs:219-285 | a folder archived and expanded where it was puts each file back at its own path with its own bytes |
| Archive.Remote.Read | agents/default/src/archive.rs:164-175 | a read gives the next bytes and moves past them; nothing exactly at the end, with no buffer, or with whole words left |
| Archive.Remote.Seek | agents/default/src/archive.rs:178-191 | a seek lands where it says, or is refused before the start |
| Archive.ReadsItAllIff | agents/default/src/archive.rs:164-175 | reading to the end gives the rest if and only if the rest is less than a word |
| EgressRules.RulesStayOk | crates/api/src/egress.rs:307-777 | every operation keeps every rule's meaning, whatever ran between its read and its write |
| EgressRules.RulesAreAlwaysOk | crates/api/src/egress.rs:307-777 | the same over every run |
| EgressRules.TheTableRefusesIff | crates/api/src/egress.rs:586-707 | read and written in one, an operation is refused by the table's constraints in exactly one case |
| EgressRules.ARuleIsMadeIff | crates/api/src/egress.rs:307-475 | a rule is made if and only if it would mean what it says, its header and credential may be used there, and its host has none; which refusal otherwise |
| EgressRules.ACredentialIsSetIff | crates/api/src/egress.rs:486-577 | a credential is put on or off if and only if the rule would still mean what it says; and exactly what then changes |
| EgressRules.AnOwnerIsSetIff | crates/api/src/egress.rs:586-677 | a rule is made each person's exactly where a header for their keys can be had; and exactly what then changes |
| EgressRules.AnOwnerIsTakenBack | crates/api/src/egress.rs:678-712 | a rule given back keeps its header only with a credential, and exactly the keys connected for it are revoked |
| EgressRules.AskingIsSaidIff | crates/api/src/egress.rs:719-780 | who is asking is said exactly of an agent's rule to one host that carries something |
| EgressRules.AKeyIsStoredIff | crates/api/src/connections.rs:130-225 | a person's key is stored exactly where it is sealed for them, that workspace alone, and the rule's host and header, and exactly theirs before it is revoked; which refusal otherwise |
| EgressRules.WhatIsRevoked | crates/api/src/connections.rs:227-246 | disconnecting, leaving and revoking each revoke exactly their keys |
| EgressRules.KeysOfTheWorkspace | crates/api/src/credentials.rs:190-335 | the workspace's own keys are stored and rotated exactly where they are nobody's; a rule removed takes its keys with it |
| EgressRules.WhatIsReadOnceStays | crates/api/src/egress.rs:486-780 | no operation changes a rule's workspace, host, environment or exchange, so that what was read of them stays true |
| EgressRules.KeysStayOkIff | crates/api/src/connections.rs:130-225 | whatever ran between its read and its write, an operation keeps each live personal key its owner's, sealed for its rule, one live per person and rule, if and only if it strands none |
| EgressRules.NothingStrandsInOne | crates/api/src/egress.rs:486-712 | read and written in one, no operation strands a key |
| EgressRules.KeysAreAlwaysTheirsIff | crates/api/src/connections.rs:130-247 | over every run the keys are so throughout if and only if no operation strands one |
| EgressRules.HowItWasConnected | crates/api/src/egress.rs:586-712 | the run the next two begin from: a rule read while it was the agent's, given to each person since, and a key connected for it |
| EgressRules.ACredentialSetLateStrands | crates/api/src/egress.rs:486-577 | a credential put on the rule as it was read replaces the header, and the live key attaches no more |
| EgressRules.AnOwnerSetLateStrands | crates/api/src/egress.rs:586-712 | the rule as it was read made each person's in another header does the same |
| EgressRules.AKeyStoredLateStrands | crates/api/src/connections.rs:138-211 | a key stored for a rule given back to the agent since is live on a rule nobody's key is for |
| EgressRules.ATurnIsGivenIff | crates/api/src/egress.rs:61-104 | a turn, whoever sent it, is given exactly the enabled rules of its workspace, but for one that is each person's and has no workspace credential where nobody sent it; an agent's as it is |
| EgressRules.ATurnCarriesItsAskersKeys | crates/api/src/egress.rs:61-104 | no turn carries another person's key, and an asker's rule resolves to exactly that person's live key or none |
| EgressRules.ATurnNobodySent | crates/api/src/egress.rs:90-103 | a turn nobody sent reaches a person's host exactly where the workspace keeps a credential for it |
| EgressRules.BackToTheAgentRevokesAll | crates/api/src/egress.rs:678-700 | giving a rule back to the agent revokes exactly the keys connected for it |
| EgressRules.GenerationsTellKeysApart | crates/api/src/credentials.rs:269-335 | a key never changes, revives or is wiped without its generation growing |
| EgressRules.EgressStore.ReadRule | crates/api/src/egress.rs:486-500 | a handler's read gives the rule of that workspace, or none |
| EgressRules.EgressStore.Create | crates/api/src/egress.rs:307-475 | a rule is created as the operation says, or refused as it says, changing nothing |
| EgressRules.EgressStore.SetCredential | crates/api/src/egress.rs:486-577 | given what was read, a credential is put on or off as the operation says, or refused as it says; the keys stay good if and only if it strands none |
| EgressRules.EgressStore.SetOwner | crates/api/src/egress.rs:586-712 | the same for changing whose connection it is, revocations included |
| EgressRules.EgressStore.SetOnBehalfOf | crates/api/src/egress.rs:719-780 | the same for saying who is asking |
| EgressRules.EgressStore.Connect | crates/api/src/connections.rs:130-225 | the same for storing a person's key in place of the last |
| EgressRules.EgressStore.Disconnect | crates/api/src/connections.rs:227-246 | exactly that person's live key is revoked, and it says whether there was one |
| Hollowbrook.AlwaysValid | src/bin/hollowbrook.rs:455-600 | over every run of bookings, charges and resets, stays of a room are apart, charges within totals, and keyed charges taken once |
| Hollowbrook.CoveredStill | src/bin/hollowbrook.rs:569-600 | an accepted charge keeps its booking within its total, without wrapping |
| Hollowbrook.NoNightIsSoldTwice | src/bin/hollowbrook.rs:466-486 | no night of a room is in two bookings; leaving as another arrives is no clash |
| Hollowbrook.OfferedIsBookable | src/bin/hollowbrook.rs:388-486 | the rooms offered are exactly those a booking is accepted for, at the same total, and dates are refused alike |
| Hollowbrook.AStayIsTakenIff | src/bin/hollowbrook.rs:455-493 | a stay is taken exactly where there is the room, the stay is ahead and of a night or more, and no night of it is booked |
| Hollowbrook.ABookingIsAdded | src/bin/hollowbrook.rs:455-493 | a booking is the only change, and which refusal otherwise |
| Hollowbrook.AStayTotals | src/bin/hollowbrook.rs:481-481 | a stay totals its rate for each night where thirty-two bits can say it |
| Hollowbrook.AChargeIsTakenIff | src/bin/hollowbrook.rs:515-600 | money is taken exactly for a booking that stands, to a known card, of some amount within the ceiling, of an unused key; and it is the charge asked for |
| Hollowbrook.OtherwiseRefused | src/bin/hollowbrook.rs:515-600 | which refusal otherwise; and a reset clears the bookings alone |
| Hollowbrook.RefusedAsTooMuchIff | src/bin/hollowbrook.rs:569-582 | a charge is refused as too much if and only if it passes the total and the total is short of the top of the range |
| Hollowbrook.NoCeilingAtTheTop | src/bin/hollowbrook.rs:577-582 | a booking charged a penny more than its total |
| Hollowbrook.TheHouseIsNeverAtTheTop | src/bin/hollowbrook.rs:229-264 | no stay at the house's rates totals the top of the range, even where it wraps |
| Hollowbrook.NoGuestIsOvercharged | src/bin/hollowbrook.rs:229-600 | in the house, over every run of bookings, charges and resets, no booking that stands is charged more than its total |
| Hollowbrook.AKeyIsChargedOnce | src/bin/hollowbrook.rs:532-560 | a keyed charge repeated after anything at all changes nothing and gives the first charge while its booking stands |
| Hollowbrook.AKeyIsForOneCharge | src/bin/hollowbrook.rs:543-560 | the same key for another charge is refused, for that reason, and changes nothing |
| Hollowbrook.Fixture.CreateBooking | src/bin/hollowbrook.rs:455-493 | a booking is taken or refused as the ledger says, and only the bookings change |
| Hollowbrook.Fixture.Already | src/bin/hollowbrook.rs:571-576 | the loop sums a booking's charges round the top of the word |
| Hollowbrook.Fixture.CreateCharge | src/bin/hollowbrook.rs:515-600 | a charge is taken, repeated or refused as the ledger says, and only the charges change |
| Hollowbrook.Fixture.Reset | src/bin/hollowbrook.rs:675-678 | a reset clears the bookings and keeps the charges |
| Paging.FromRows | crates/api/src/lib.rs:80-89 | truncating and reading the last row gives the page |
| Paging.APageHolds | crates/api/src/credentials.rs:246-246 | a page holds what was asked for from one to five hundred, and a hundred where nothing was |
| Paging.APageAndTheRest | crates/api/src/lib.rs:72-89 | a page is the beginning of what is left and names a next exactly where rows are left, which are those the next starts from |
| Paging.NoRowTwice | crates/api/src/credentials.rs:246-260 | however the table changes between pages, no row is given twice |
| Paging.NoRowMissed | crates/api/src/credentials.rs:246-260 | and no row there throughout is missed |
| Paging.EveryRowOnce | crates/api/src/credentials.rs:246-260 | a table that does not change is given whole, once, in order, and following ends |

## Left out

- HTTP handlers, authentication, authorities, tracing, cookies and start-up: plumbing around the statements modelled.
- Cryptography: seals, HPKE, SHA-256 and identifiers are what they are assumed to be above.
- The zip format, base64 and JSON text: an archive is its entries, JSON a small datatype, a value's JSON text is given.
- The wording of messages, tool results and warnings; the repeat-failure warning of the turn loop.
- Risk bands, routes, trial policies and who may answer: they decide who is asked, not what an answer is worth.
- A document's extracted text, image description, PDF rendering, timers and fetching in the default agent.
- Spending a grant, and grants whose extent a build does not know.
- Webhooks, the fixture's specification document, and the check of a header's name against the gateway's own list.
- HeldRequests.HeldStore.Report: the read and the update are one step here; they are two in `HeldProtocol`, whose claims allow anything between.
- HeldRequests.HeldStore.Recover: the list and its settles are one step here, and none fails; they are apart in `HeldProtocol`.
- HeldProtocol.TriesAreBounded: assumes serial turns, since stale reads pass the bound; the exact condition on a run is `HeldProtocol.BoundedThroughoutIff`.
- HeldProtocol.FinalIsForever: a send already marked when the request became final may still land; no new mark is made.
- HeldProtocol.LandsAtMostOncePerYes: a request whose recipient dedupes on a key may be sent again after no answer, as the source intends, and is not counted.
- Gates.OneOpenQuestion: a sufficient condition on which raises overlap; what two refusals past the check together come to is exact in `Gates.BothAskIffActsDiffer`.
- Gates.GateStore.Raise: one raise with nothing beside it; what others do between its steps is in the events of the module.
- Invocations.ToldAsAtOnce: one way only; an answer recorded after expiry may happen to be one the record gave before.
- OperationUrl.OneAtATimeIsAllAtOnce: one way only; of a template that publishing refuses, braces opened inside braces may still come out the same, depending on the values.
- OperationUrl.ThePathIsPutInAtOnce: one way only, for the same reason; of what publishing accepts `PublishedUrls.EveryPathIsPutInAtOnce` has no such condition.
- PublishedUrls.EverySegmentSurvivesIff: of a URL written with its `//` and without backslashes, tabs or newlines; the rest of URL parsing is not part of this model.
- Archive.WhatGoesInComesOutIff: the names of the files are not required to differ, as the zip writer requires.
- EgressRules.EgressStore.SetCredential: the workspace's credential named is looked up as the rule is written, not when the rule is read.
- EgressRules.EgressStore.SetOwner: the binding of the rule's credential is looked up as the rule is written, not when the rule is read.
- EgressRules.RulesStayOk: a workspace credential replaced by one sealed for another host stays named by its rule; the gateway refuses it on each request.
- Hollowbrook.AlwaysValid: booking ids are assumed new, though the service takes them from the front of a time-ordered identifier.
- Hollowbrook.Fixture.CreateCharge: the lock on the bookings is let go before the lock on the charges is taken; here both are one step.
- Paging.EveryRowOnce: one order, by id; lists ordered otherwise use their own cursor.
