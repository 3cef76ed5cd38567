/** The life of held requests under lost runtimes, stale reports and people's
    decisions, in any order.

    Each handler is split where the source splits it: a report or a recovery
    reads the row in one step and updates it in another, and anything may happen
    between the two; or the update is never made, where the database fails or the
    pod is lost. What the runtime promises is part of what a step requires:
    it sends only under a mark, sends at most once under each, reports each mark
    at most once, and says `NeverSent` or `Refused` only of a send that did not
    and will not land. */
module HeldProtocol {
  import opened Basics
  import opened HeldRequests

  /** Where a pending update came from: a runtime's report of one mark, or one
      pass of recovery before a turn. */
  datatype Source = FromReport(mark: Id) | FromRecovery(pass: Id)

  /** What a handler holds between its read and its update. */
  datatype Seen = Seen(outcome: Outcome, attempts: int)

  /** A request and everything that happened to it. Beside the row, which the
      database holds, are the facts the claims are about. */
  datatype Request = Request(
    row: Row,
    yeses: nat,                 // decisions that approved it: approve and resend
    marks: set<Id>,             // each time it was marked as going
    marksSinceYes: nat,         // those since the last yes
    landed: set<Id>,            // marks whose send reached the recipient
    dead: set<Id>,              // marks reported as never having landed
    reported: set<Id>,          // marks a report was made about
    returned: set<Id>,          // dead marks whose report gave the request back to be sent
    seen: map<Source, Seen>)    // updates read for and not yet made

  function Raised(row: Row): Request {
    Request(row, 0, {}, 0, {}, {}, {}, {}, map[])
  }

  datatype Event =
    | Decided(decision: Decision, who: Option<Id>)
    | Marked(mark: Id, job: Id)
    | Landed(mark: Id)
    | ReportRead(mark: Id, outcome: Outcome)
    | RecoveryRead(pass: Id, lost: string)
    | Committed(source: Source, keyed: bool)
    | Dropped(source: Source)                  // read for, and never to be made
    | Moved(item: Id)

  predicate NothingLanded(o: Outcome) {
    o.NeverSent? || o.Refused?
  }

  /** What the environment may do next. */
  predicate Enabled(q: Request, e: Event) {
    match e
    case Decided(_, _) => true
    case Marked(mark, _) => mark !in q.marks
    case Landed(mark) => mark in q.marks && mark !in q.landed && mark !in q.dead
    case ReportRead(mark, outcome) =>
      mark in q.marks && mark !in q.reported && (NothingLanded(outcome) ==> mark !in q.landed)
    case RecoveryRead(pass, _) => FromRecovery(pass) !in q.seen
    case Committed(source, _) => source in q.seen
    case Dropped(source) => source in q.seen
    case Moved(_) => true
  }

  function Apply(q: Request, e: Event): Request {
    match e
    case Decided(d, who) =>
      if Decides(q.row, d) && Approving(d)
      then q.(row := DecideRow(q.row, d, who), yeses := q.yeses + 1, marksSinceYes := 0)
      else q.(row := DecideRow(q.row, d, who))
    case Marked(mark, job) =>
      if q.row.state == Approved
      then q.(row := MarkRow(q.row, job), marks := q.marks + {mark}, marksSinceYes := q.marksSinceYes + 1)
      else q
    case Landed(mark) =>
      q.(landed := q.landed + {mark})
    case ReportRead(mark, outcome) =>
      var q' := q.(reported := q.reported + {mark},
                   dead := if NothingLanded(outcome) then q.dead + {mark} else q.dead);
      if Live(q.row)
      then q'.(seen := q.seen[FromReport(mark) := Seen(outcome, q.row.attempts)])
      else q'
    case RecoveryRead(pass, lost) =>
      if q.row.state == Sending
      then q.(seen := q.seen[FromRecovery(pass) := Seen(NoAnswer(lost), q.row.attempts)])
      else q
    case Committed(source, keyed) =>
      if source !in q.seen then q else
        var s := q.seen[source];
        var q' := q.(row := SettleRow(q.row, s.outcome, s.attempts, keyed), seen := q.seen - {source});
        if Live(q.row) && source.FromReport? && NextFor(s.outcome, s.attempts, keyed) == Again
        then q'.(returned := q.returned + {source.mark})
        else q'
    case Dropped(source) =>
      q.(seen := q.seen - {source})
    case Moved(item) =>
      q.(row := MoveRow(q.row, item))
  }

  /** `q'` is where the events take `q`, each allowed when it came. */
  ghost predicate Follows(q: Request, events: seq<Event>, q': Request)
    decreases events
  {
    if events == [] then q == q'
    else Enabled(q, events[0]) && Follows(Apply(q, events[0]), events[1..], q')
  }

  /** The recipient never dedupes: no update is made as if it did. */
  ghost predicate NeverKeyed(events: seq<Event>) {
    forall e :: e in events && e.Committed? ==> !e.keyed
  }

  // ---- A yes is worth one landing ------------------------------------------------

  /** Every mark either paid for by a yes, or by a return whose own mark never
      landed. */
  ghost predicate Accounted(q: Request) {
    && q.landed <= q.marks && q.reported <= q.marks && q.dead <= q.reported
    && q.landed !! q.dead
    && q.returned <= q.dead
    && |q.marks| + (if q.row.state == Approved then 1 else 0) <= q.yeses + |q.returned|
    && (forall m :: FromReport(m) in q.seen ==>
          m in q.reported && m !in q.returned &&
          (NothingLanded(q.seen[FromReport(m)].outcome) ==> m in q.dead))
    && (forall p :: FromRecovery(p) in q.seen ==> q.seen[FromRecovery(p)].outcome.NoAnswer?)
  }

  lemma AccountedAtFirst(row: Row)
    requires row.state == Held
    ensures Accounted(Raised(row))
  {
  }

  lemma AccountedAfterCommit(q: Request, source: Source)
    requires Accounted(q) && source in q.seen
    ensures Accounted(Apply(q, Committed(source, false)))
  {
    var s := q.seen[source];
    var q' := Apply(q, Committed(source, false));
    assert forall k :: k in q'.seen <==> k in q.seen && k != source;
    if q'.returned != q.returned {
      assert s.outcome.NeverSent? && source.mark in q.dead;
      assert |q'.returned| == |q.returned| + 1;
    }
  }

  lemma AccountedAfterReport(q: Request, mark: Id, outcome: Outcome)
    requires Accounted(q) && Enabled(q, ReportRead(mark, outcome))
    ensures Accounted(Apply(q, ReportRead(mark, outcome)))
  {
  }

  lemma AccountedAfterAnother(q: Request, e: Event)
    requires Accounted(q) && Enabled(q, e) && !e.Committed? && !e.ReportRead?
    ensures Accounted(Apply(q, e))
  {
  }

  lemma AccountedIsKept(q: Request, e: Event)
    requires Accounted(q) && Enabled(q, e) && (e.Committed? ==> !e.keyed)
    ensures Accounted(Apply(q, e))
  {
    match e
    case Committed(source, _) => AccountedAfterCommit(q, source);
    case ReportRead(mark, outcome) => AccountedAfterReport(q, mark, outcome);
    case RecoveryRead(_, _) => AccountedAfterAnother(q, e);
    case Dropped(_) => AccountedAfterAnother(q, e);
    case Decided(_, _) => AccountedAfterAnother(q, e);
    case Marked(_, _) => AccountedAfterAnother(q, e);
    case Landed(_) => AccountedAfterAnother(q, e);
    case Moved(_) => AccountedAfterAnother(q, e);
  }

  lemma {:induction false} AccountedAlways(q: Request, events: seq<Event>, q': Request)
    requires Accounted(q) && Follows(q, events, q') && NeverKeyed(events)
    ensures Accounted(q')
    decreases events
  {
    if events != [] {
      AccountedIsKept(q, events[0]);
      AccountedAlways(Apply(q, events[0]), events[1..], q');
    }
  }

  /** The main claim: whatever is lost, stale or repeated, a request whose
      recipient does not dedupe lands at most as often as people said yes, and
      while it waits to be sent again one yes is still unspent. */
  lemma LandsAtMostOncePerYes(row: Row, events: seq<Event>, q: Request)
    requires row.state == Held
    requires Follows(Raised(row), events, q) && NeverKeyed(events)
    ensures |q.landed| <= q.yeses
    ensures q.row.state == Approved ==> |q.landed| < q.yeses
  {
    AccountedAtFirst(row);
    AccountedAlways(Raised(row), events, q);
    DisjointPartsFit(q.landed, q.dead, q.marks);
    SubsetSize(q.returned, q.dead);
  }

  // ---- What a send comes to ---------------------------------------------------------

  /** The state an update leaves a request in that may still be settled, by what was
      said of the send and the tries read with it. */
  lemma AnUpdateComesTo(q: Request, source: Source, keyed: bool)
    requires source in q.seen && (q.row.state == Approved || q.row.state == Sending)
    ensures var said, tries, r := q.seen[source].outcome, q.seen[source].attempts, Apply(q, Committed(source, keyed)).row;
            && (said.Answered? ==> r.state == Spent)
            && (said.Refused? ==> r.state == Unsent)
            && (said.NoAnswer? && !keyed ==> r.state == Unknown)
            && (said.NeverSent? || (said.NoAnswer? && keyed) ==> r.state == if tries + 1 < 3 then Approved else Unsent)
            && r.outcome == Some(said)
  {
  }

  /** An update still to be made is of what was read for it, whatever else happens. */
  lemma {:induction false} StillToBeMade(q: Request, events: seq<Event>, q': Request, source: Source)
    requires Follows(q, events, q') && source in q.seen && (source.FromReport? ==> source.mark in q.reported)
    requires forall e :: e in events && (e.Committed? || e.Dropped?) ==> e.source != source
    ensures source in q'.seen && q'.seen[source] == q.seen[source]
    decreases events
  {
    if events != [] {
      StillToBeMade(Apply(q, events[0]), events[1..], q', source);
    }
  }

  /** From a report to its update, whatever happens between: a live request answered
      ends spent, one refused goes to a person, one that never left is sent again
      while the tries read allow it, and one nobody answered for is sent again only
      where the recipient dedupes. */
  lemma AReportComesTo(q: Request, mark: Id, said: Outcome, events: seq<Event>, q': Request, keyed: bool)
    requires Enabled(q, ReportRead(mark, said)) && (q.row.state == Approved || q.row.state == Sending)
    requires Follows(Apply(q, ReportRead(mark, said)), events, q')
    requires forall e :: e in events && (e.Committed? || e.Dropped?) ==> e.source != FromReport(mark)
    ensures FromReport(mark) in q'.seen
    ensures var r := Apply(q', Committed(FromReport(mark), keyed)).row;
            if q'.row.state != Approved && q'.row.state != Sending then r == q'.row
            else r.state == if said.Answered? then Spent
                            else if said.NoAnswer? && !keyed then Unknown
                            else if !said.Refused? && q.row.attempts + 1 < 3 then Approved else Unsent
  {
    StillToBeMade(Apply(q, ReportRead(mark, said)), events, q', FromReport(mark));
    if q'.row.state == Approved || q'.row.state == Sending {
      AnUpdateComesTo(q', FromReport(mark), keyed);
    }
  }

  /** And from a recovery, of a request that was going when its turn was lost. */
  lemma ARecoveryComesTo(q: Request, pass: Id, lost: string, events: seq<Event>, q': Request, keyed: bool)
    requires Enabled(q, RecoveryRead(pass, lost)) && q.row.state == Sending
    requires Follows(Apply(q, RecoveryRead(pass, lost)), events, q')
    requires forall e :: e in events && (e.Committed? || e.Dropped?) ==> e.source != FromRecovery(pass)
    ensures FromRecovery(pass) in q'.seen
    ensures var r := Apply(q', Committed(FromRecovery(pass), keyed)).row;
            if q'.row.state != Approved && q'.row.state != Sending then r == q'.row
            else r.state == if !keyed then Unknown else if q.row.attempts + 1 < 3 then Approved else Unsent
  {
    StillToBeMade(Apply(q, RecoveryRead(pass, lost)), events, q', FromRecovery(pass));
    if q'.row.state == Approved || q'.row.state == Sending {
      AnUpdateComesTo(q', FromRecovery(pass), keyed);
    }
  }

  /** A read that has no update to make: a recovery, of a request nobody is sending,
      and a report, of one that may be settled no more. */
  lemma ReadsThatSettleNothing(q: Request, e: Event)
    requires Enabled(q, e)
    ensures e.RecoveryRead? && q.row.state != Sending ==> Apply(q, e) == q
    ensures e.ReportRead? && q.row.state != Approved && q.row.state != Sending ==> Apply(q, e).row == q.row && Apply(q, e).seen == q.seen
  {
  }

  /** A request answered is never sent again: once the answer is written there is no
      mark more, nor a yes, in any continuation. */
  lemma AnsweredIsNeverSentAgain(q: Request, source: Source, keyed: bool, events: seq<Event>, q': Request)
    requires source in q.seen && q.seen[source].outcome.Answered? && (q.row.state == Approved || q.row.state == Sending)
    requires Follows(Apply(q, Committed(source, keyed)), events, q')
    ensures q'.row.state == Spent && q'.marks == q.marks && q'.yeses == q.yeses
  {
    AnUpdateComesTo(q, source, keyed);
    FinalIsForever(Apply(q, Committed(source, keyed)), events, q');
  }

  // ---- What is settled stays settled ---------------------------------------------

  predicate Final(s: State) {
    s == Declined || s == Spent || s == Done
  }

  /** A request declined, answered or done is never marked as going again, in
      any continuation, so nothing new is sent for it. */
  lemma {:induction false} FinalIsForever(q: Request, events: seq<Event>, q': Request)
    requires Final(q.row.state) && Follows(q, events, q')
    ensures q'.row.state == q.row.state && q'.marks == q.marks && q'.yeses == q.yeses
    decreases events
  {
    if events != [] {
      FinalIsForever(Apply(q, events[0]), events[1..], q');
    }
  }

  /** A request nobody has said yes to has not been sent. */
  lemma NothingBeforeAYes(row: Row, events: seq<Event>, q: Request)
    requires row.state == Held && Follows(Raised(row), events, q) && NeverKeyed(events)
    requires q.yeses == 0
    ensures q.landed == {}
  {
    LandsAtMostOncePerYes(row, events, q);
  }

  // ---- Tries are bounded while turns are serial ------------------------------------

  /** The update sees the count its read saw, as when nothing settled the
      request between the two. */
  predicate Current(q: Request, e: Event) {
    e.Committed? && e.source in q.seen && Live(q.row) ==> q.seen[e.source].attempts == q.row.attempts
  }

  ghost predicate Serial(q: Request, events: seq<Event>)
    decreases events
  {
    events == [] || (Current(q, events[0]) && Serial(Apply(q, events[0]), events[1..]))
  }

  /** Turns of a conversation are serial: a report or a recovery does not read the
      row while another's update is still to be made. One that failed is not: it is
      dropped, and the next turn reads again. People decide, and the runtime marks
      and sends, at any moment. */
  ghost predicate TurnsAreSerial(q: Request, events: seq<Event>)
    decreases events
  {
    events == [] || (&& (events[0].ReportRead? || events[0].RecoveryRead? ==> q.seen == map[])
                     && TurnsAreSerial(Apply(q, events[0]), events[1..]))
  }

  /** The one update still to be made is of a request that may be settled, and
      read the count the row has. */
  ghost predicate PendingIsCurrent(q: Request) {
    && (forall a, b :: a in q.seen && b in q.seen ==> a == b)
    && (forall a :: a in q.seen ==> Live(q.row) && q.seen[a].attempts == q.row.attempts)
  }

  lemma PendingStaysCurrent(q: Request, e: Event)
    requires PendingIsCurrent(q) && Enabled(q, e) && (e.ReportRead? || e.RecoveryRead? ==> q.seen == map[])
    ensures PendingIsCurrent(Apply(q, e))
  {
  }

  /** Where turns are serial, every update sees the current count: nothing else
      writes it between. */
  lemma {:induction false} SerialTurnsSeeTheCount(q: Request, events: seq<Event>, q': Request)
    requires PendingIsCurrent(q) && Follows(q, events, q') && TurnsAreSerial(q, events)
    ensures Serial(q, events)
    decreases events
  {
    if events != [] {
      PendingStaysCurrent(q, events[0]);
      SerialTurnsSeeTheCount(Apply(q, events[0]), events[1..], q');
    }
  }

  predicate Bounded(q: Request) {
    && 0 <= q.row.attempts <= MAX_ATTEMPTS
    && (Live(q.row) ==> q.row.attempts < MAX_ATTEMPTS)
    && q.marksSinceYes <= MAX_ATTEMPTS
    && (q.row.state == Approved ==> q.marksSinceYes <= q.row.attempts)
    && (q.row.state == Sending ==> q.marksSinceYes <= q.row.attempts + 1)
  }

  /** The exact condition on one update: it keeps the bound unless the count it
      read allows another try and the count in the row does not. */
  lemma CommitKeepsBoundIff(q: Request, source: Source, keyed: bool)
    requires Bounded(q) && source in q.seen
    ensures Bounded(Apply(q, Committed(source, keyed))) <==>
            !(Live(q.row) && q.row.attempts + 1 >= MAX_ATTEMPTS &&
              NextFor(q.seen[source].outcome, q.seen[source].attempts, keyed) == Again)
  {
  }

  /** An update that gives a request back to be sent, by a count that allows it,
      where the row's own count does not. */
  predicate Overruns(q: Request, e: Event) {
    && e.Committed? && e.source in q.seen && Live(q.row) && q.row.attempts + 1 >= MAX_ATTEMPTS
    && NextFor(q.seen[e.source].outcome, q.seen[e.source].attempts, e.keyed) == Again
  }

  lemma BoundedIsKeptIff(q: Request, e: Event)
    requires Bounded(q) && Enabled(q, e)
    ensures Bounded(Apply(q, e)) <==> !Overruns(q, e)
  {
    if e.Committed? {
      CommitKeepsBoundIff(q, e.source, e.keyed);
    }
  }

  ghost predicate OverrunsNowhere(q: Request, events: seq<Event>)
    decreases events
  {
    events == [] || (!Overruns(q, events[0]) && OverrunsNowhere(Apply(q, events[0]), events[1..]))
  }

  ghost predicate BoundedThroughout(q: Request, events: seq<Event>)
    decreases events
  {
    Bounded(q) && (events == [] || BoundedThroughout(Apply(q, events[0]), events[1..]))
  }

  /** Over every run, stale counts and lost updates and all: the bound holds
      throughout if and only if no update overruns it. */
  lemma {:induction false} BoundedThroughoutIff(q: Request, events: seq<Event>, q': Request)
    requires Bounded(q) && Follows(q, events, q')
    ensures BoundedThroughout(q, events) <==> OverrunsNowhere(q, events)
    ensures BoundedThroughout(q, events) ==> Bounded(q')
    decreases events
  {
    if events != [] {
      BoundedIsKeptIff(q, events[0]);
      if !Overruns(q, events[0]) {
        BoundedThroughoutIff(Apply(q, events[0]), events[1..], q');
      }
    }
  }

  /** Where every update sees the current count, none overruns it. */
  lemma {:induction false} CurrentCountsDoNotOverrun(q: Request, events: seq<Event>, q': Request)
    requires Bounded(q) && Follows(q, events, q') && Serial(q, events)
    ensures OverrunsNowhere(q, events)
    decreases events
  {
    if events != [] {
      BoundedIsKeptIff(q, events[0]);
      CurrentCountsDoNotOverrun(Apply(q, events[0]), events[1..], q');
    }
  }

  /** Where turns are serial, after each yes a request is marked at most
      `MAX_ATTEMPTS` times before it is answered or back with a person, and
      `attempts` never passes the maximum -- whether or not the recipient
      dedupes. */
  lemma TriesAreBounded(row: Row, events: seq<Event>, q: Request)
    requires row.state == Held && row.attempts == 0
    requires Follows(Raised(row), events, q) && TurnsAreSerial(Raised(row), events)
    ensures q.marksSinceYes <= MAX_ATTEMPTS
    ensures q.row.attempts <= MAX_ATTEMPTS
    ensures Live(q.row) ==> q.row.attempts < MAX_ATTEMPTS
  {
    SerialTurnsSeeTheCount(Raised(row), events, q);
    CurrentCountsDoNotOverrun(Raised(row), events, q);
    BoundedThroughoutIff(Raised(row), events, q);
  }

  /** What a settled try costs: while the update sees the current count, each
      return to `approved` uses up one of the tries left, and when none is left
      the request goes to a person or is spent. */
  lemma EachReturnCostsATry(q: Request, source: Source, keyed: bool)
    requires Bounded(q) && Live(q.row) && source in q.seen
    requires Current(q, Committed(source, keyed))
    ensures var q' := Apply(q, Committed(source, keyed));
            if q'.row.state == Approved
            then MAX_ATTEMPTS - q'.row.attempts == MAX_ATTEMPTS - q.row.attempts - 1 > 0
            else q'.row.state in {Spent, Unsent, Unknown}
  {
  }

  // ---- Where the bounds end ----------------------------------------------------------

  lemma {:induction false} Then(q: Request, events: seq<Event>, q': Request, e: Event)
    requires Follows(q, events, q') && Enabled(q', e)
    ensures Follows(q, events + [e], Apply(q', e))
    decreases events
  {
    if events == [] {
      assert Follows(Apply(q, e), [], Apply(q, e));
      assert [e][1..] == [];
    } else {
      Then(Apply(q, events[0]), events[1..], q', e);
      assert (events + [e])[1..] == events[1..] + [e];
    }
  }

  lemma Go(first: Request, events: seq<Event>, q: Request, e: Event) returns (events': seq<Event>, q': Request)
    requires Follows(first, events, q) && Enabled(q, e)
    ensures q' == Apply(q, e) && Follows(first, events', q')
  {
    Then(first, events, q, e);
    events', q' := events + [e], Apply(q, e);
  }

  /** A report read and not yet written while its request is recovered and a
      person asks for it to be sent again. */
  lemma ReportOutlivesAYes(row: Row, never: Outcome) returns (events: seq<Event>, q: Request)
    requires row.state == Held && row.attempts == 0 && never.NeverSent?
    ensures Follows(Raised(row), events, q)
    ensures q.row.state == Approved && q.row.attempts == 0 && q.marksSinceYes == 0
    ensures q.landed == {} && q.marks == q.reported == {1} && q.seen == map[FromReport(1) := Seen(never, 0)]
  {
    var first := Raised(row);
    events, q := [], first;
    events, q := Go(first, events, q, Decided(Approve, None));
    events, q := Go(first, events, q, Marked(1, 1));
    events, q := Go(first, events, q, ReportRead(1, never));
    events, q := Go(first, events, q, RecoveryRead(1, ""));
    events, q := Go(first, events, q, Committed(FromRecovery(1), false));
    events, q := Go(first, events, q, Decided(Resend, None));
  }

  /** One turn of the wheel: the request is marked and the new mark's report
      read, and then the report still out is written. */
  lemma MarkReadCommit(first: Request, events: seq<Event>, q: Request, stale: Id, mark: Id, never: Outcome)
    returns (events': seq<Event>, q': Request)
    requires Follows(first, events, q) && never.NeverSent? && mark != stale
    requires q.row.state == Approved && mark !in q.marks && mark !in q.landed && mark !in q.reported
    requires q.seen.Keys == {FromReport(stale)}
    requires q.seen[FromReport(stale)].outcome == never && q.seen[FromReport(stale)].attempts < MAX_ATTEMPTS - 1
    ensures Follows(first, events', q')
    ensures q'.row.state == Approved && q'.row.attempts == q.row.attempts + 1
    ensures q'.marksSinceYes == q.marksSinceYes + 1
    ensures q'.marks == q.marks + {mark} && q'.reported == q.reported + {mark} && q'.landed == q.landed
    ensures q'.seen == map[FromReport(mark) := Seen(never, q.row.attempts)]
  {
    events', q' := Go(first, events, q, Marked(mark, mark));
    events', q' := Go(first, events', q', ReportRead(mark, never));
    events', q' := Go(first, events', q', Committed(FromReport(stale), false));
  }

  /** Reports read before a yes and written after it pass the bound: here a
      request is marked a fourth time after one resend, with three tries
      already counted. Nothing in `settle` compares the count it read with the
      row's. */
  lemma StaleReadsPassTheBound(row: Row) returns (events: seq<Event>, q: Request)
    requires row.state == Held && row.attempts == 0
    ensures Follows(Raised(row), events, q) && !OverrunsNowhere(Raised(row), events)
    ensures !Serial(Raised(row), events) && !TurnsAreSerial(Raised(row), events)
    ensures q.row.state == Sending && q.row.attempts == MAX_ATTEMPTS && q.marksSinceYes == MAX_ATTEMPTS + 1
  {
    var first, never := Raised(row), NeverSent("");
    events, q := ReportOutlivesAYes(row, never);
    events, q := MarkReadCommit(first, events, q, 1, 2, never);
    events, q := MarkReadCommit(first, events, q, 2, 3, never);
    events, q := MarkReadCommit(first, events, q, 3, 4, never);
    events, q := Go(first, events, q, Marked(5, 5));
    BoundedThroughoutIff(first, events, q);
    if TurnsAreSerial(first, events) {
      SerialTurnsSeeTheCount(first, events, q);
    }
    if Serial(first, events) {
      CurrentCountsDoNotOverrun(first, events, q);
      assert false;
    }
  }

  /** A request whose first send never left, and is said so, and whose second
      has landed. */
  lemma SecondSendIsOut(row: Row) returns (events: seq<Event>, q: Request)
    requires row.state == Held && row.attempts == 0
    ensures Follows(Raised(row), events, q)
    ensures q.yeses == 1 && q.row.state == Sending && q.row.attempts == 1 && q.seen == map[]
    ensures q.marks == {1, 2} && q.landed == {2} && q.reported == q.dead == {1}
  {
    var first := Raised(row);
    events, q := [], first;
    events, q := Go(first, events, q, Decided(Approve, None));
    events, q := Go(first, events, q, Marked(1, 1));
    events, q := Go(first, events, q, ReportRead(1, NeverSent("")));
    events, q := Go(first, events, q, Committed(FromReport(1), false));
    events, q := Go(first, events, q, Marked(2, 2));
    events, q := Go(first, events, q, Landed(2));
  }

  /** Why each mark may be reported only once: the report that the first send
      never left, made a second time while the second send is out, gives the
      request back, and one yes lands twice. That repeated report is the one
      step that is not allowed. */
  lemma RepeatedReportLandsTwice(row: Row)
    returns (before: Request, events: seq<Event>, q: Request)
    requires row.state == Held && row.attempts == 0
    ensures exists early :: Follows(Raised(row), early, before)
    ensures 1 in before.reported && 1 in before.dead
    ensures Follows(Apply(before, ReportRead(1, NeverSent(""))), events, q)
    ensures q.yeses == 1 && |q.landed| == 2
  {
    var early;
    early, before := SecondSendIsOut(row);
    var again := Apply(before, ReportRead(1, NeverSent("")));
    events, q := [], again;
    events, q := Go(again, events, q, Committed(FromReport(1), false));
    events, q := Go(again, events, q, Marked(3, 3));
    events, q := Go(again, events, q, Landed(3));
    assert q.landed == {2, 3};
  }

  // ---- Every request of a table -------------------------------------------------------

  type Table = map<Id, Request>

  datatype TableEvent =
    | Raise(id: Id, session: Id, item: Id, call: Call)
    | One(id: Id, event: Event)
    | Answer(item: Id, decision: Decision, who: Option<Id>)

  function RowsOf(t: Table): map<Id, Row> {
    map id | id in t :: t[id].row
  }

  /** One step of the table. `dedupes` are the requests whose recipient dedupes
      on a key; only for those is an update ever made as keyed. */
  ghost predicate TableStep(t: Table, e: TableEvent, t': Table, dedupes: set<Id>) {
    match e
    case Raise(id, session, item, call) =>
      id !in t && (forall k :: k in t ==> t[k].row.item != item) &&
      t' == t[id := Raised(NewRow(session, item, call))]
    case One(id, event) =>
      id in t && !event.Decided? && Enabled(t[id], event) &&
      (event.Committed? && event.keyed ==> id in dedupes) &&
      t' == t[id := Apply(t[id], event)]
    case Answer(item, d, who) =>
      t' == map id | id in t :: if t[id].row.item == item then Apply(t[id], Decided(d, who)) else t[id]
  }

  ghost predicate Runs(t: Table, events: seq<TableEvent>, t': Table, dedupes: set<Id>)
    decreases events
  {
    if events == [] then t == t'
    else exists mid :: TableStep(t, events[0], mid, dedupes) && Runs(mid, events[1..], t', dedupes)
  }

  /** The table's steps are the statements of `HeldStore`. */
  lemma StepsAreStatements(t: Table, e: TableEvent, t': Table, dedupes: set<Id>)
    requires TableStep(t, e, t', dedupes)
    ensures e.Answer? ==> RowsOf(t') == DecideAll(RowsOf(t), e.item, e.decision, e.who)
    ensures e.One? && e.event.Marked? ==> RowsOf(t') == RowsOf(t)[e.id := MarkRow(t[e.id].row, e.event.job)]
    ensures e.One? && e.event.Committed? ==>
      var s := t[e.id].seen[e.event.source];
      RowsOf(t') == RowsOf(t)[e.id := SettleRow(t[e.id].row, s.outcome, s.attempts, e.event.keyed)]
    ensures e.One? && e.event.Moved? ==> RowsOf(t') == RowsOf(t)[e.id := MoveRow(t[e.id].row, e.event.item)]
    ensures e.One? && (e.event.Landed? || e.event.ReportRead? || e.event.RecoveryRead? || e.event.Dropped?) ==> RowsOf(t') == RowsOf(t)
  {
    if e.One? {
      assert RowsOf(t') == RowsOf(t)[e.id := Apply(t[e.id], e.event).row];
    }
  }

  ghost predicate AllAccounted(t: Table, dedupes: set<Id>) {
    forall id :: id in t && id !in dedupes ==> Accounted(t[id])
  }

  lemma AllAccountedIsKept(t: Table, e: TableEvent, t': Table, dedupes: set<Id>)
    requires AllAccounted(t, dedupes) && TableStep(t, e, t', dedupes)
    ensures AllAccounted(t', dedupes)
  {
    forall id | id in t' && id !in dedupes
      ensures Accounted(t'[id])
    {
      match e
      case Raise(_, _, _, _) =>
      case One(k, event) => if k == id { AccountedIsKept(t[id], event); }
      case Answer(_, d, who) => AccountedIsKept(t[id], Decided(d, who));
    }
  }

  lemma {:induction false} AllAccountedAlways(t: Table, events: seq<TableEvent>, t': Table, dedupes: set<Id>)
    requires AllAccounted(t, dedupes) && Runs(t, events, t', dedupes)
    ensures AllAccounted(t', dedupes)
    decreases events
  {
    if events != [] {
      var mid :| TableStep(t, events[0], mid, dedupes) && Runs(mid, events[1..], t', dedupes);
      AllAccountedIsKept(t, events[0], mid, dedupes);
      AllAccountedAlways(mid, events[1..], t', dedupes);
    }
  }

  /** Over every run of the whole table, no request whose recipient does not
      dedupe lands more often than people said yes to it. */
  lemma NoRequestLandsTwicePerYes(events: seq<TableEvent>, t: Table, dedupes: set<Id>, id: Id)
    requires Runs(map[], events, t, dedupes) && id in t && id !in dedupes
    ensures |t[id].landed| <= t[id].yeses
  {
    AllAccountedAlways(map[], events, t, dedupes);
    var q := t[id];
    DisjointPartsFit(q.landed, q.dead, q.marks);
    SubsetSize(q.returned, q.dead);
  }
}
