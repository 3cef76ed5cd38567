/** The held_requests table: requests refused for want of an approval, and the
    SQL statements that decide them, mark them, settle them and move them.

    A row transition is a pure function of the row, because every statement of
    the source is one conditional update. `HeldStore` performs the statements on
    a table in place and is proved against those functions; what the functions
    guarantee over whole runs is proved in `HeldProtocol`. */
module HeldRequests {
  import opened Basics

  /** How many times a request that never left is tried before a person is
      asked about it. */
  const MAX_ATTEMPTS: int := 3

  datatype State = Held | Approved | Sending | Declined | Spent | Unsent | Unknown | Done

  datatype Outcome =
    | Answered(status: nat, body: string)
    | NeverSent(message: string)
    | NoAnswer(message: string)
    | Refused(message: string)

  /** What a person says about a request. `MarkDone` is the source's `Done`. */
  datatype Decision = Approve | Decline | Resend | MarkDone

  /** The request as the guest made it: method, URL, headers and body. */
  datatype Call = Call(verb: string, url: string, headers: seq<(string, string)>, body: Option<string>)

  datatype Row = Row(
    session: Id,
    item: Id,
    call: Call,
    state: State,
    attempts: int,
    outcome: Option<Outcome>,
    approvedBy: Option<Id>,
    sendingJob: Option<Id>)

  function NewRow(session: Id, item: Id, call: Call): Row {
    Row(session, item, call, Held, 0, None, None, None)
  }

  /** From which states a decision applies, and to which it leads. */
  function Transition(d: Decision): (set<State>, State) {
    match d
    case Approve => ({Held}, Approved)
    case Decline => ({Held}, Declined)
    case Resend => ({Unsent, Unknown}, Approved)
    case MarkDone => ({Unsent, Unknown}, Done)
  }

  predicate Approving(d: Decision) {
    d.Approve? || d.Resend?
  }

  predicate Decides(r: Row, d: Decision) {
    r.state in Transition(d).0
  }

  /** `decide_tx` on one row: an approving decision starts the tries over. */
  function DecideRow(r: Row, d: Decision, who: Option<Id>): Row {
    if Decides(r, d) then
      if Approving(d) then r.(state := Transition(d).1, approvedBy := who, attempts := 0)
      else r.(state := Transition(d).1)
    else
      r
  }

  /** `sending` on one row: only a waiting request may be marked. */
  function MarkRow(r: Row, job: Id): Row {
    if r.state == Approved then r.(state := Sending, sendingJob := Some(job)) else r
  }

  /** Whether a turn being prepared, or a report, may still settle the row. */
  predicate Live(r: Row) {
    r.state == Approved || r.state == Sending
  }

  datatype Next = ToSpent | Again | ToUnsent | ToUnknown

  /** What an outcome means, given the tries read before it and whether the
      recipient dedupes on a key. */
  function NextFor(outcome: Outcome, attemptsBefore: int, keyed: bool): Next {
    match outcome
    case Answered(_, _) => ToSpent
    case NeverSent(_) => TryAgain(attemptsBefore)
    case NoAnswer(_) => if keyed then TryAgain(attemptsBefore) else ToUnknown
    case Refused(_) => ToUnsent
  }

  function TryAgain(attemptsBefore: int): Next {
    if attemptsBefore + 1 >= MAX_ATTEMPTS then ToUnsent else Again
  }

  function StateAfter(n: Next): State {
    match n
    case ToSpent => Spent
    case Again => Approved
    case ToUnsent => Unsent
    case ToUnknown => Unknown
  }

  /** The conditional update of `settle`, with the number of tries the handler
      read some time before. */
  function SettleRow(r: Row, outcome: Outcome, attemptsSeen: int, keyed: bool): Row {
    if Live(r) then
      var n := NextFor(outcome, attemptsSeen, keyed);
      r.(state := StateAfter(n),
         outcome := Some(outcome),
         attempts := if outcome.NeverSent? || n == Again then r.attempts + 1 else r.attempts)
    else
      r
  }

  /** What an outcome leads to, of a request that may be settled: answered, it is
      spent, and refused, a person is asked about it. One that never left, and one
      that got no answer from a recipient that dedupes, is sent again while the
      tries read allow it; one that got no answer from any other may have landed.
      A request that may not be settled stays as it is. */
  lemma AnOutcomeComesTo(r: Row, outcome: Outcome, attemptsSeen: int, keyed: bool)
    ensures var r' := SettleRow(r, outcome, attemptsSeen, keyed);
            var again := (outcome.NeverSent? || (outcome.NoAnswer? && keyed)) && attemptsSeen + 1 < 3;
            if r.state != Approved && r.state != Sending then r' == r
            else
              && (r'.state == Spent <==> outcome.Answered?)
              && (r'.state == Approved <==> again)
              && (r'.state == Unknown <==> outcome.NoAnswer? && !keyed)
              && (r'.state == Unsent <==> !again && !outcome.Answered? && (outcome.NoAnswer? ==> keyed))
              && r'.attempts == r.attempts + (if again || outcome.NeverSent? then 1 else 0)
              && r' == r.(state := r'.state, attempts := r'.attempts, outcome := Some(outcome))
  {
  }

  /** What a person's word leads to. An approval and a resend start the tries over,
      and say who; where a decision does not apply it changes nothing. */
  lemma ADecisionComesTo(r: Row, d: Decision, who: Option<Id>)
    ensures var r', asked := DecideRow(r, d, who), r.state == Unsent || r.state == Unknown;
            && (d.Approve? ==> r' == if r.state == Held then r.(state := Approved, approvedBy := who, attempts := 0) else r)
            && (d.Decline? ==> r' == if r.state == Held then r.(state := Declined) else r)
            && (d.Resend? ==> r' == if asked then r.(state := Approved, approvedBy := who, attempts := 0) else r)
            && (d.MarkDone? ==> r' == if asked then r.(state := Done) else r)
  {
  }

  /** The update that ties a request to the item asking about it again. */
  function MoveRow(r: Row, item: Id): Row {
    r.(item := item)
  }

  /** The unique index on `item_id`: an item asks about at most one request. */
  ghost predicate OneRowPerItem(rows: map<Id, Row>) {
    forall a, b :: a in rows && b in rows && rows[a].item == rows[b].item ==> a == b
  }

  function DecideAll(rows: map<Id, Row>, item: Id, d: Decision, who: Option<Id>): map<Id, Row> {
    map id | id in rows :: if rows[id].item == item then DecideRow(rows[id], d, who) else rows[id]
  }

  /** With one request per item, deciding an item changes that request alone. */
  lemma DecideAllIsOne(rows: map<Id, Row>, id: Id, d: Decision, who: Option<Id>)
    requires OneRowPerItem(rows) && id in rows
    ensures DecideAll(rows, rows[id].item, d, who) == rows[id := DecideRow(rows[id], d, who)]
  {
  }

  /** The requests of a conversation a runtime said it was sending. */
  function InFlight(rows: map<Id, Row>, session: Id): set<Id> {
    set id | id in rows && rows[id].session == session && rows[id].state == Sending
  }

  /** The table once some of its requests have been settled with one outcome. */
  function SettleSome(rows: map<Id, Row>, some: set<Id>, lost: Outcome, keyed: set<Id>): map<Id, Row> {
    map id | id in rows ::
      if id in some then SettleRow(rows[id], lost, rows[id].attempts, id in keyed) else rows[id]
  }

  lemma SettleOneMore(rows: map<Id, Row>, some: set<Id>, id: Id, lost: Outcome, keyed: set<Id>)
    requires id in rows && id !in some
    ensures SettleSome(rows, some, lost, keyed)[id] == rows[id]
    ensures SettleSome(rows, some + {id}, lost, keyed)
         == SettleSome(rows, some, lost, keyed)[id := SettleRow(rows[id], lost, rows[id].attempts, id in keyed)]
  {
  }

  /** What was approved is what is sent: no statement rewrites the request, and
      none moves it to another conversation. */
  lemma CallIsKept(r: Row, d: Decision, who: Option<Id>, job: Id, o: Outcome, seen: int, keyed: bool, item: Id)
    ensures forall after ::
      after in {DecideRow(r, d, who), MarkRow(r, job), SettleRow(r, o, seen, keyed), MoveRow(r, item)}
      ==> after.call == r.call && after.session == r.session
  {
  }

  datatype ReportError = NotFound | Conflict

  class HeldStore {
    var rows: map<Id, Row>

    ghost predicate Valid()
      reads this
    {
      OneRowPerItem(rows)
    }

    constructor ()
      ensures Valid() && rows == map[]
    {
      rows := map[];
    }

    /** Holds one, unless its id or its item is already taken. */
    method Hold(id: Id, session: Id, item: Id, call: Call) returns (ok: bool)
      requires Valid()
      modifies this
      ensures Valid()
      ensures ok <==> id !in old(rows) && forall k :: k in old(rows) ==> old(rows)[k].item != item
      ensures rows == if ok then old(rows)[id := NewRow(session, item, call)] else old(rows)
      ensures ok ==> rows[id] == Row(session, item, call, Held, 0, None, None, None)
    {
      ok := id !in rows && forall k :: k in rows.Keys ==> rows[k].item != item;
      if ok {
        rows := rows[id := NewRow(session, item, call)];
      }
    }

    /** Writes a decision about the request an item holds, and says how many
        rows it changed: one where the item holds a request the decision
        applies to, and otherwise none, which is not an error. */
    method DecideTx(item: Id, d: Decision, who: Option<Id>) returns (changed: nat)
      requires Valid()
      modifies this
      ensures Valid()
      ensures rows == DecideAll(old(rows), item, d, who)
      ensures changed <= 1
      ensures changed == 1 <==>
        exists id :: id in old(rows) && old(rows)[id].item == item &&
          (if d.Approve? || d.Decline? then old(rows)[id].state == Held else old(rows)[id].state in {Unsent, Unknown})
      ensures changed == 0 ==> rows == old(rows)
      ensures forall id :: id in old(rows) && rows[id] != old(rows)[id] ==>
        && rows[id].state == (match d case Approve => Approved case Decline => Declined case Resend => Approved case MarkDone => Done)
        && (d.Approve? || d.Resend? ==> rows[id].approvedBy == who && rows[id].attempts == 0)
    {
      var hit := set id | id in rows && rows[id].item == item && Decides(rows[id], d);
      changed := |hit|;
      if hit == {} {
        assert forall k :: k in rows && rows[k].item == item ==> k !in hit;
      } else {
        var id :| id in hit;
        assert hit == {id};
        DecideAllIsOne(rows, id, d, who);
        var r := rows[id].(state := Transition(d).1);
        if Approving(d) {
          r := r.(approvedBy := who, attempts := 0);
        }
        rows := rows[id := r];
      }
    }

    /** Marks a request as going, just before a runtime sends it. A runtime
        refused here does not send. */
    method MarkSending(session: Id, id: Id, job: Id) returns (marked: bool)
      requires Valid()
      modifies this
      ensures Valid()
      ensures marked <==> id in old(rows) && old(rows)[id].session == session && old(rows)[id].state == Approved
      ensures rows == if marked then old(rows)[id := MarkRow(old(rows)[id], job)] else old(rows)
      ensures marked ==> rows[id] == old(rows)[id].(state := Sending, sendingJob := Some(job))
    {
      marked := id in rows && rows[id].session == session && rows[id].state == Approved;
      if marked {
        rows := rows[id := rows[id].(state := Sending, sendingJob := Some(job))];
      }
    }

    /** The conditional update at the end of `settle`. */
    method CommitSettle(id: Id, outcome: Outcome, attemptsSeen: int, keyed: bool)
      returns (result: Result<Next, ReportError>)
      requires Valid()
      modifies this
      ensures Valid()
      ensures result.Ok? <==> id in old(rows) && Live(old(rows)[id])
      ensures result.Ok? ==> result.value == NextFor(outcome, attemptsSeen, keyed)
      ensures rows == if result.Ok?
                      then old(rows)[id := SettleRow(old(rows)[id], outcome, attemptsSeen, keyed)]
                      else old(rows)
      ensures result.Ok? && outcome.Answered? ==> rows[id].state == Spent && result.value == ToSpent
      ensures result.Ok? && outcome.Refused? ==> rows[id].state == Unsent && result.value == ToUnsent
      ensures result.Ok? && outcome.NoAnswer? && !keyed ==> rows[id].state == Unknown && result.value == ToUnknown
      ensures result.Ok? && (outcome.NeverSent? || (outcome.NoAnswer? && keyed)) ==>
                if attemptsSeen + 1 < 3 then rows[id].state == Approved && result.value == Again
                else rows[id].state == Unsent && result.value == ToUnsent
    {
      var next := NextFor(outcome, attemptsSeen, keyed);
      if id !in rows || !(rows[id].state in {Approved, Sending}) {
        return Err(Conflict);
      }
      var r := rows[id].(state := StateAfter(next), outcome := Some(outcome));
      if outcome.NeverSent? || next == Again {
        r := r.(attempts := r.attempts + 1);
      }
      rows := rows[id := r];
      return Ok(next);
    }

    /** A report whose read and update nothing runs between. Requests still
        waiting on a person, or declined, are not in the conversation's list. */
    method Report(session: Id, id: Id, outcome: Outcome, keyed: bool)
      returns (result: Result<Next, ReportError>)
      requires Valid()
      modifies this
      ensures Valid()
      ensures result == Err(NotFound) <==>
        !(id in old(rows) && old(rows)[id].session == session &&
          old(rows)[id].state != Held && old(rows)[id].state != Declined)
      ensures result.Ok? <==> id in old(rows) && old(rows)[id].session == session && Live(old(rows)[id])
      ensures result.Ok? ==> result.value == NextFor(outcome, old(rows)[id].attempts, keyed)
      ensures rows == if result.Ok?
                      then old(rows)[id := SettleRow(old(rows)[id], outcome, old(rows)[id].attempts, keyed)]
                      else old(rows)
      ensures result.Ok? && outcome.Answered? ==> rows[id].state == Spent && result.value == ToSpent
      ensures result.Ok? && outcome.Refused? ==> rows[id].state == Unsent && result.value == ToUnsent
      ensures result.Ok? && outcome.NoAnswer? && !keyed ==> rows[id].state == Unknown && result.value == ToUnknown
      ensures result.Ok? && (outcome.NeverSent? || (outcome.NoAnswer? && keyed)) ==>
                if old(rows)[id].attempts + 1 < 3 then rows[id].state == Approved && result.value == Again
                else rows[id].state == Unsent && result.value == ToUnsent
    {
      if id !in rows || rows[id].session != session || rows[id].state in {Held, Declined} {
        return Err(NotFound);
      }
      if rows[id].state != Approved && rows[id].state != Sending {
        return Err(Conflict);
      }
      result := CommitSettle(id, outcome, rows[id].attempts, keyed);
    }

    /** Settles what a lost turn left in flight, one request after another. */
    method Recover(session: Id, lost: Outcome, keyed: set<Id>)
      requires Valid()
      modifies this
      ensures Valid()
      ensures rows == SettleSome(old(rows), InFlight(old(rows), session), lost, keyed)
      ensures rows.Keys == old(rows).Keys && forall id :: id in rows ==>
                if old(rows)[id].session == session && old(rows)[id].state == Sending
                then rows[id].outcome == Some(lost) && rows[id].state in {Spent, Approved, Unsent, Unknown}
                else rows[id] == old(rows)[id]
      ensures lost.NoAnswer? ==> forall id :: id in rows && rows[id] != old(rows)[id] ==>
                rows[id].state == if id !in keyed then Unknown else if old(rows)[id].attempts + 1 < 3 then Approved else Unsent
    {
      ghost var before := rows;
      var all := InFlight(rows, session);
      var left := all;
      assert rows == SettleSome(rows, all - left, lost, keyed);
      while left != {}
        invariant left <= all
        invariant Valid()
        invariant rows == SettleSome(before, all - left, lost, keyed)
        decreases left
      {
        var id :| id in left;
        SettleOneMore(before, all - left, id, lost, keyed);
        assert all - (left - {id}) == all - left + {id};
        var _ := CommitSettle(id, lost, rows[id].attempts, id in keyed);
        left := left - {id};
      }
      assert all - left == all;
      forall id | id in rows && id in all ensures rows[id] == SettleRow(before[id], lost, before[id].attempts, id in keyed) {}
    }

    /** Ties a request to a new item, whatever its state has become. */
    method Move(id: Id, item: Id) returns (ok: bool)
      requires Valid()
      modifies this
      ensures Valid()
      ensures ok <==> id in old(rows) && forall k :: k in old(rows) && k != id ==> old(rows)[k].item != item
      ensures rows == if ok then old(rows)[id := MoveRow(old(rows)[id], item)] else old(rows)
      ensures ok ==> rows[id] == old(rows)[id].(item := item)
    {
      ok := id in rows && forall k :: k in rows.Keys && k != id ==> rows[k].item != item;
      if ok {
        rows := rows[id := rows[id].(item := item)];
      }
    }
  }
}
