/** What a yes is turned into: the request it approves, or a grant for the turn.

    A refusal raises an item and then holds the request beside it, as two
    writes. Answering reads the queue, then reads whether the item holds a
    request, and then settles in one transaction; people answer at once, and a
    turn sends, reports and asks again meanwhile. Every one of those is a step
    here, and they interleave in any order. */
module Approvals {
  import opened Basics
  import opened HeldRequests

  datatype Extent = CallExtent | UnitExtent

  /** What an item's payload says to mint from: the refusal writes all of it on
      the item it raises. */
  datatype GateRecord = GateRecord(act: string, shape: string, job: Id, session: Id, covers: Option<string>)

  /** What a payload may have under `covers`. Where it is anything but an offer,
      the payload is no record at all. */
  datatype Covers = NoOffer | Offer(unit: string) | Unreadable

  /** What a caller's payload may say of itself, where somebody asks by hand: a
      shape that is a string, a turn that is an id, an offer. */
  datatype Payload = Payload(followUp: bool, shape: Option<string>, job: Option<Id>, covers: Covers)

  /** A grant, with the item whose answer minted it. */
  datatype Grant = Grant(item: Id, act: string, job: Id, session: Id, extent: Extent, keyedOn: string)

  datatype Kind =
    | Gate(record: GateRecord)                            // raised by a refused request
    | ByHand(act: string, session: Id, sent: Payload)     // asked by hand: the handler writes the act and session
    | FollowUp(request: Id)                               // asking about an approved request that did not go

  datatype ItemState = Pending | Resolved | Cancelled

  datatype Item = Item(kind: Kind, state: ItemState)

  /** An answer between its reads and its settle. */
  datatype Answering = Answering(item: Id, approved: bool, ticked: bool, sawHeld: Option<bool>)

  datatype World = World(
    items: map<Id, Item>,
    rows: map<Id, Row>,
    origin: map<Id, Id>,           // request -> the gate item it was refused under
    requestOf: map<Id, Id>,        // and back
    grants: seq<Grant>,
    answers: map<Id, Answering>)

  const NOTHING_YET := World(map[], map[], map[], map[], [], map[])

  /** The record a payload parses as, whoever wrote it. */
  function RecordOf(kind: Kind): Option<GateRecord> {
    match kind
    case Gate(r) => Some(r)
    case ByHand(act, session, sent) =>
      if sent.shape.Some? && sent.job.Some? && !sent.covers.Unreadable?
      then Some(GateRecord(act, sent.shape.value, sent.job.value, session,
                           if sent.covers.Offer? then Some(sent.covers.unit) else None))
      else None
    case FollowUp(_) => None
  }

  /** Answered as a question about a request that did not go. */
  predicate AsksFollowUp(kind: Kind) {
    kind.FollowUp? || (kind.ByHand? && kind.sent.followUp)
  }

  /** Whether a yes to an item of this kind mints. */
  predicate Mints(kind: Kind) {
    RecordOf(kind).Some? && !AsksFollowUp(kind)
  }

  /** What an approval of an item is worth on its own. The wider extent takes
      both an offer and a tick. */
  function GrantFrom(item: Id, kind: Kind, ticked: bool): Option<Grant> {
    match RecordOf(kind)
    case Some(r) =>
      if ticked && r.covers.Some?
      then Some(Grant(item, r.act, r.job, r.session, UnitExtent, r.covers.value))
      else Some(Grant(item, r.act, r.job, r.session, CallExtent, r.shape))
    case None => None
  }

  /** What an answer mints: nothing on a decline, and for a held request only
      the wider extent, which the request does not carry. */
  function Minted(item: Id, kind: Kind, a: Answering): seq<Grant> {
    var g := if a.approved then GrantFrom(item, kind, a.ticked) else None;
    if g.Some? && (a.sawHeld == Some(true) ==> g.value.extent == UnitExtent) then [g.value] else []
  }

  datatype Event =
    | GateRaised(item: Id, record: GateRecord)
    | HandRaised(item: Id, act: string, session: Id, sent: Payload)
    | RequestHeld(request: Id, item: Id, call: Call)
    | AnswerRead(answer: Id, item: Id, approved: bool, ticked: bool)
    | AnswerLooked(answer: Id)
    | AnswerSettled(answer: Id, who: Option<Id>)
    | FollowUpSettled(item: Id, decision: Decision, who: Option<Id>)
    | RequestMarked(request: Id, job: Id)
    | RequestSettled(request: Id, outcome: Outcome, attemptsSeen: int, keyed: bool)
    | AskedAgain(request: Id, item: Id)
    | RequestMoved(request: Id, item: Id)

  predicate HoldsRequest(w: World, item: Id) {
    exists id :: id in w.rows && w.rows[id].item == item
  }

  predicate Enabled(w: World, e: Event) {
    match e
    case GateRaised(item, _) => item !in w.items
    case HandRaised(item, _, _, _) => item !in w.items
    case RequestHeld(request, item, _) =>
      // One refusal raises the item, and holds the request once.
      item in w.items && w.items[item].kind.Gate? && request !in w.rows && item !in w.requestOf
    case AnswerRead(answer, item, _, _) =>
      // Read through the queue, which lists only what is open.
      answer !in w.answers && item in w.items && w.items[item].state == Pending && !AsksFollowUp(w.items[item].kind)
    case AnswerLooked(answer) => answer in w.answers && w.answers[answer].sawHeld.None?
    case AnswerSettled(answer, _) => answer in w.answers && w.answers[answer].sawHeld.Some?
    case FollowUpSettled(item, d, _) =>
      item in w.items && AsksFollowUp(w.items[item].kind) && d in {Resend, MarkDone}
    case RequestMarked(request, _) => request in w.rows
    case RequestSettled(request, _, _, _) => request in w.rows
    case AskedAgain(request, item) =>
      // Only a request a send was settled for is asked about again.
      item !in w.items && request in w.rows && w.rows[request].state !in {Held, Declined}
    case RequestMoved(request, item) =>
      request in w.rows && item in w.items && w.items[item].kind == FollowUp(request)
  }

  function Apply(w: World, e: Event): World
    requires Enabled(w, e)
  {
    match e
    case GateRaised(item, record) => w.(items := w.items[item := Item(Gate(record), Pending)])
    case HandRaised(item, act, session, sent) => w.(items := w.items[item := Item(ByHand(act, session, sent), Pending)])
    case RequestHeld(request, item, call) =>
      if HoldsRequest(w, item) then w else
      w.(rows := w.rows[request := NewRow(w.items[item].kind.record.session, item, call)],
         origin := w.origin[request := item],
         requestOf := w.requestOf[item := request])
    case AnswerRead(answer, item, approved, ticked) =>
      w.(answers := w.answers[answer := Answering(item, approved, ticked, None)])
    case AnswerLooked(answer) =>
      var a := w.answers[answer];
      w.(answers := w.answers[answer := a.(sawHeld := Some(HoldsRequest(w, a.item)))])
    case AnswerSettled(answer, who) =>
      var a := w.answers[answer];
      var w' := w.(answers := w.answers - {answer});
      if a.item !in w.items || w.items[a.item].state != Pending then w' else
      w'.(items := w.items[a.item := w.items[a.item].(state := if a.approved then Resolved else Cancelled)],
          grants := w.grants + Minted(a.item, w.items[a.item].kind, a),
          rows := if a.sawHeld == Some(true)
                  then DecideAll(w.rows, a.item, if a.approved then Approve else Decline, who)
                  else w.rows)
    case FollowUpSettled(item, d, who) =>
      if w.items[item].state != Pending then w else
      w.(items := w.items[item := w.items[item].(state := Resolved)],
         rows := DecideAll(w.rows, item, d, who))
    case RequestMarked(request, job) => w.(rows := w.rows[request := MarkRow(w.rows[request], job)])
    case RequestSettled(request, outcome, seen, keyed) =>
      w.(rows := w.rows[request := SettleRow(w.rows[request], outcome, seen, keyed)])
    case AskedAgain(request, item) => w.(items := w.items[item := Item(FollowUp(request), Pending)])
    case RequestMoved(request, item) => w.(rows := w.rows[request := MoveRow(w.rows[request], item)])
  }

  ghost predicate Follows(w: World, events: seq<Event>, w': World)
    decreases events
  {
    if events == [] then w == w'
    else Enabled(w, events[0]) && Follows(Apply(w, events[0]), events[1..], w')
  }

  // ---- What an item's answer came to ------------------------------------------------

  predicate LetOut(s: State) {
    s != Held && s != Declined
  }

  /** A person let the request refused under this item out. */
  predicate Released(w: World, item: Id) {
    item in w.requestOf && w.requestOf[item] in w.rows && LetOut(w.rows[w.requestOf[item]].state)
  }

  function Granted(grants: seq<Grant>, item: Id, extent: Extent): nat {
    if grants == [] then 0 else
    var last := grants[|grants| - 1];
    Granted(grants[..|grants| - 1], item, extent) + if last.item == item && last.extent == extent then 1 else 0
  }

  predicate RequestOk(w: World, id: Id) {
    && id in w.rows && id in w.origin
    && w.origin[id] in w.items && w.items[w.origin[id]].kind.Gate?
    && w.origin[id] in w.requestOf && w.requestOf[w.origin[id]] == id
    && (w.rows[id].item == w.origin[id] ||
        (w.rows[id].item in w.items && w.items[w.rows[id].item].kind == FollowUp(id) && LetOut(w.rows[id].state)))
    && match w.items[w.origin[id]].state
       case Pending => w.rows[id].state == Held
       case Cancelled => !LetOut(w.rows[id].state)
       case Resolved => w.rows[id].state != Declined
  }

  predicate ItemOk(w: World, i: Id) {
    var calls, units := Granted(w.grants, i, CallExtent), Granted(w.grants, i, UnitExtent);
    && (i in w.requestOf ==> w.requestOf[i] in w.rows && w.requestOf[i] in w.origin && w.origin[w.requestOf[i]] == i)
    && (i in w.items && w.items[i].kind.FollowUp? ==>
          w.items[i].kind.request in w.rows && LetOut(w.rows[w.items[i].kind.request].state))
    && if i in w.items && Mints(w.items[i].kind) && w.items[i].state == Resolved then
         && (if Released(w, i) then calls == 0 && units <= 1 else calls + units == 1)
         && (RecordOf(w.items[i].kind).value.covers.None? ==> units == 0)
       else
         calls == 0 && units == 0
  }

  predicate AnswerOk(w: World, k: Id) {
    && k in w.answers
    && w.answers[k].item in w.items && !AsksFollowUp(w.items[w.answers[k].item].kind)
    && (w.answers[k].sawHeld == Some(true) ==> w.answers[k].item in w.requestOf)
  }

  ghost predicate Sound(w: World) {
    && (forall id :: id in w.rows ==> RequestOk(w, id))
    && (forall i :: ItemOk(w, i))
    && (forall k :: k in w.answers ==> AnswerOk(w, k))
  }

  lemma GrantedAfter(grants: seq<Grant>, g: Grant, item: Id, extent: Extent)
    ensures Granted(grants + [g], item, extent)
         == Granted(grants, item, extent) + if g.item == item && g.extent == extent then 1 else 0
  {
    assert (grants + [g])[..|grants|] == grants;
  }

  lemma HoldsMeans(w: World, item: Id)
    requires Sound(w) && item in w.items && !w.items[item].kind.FollowUp?
    ensures HoldsRequest(w, item) ==> item in w.requestOf
    ensures item in w.requestOf && w.items[item].state == Pending ==>
      w.requestOf[item] in w.rows && w.rows[w.requestOf[item]].item == item && w.rows[w.requestOf[item]].state == Held
  {
    assert ItemOk(w, item);
    if HoldsRequest(w, item) {
      var id :| id in w.rows && w.rows[id].item == item;
      assert RequestOk(w, id);
    }
    if item in w.requestOf && w.items[item].state == Pending {
      assert RequestOk(w, w.requestOf[item]);
    }
  }

  /** Only a settled answer lets a request out, or declines it. */
  lemma OnlyAnAnswerDecides(w: World, e: Event, id: Id)
    requires Sound(w) && Enabled(w, e) && id in w.rows
    ensures var w' := Apply(w, e);
            && id in w'.rows && id in w.origin && id in w'.origin && w'.origin[id] == w.origin[id]
            && (w.rows[id].state == w'.rows[id].state || LetOut(w'.rows[id].state) || e.AnswerSettled?)
            && (LetOut(w.rows[id].state) ==> LetOut(w'.rows[id].state))
            && (LetOut(w'.rows[id].state) && !LetOut(w.rows[id].state) ==> e.AnswerSettled?)
            && (!e.RequestMoved? ==> w'.rows[id].item == w.rows[id].item)
  {
    assert RequestOk(w, id);
  }

  lemma RequestsStayOk(w: World, e: Event, id: Id)
    requires Sound(w) && Enabled(w, e) && id in Apply(w, e).rows
    ensures RequestOk(Apply(w, e), id)
  {
    if id in w.rows {
      assert RequestOk(w, id);
      if e.AnswerSettled? {
        RequestOkAfterAnswer(w, e.answer, e.who, id);
      } else if e.RequestMoved? {
        assert ItemOk(w, e.item);
      } else {
        OnlyAnAnswerDecides(w, e, id);
        ItemsKeepTheirKind(w, e, w.origin[id]);
        ItemsKeepTheirKind(w, e, w.rows[id].item);
      }
    }
  }

  lemma ItemsKeepTheirKind(w: World, e: Event, i: Id)
    requires Enabled(w, e) && i in w.items
    ensures var w' := Apply(w, e);
            && i in w'.items && w'.items[i].kind == w.items[i].kind
            && (i in w.requestOf && !(e.RequestHeld? && e.item == i) ==> i in w'.requestOf && w'.requestOf[i] == w.requestOf[i])
            && (!e.AnswerSettled? && !AsksFollowUp(w.items[i].kind) ==> w'.items[i] == w.items[i])
  {
  }

  lemma RequestOkAfterAnswer(w: World, answer: Id, who: Option<Id>, id: Id)
    requires Sound(w) && Enabled(w, AnswerSettled(answer, who)) && id in w.rows
    ensures RequestOk(Apply(w, AnswerSettled(answer, who)), id)
  {
    assert RequestOk(w, id) && AnswerOk(w, answer);
  }

  lemma ItemsStayOk(w: World, e: Event, i: Id)
    requires Sound(w) && Enabled(w, e)
    ensures ItemOk(Apply(w, e), i)
  {
    if e.AnswerSettled? {
      ItemOkAfterAnswer(w, e.answer, e.who, i);
    } else if i in w.items {
      ItemOkWithoutAnswer(w, e, i);
    } else {
      ItemOkOnceRaised(w, e, i);
    }
  }

  lemma ItemOkWithoutAnswer(w: World, e: Event, i: Id)
    requires Sound(w) && Enabled(w, e) && !e.AnswerSettled? && i in w.items
    ensures ItemOk(Apply(w, e), i)
  {
    assert ItemOk(w, i);
    ItemsKeepTheirKind(w, e, i);
    if i in w.requestOf {
      OnlyAnAnswerDecides(w, e, w.requestOf[i]);
    }
    if w.items[i].kind.FollowUp? {
      OnlyAnAnswerDecides(w, e, w.items[i].kind.request);
    }
    assert Apply(w, e).grants == w.grants;
  }

  lemma ItemOkOnceRaised(w: World, e: Event, i: Id)
    requires Sound(w) && Enabled(w, e) && !e.AnswerSettled? && i !in w.items
    ensures ItemOk(Apply(w, e), i)
  {
    var w' := Apply(w, e);
    assert ItemOk(w, i);
    if i in w.requestOf {
      assert RequestOk(w, w.requestOf[i]);
    }
    assert w'.grants == w.grants && w'.requestOf.Keys - w.requestOf.Keys <= w.items.Keys;
    assert i in w'.items ==> w'.items[i].state == Pending;
  }

  lemma ItemOkAfterAnswer(w: World, answer: Id, who: Option<Id>, i: Id)
    requires Sound(w) && Enabled(w, AnswerSettled(answer, who))
    ensures ItemOk(Apply(w, AnswerSettled(answer, who)), i)
  {
    if i == w.answers[answer].item {
      ItemOkAfterItsAnswer(w, answer, who);
    } else {
      ItemOkAfterAnother(w, answer, who, i);
    }
  }

  lemma GrantsAfterAnswer(w: World, answer: Id, who: Option<Id>, i: Id)
    requires Enabled(w, AnswerSettled(answer, who)) && w.answers[answer].item in w.items
    requires w.items[w.answers[answer].item].state == Pending
    ensures var grants, a := Apply(w, AnswerSettled(answer, who)).grants, w.answers[answer];
            var minted := Minted(a.item, w.items[a.item].kind, a);
            && Granted(grants, i, CallExtent) == Granted(w.grants, i, CallExtent) +
                 (if i == a.item && minted != [] && minted[0].extent == CallExtent then 1 else 0)
            && Granted(grants, i, UnitExtent) == Granted(w.grants, i, UnitExtent) +
                 (if i == a.item && minted != [] && minted[0].extent == UnitExtent then 1 else 0)
  {
    var a := w.answers[answer];
    var minted := Minted(a.item, w.items[a.item].kind, a);
    if minted != [] {
      GrantedAfter(w.grants, minted[0], i, CallExtent);
      GrantedAfter(w.grants, minted[0], i, UnitExtent);
      assert minted == [minted[0]];
    } else {
      assert w.grants + minted == w.grants;
    }
  }

  lemma ItemOkAfterItsAnswer(w: World, answer: Id, who: Option<Id>)
    requires Sound(w) && Enabled(w, AnswerSettled(answer, who))
    ensures ItemOk(Apply(w, AnswerSettled(answer, who)), w.answers[answer].item)
  {
    hide Granted;
    var i := w.answers[answer].item;
    assert AnswerOk(w, answer) && ItemOk(w, i);
    HoldsMeans(w, i);
    if i in w.requestOf {
      OnlyAnAnswerDecides(w, AnswerSettled(answer, who), w.requestOf[i]);
      assert RequestOk(w, w.requestOf[i]);
    }
    if w.items[i].state == Pending {
      GrantsAfterAnswer(w, answer, who, i);
    }
  }

  lemma ItemOkAfterAnother(w: World, answer: Id, who: Option<Id>, i: Id)
    requires Sound(w) && Enabled(w, AnswerSettled(answer, who)) && i != w.answers[answer].item
    ensures ItemOk(Apply(w, AnswerSettled(answer, who)), i)
  {
    hide Granted;
    var e := AnswerSettled(answer, who);
    assert AnswerOk(w, answer) && ItemOk(w, i);
    if i in w.requestOf {
      OnlyAnAnswerDecides(w, e, w.requestOf[i]);
      assert RequestOk(w, w.requestOf[i]);
    }
    if i in w.items && w.items[i].kind.FollowUp? {
      OnlyAnAnswerDecides(w, e, w.items[i].kind.request);
    }
    if w.items[w.answers[answer].item].state == Pending {
      GrantsAfterAnswer(w, answer, who, i);
    }
  }

  lemma AnswersStayOk(w: World, e: Event, k: Id)
    requires Sound(w) && Enabled(w, e) && k in Apply(w, e).answers
    ensures AnswerOk(Apply(w, e), k)
  {
    if k in w.answers {
      assert AnswerOk(w, k);
      HoldsMeans(w, w.answers[k].item);
    }
  }

  lemma SoundIsKept(w: World, e: Event)
    requires Sound(w) && Enabled(w, e)
    ensures Sound(Apply(w, e))
  {
    var w' := Apply(w, e);
    forall id | id in w'.rows ensures RequestOk(w', id) { RequestsStayOk(w, e, id); }
    forall i ensures ItemOk(w', i) { ItemsStayOk(w, e, i); }
    forall k | k in w'.answers ensures AnswerOk(w', k) { AnswersStayOk(w, e, k); }
  }

  /** What each step does to the table of requests: nothing, or the one statement it
      is; and what the reads before an answer see. */
  lemma StepsAreStatements(w: World, e: Event)
    requires Enabled(w, e)
    ensures var w' := Apply(w, e);
            match e
            case RequestHeld(request, item, call) =>
              w'.rows == if exists id :: id in w.rows && w.rows[id].item == item then w.rows
                         else w.rows[request := Row(w.items[item].kind.record.session, item, call, Held, 0, None, None, None)]
            case RequestMarked(request, job) => w'.rows == w.rows[request := MarkRow(w.rows[request], job)]
            case RequestSettled(request, outcome, seen, keyed) =>
              w'.rows == w.rows[request := SettleRow(w.rows[request], outcome, seen, keyed)]
            case RequestMoved(request, item) => w'.rows == w.rows[request := w.rows[request].(item := item)]
            case AnswerRead(answer, item, approved, ticked) =>
              w'.rows == w.rows && w'.answers == w.answers[answer := Answering(item, approved, ticked, None)]
            case AnswerLooked(answer) =>
              && w'.rows == w.rows && w'.answers.Keys == w.answers.Keys
              && w'.answers[answer] == w.answers[answer].(sawHeld := Some(exists id :: id in w.rows && w.rows[id].item == w.answers[answer].item))
            case GateRaised(item, record) => w'.rows == w.rows && w'.items == w.items[item := Item(Gate(record), Pending)]
            case HandRaised(item, act, session, sent) =>
              w'.rows == w.rows && w'.items == w.items[item := Item(ByHand(act, session, sent), Pending)]
            case AskedAgain(request, item) => w'.rows == w.rows && w'.items == w.items[item := Item(FollowUp(request), Pending)]
            case AnswerSettled(_, _) => true
            case FollowUpSettled(_, _, _) => true
  {
  }

  lemma SoundAtFirst()
    ensures Sound(NOTHING_YET)
  {
    forall i ensures ItemOk(NOTHING_YET, i) {
      assert NOTHING_YET.grants == [];
    }
  }

  lemma {:induction false} SoundAlways(w: World, events: seq<Event>, w': World)
    requires Sound(w) && Follows(w, events, w')
    ensures Sound(w')
    decreases events
  {
    if events != [] {
      SoundIsKept(w, events[0]);
      SoundAlways(Apply(w, events[0]), events[1..], w');
    }
  }

  /** The main claim. Whatever the order of raising, holding, reading and
      settling, a yes lets the refused call out exactly once: as the request it
      was, or as a grant of its shape to the turn, never as both. Only the wider
      extent, offered and ticked, is granted beside the request: see
      `BothIffWidened`. */
  lemma AYesAuthorisesTheCallOnce(events: seq<Event>, w: World, item: Id)
    requires Follows(NOTHING_YET, events, w)
    requires item in w.items && w.items[item].kind.Gate? && w.items[item].state == Resolved
    ensures Released(w, item) ==> Granted(w.grants, item, CallExtent) == 0
    ensures Granted(w.grants, item, CallExtent) + Granted(w.grants, item, UnitExtent) <= 1
    ensures (if Released(w, item) then 1 else 0) + Granted(w.grants, item, CallExtent)
            + Granted(w.grants, item, UnitExtent) >= 1
    ensures w.items[item].kind.record.covers.None? ==>
            (if Released(w, item) then 1 else 0) + Granted(w.grants, item, CallExtent) == 1
  {
    SoundAtFirst();
    SoundAlways(NOTHING_YET, events, w);
    assert ItemOk(w, item);
  }

  /** Exactly what an answer that settles a refusal's item comes to: the request
      goes where the answer saw it held, the wider extent is granted where it was
      offered and ticked, and both happen where both hold. */
  lemma BothIffWidened(events: seq<Event>, w: World, answer: Id, who: Option<Id>)
    requires Follows(NOTHING_YET, events, w) && Enabled(w, AnswerSettled(answer, who))
    requires var item := w.answers[answer].item;
             item in w.items && w.items[item].kind.Gate? && w.items[item].state == Pending
    ensures var a, w' := w.answers[answer], Apply(w, AnswerSettled(answer, who));
            && (Released(w', a.item) <==> a.approved && a.sawHeld == Some(true))
            && (Granted(w'.grants, a.item, UnitExtent) == 1 <==>
                  a.approved && a.ticked && w.items[a.item].kind.record.covers.Some?)
  {
    SoundAtFirst();
    SoundAlways(NOTHING_YET, events, w);
    var item := w.answers[answer].item;
    assert AnswerOk(w, answer) && ItemOk(w, item);
    HoldsMeans(w, item);
    GrantsAfterAnswer(w, answer, who, item);
    hide Granted;
  }

  /** A decline, and a question still open, let nothing out and grant nothing,
      whoever asked. */
  lemma NothingWithoutAYes(events: seq<Event>, w: World, item: Id)
    requires Follows(NOTHING_YET, events, w)
    requires item in w.items && w.items[item].state != Resolved
    ensures !Released(w, item)
    ensures Granted(w.grants, item, CallExtent) == Granted(w.grants, item, UnitExtent) == 0
  {
    SoundAtFirst();
    SoundAlways(NOTHING_YET, events, w);
    assert ItemOk(w, item);
    if item in w.requestOf {
      assert RequestOk(w, w.requestOf[item]);
    }
  }

  lemma OnlyRefusalsAreHeld(w: World, item: Id)
    requires Sound(w)
    ensures item in w.requestOf ==> item in w.items && w.items[item].kind.Gate?
  {
    assert ItemOk(w, item);
    if item in w.requestOf {
      assert RequestOk(w, w.requestOf[item]);
    }
  }

  /** A question asked by hand stands for no refused request. A yes to it mints
      all the same, once, if and only if its payload carries what a refusal's
      would -- a shape, a turn, and an offer or none -- and does not call itself a
      follow-up; the wider extent only where the payload offers one. */
  lemma ByHandMintsIff(events: seq<Event>, w: World, item: Id)
    requires Follows(NOTHING_YET, events, w)
    requires item in w.items && w.items[item].kind.ByHand? && w.items[item].state == Resolved
    ensures var sent := w.items[item].kind.sent;
            && !Released(w, item)
            && Granted(w.grants, item, CallExtent) + Granted(w.grants, item, UnitExtent) ==
                 (if sent.shape.Some? && sent.job.Some? && !sent.covers.Unreadable? && !sent.followUp then 1 else 0)
            && (!sent.covers.Offer? ==> Granted(w.grants, item, UnitExtent) == 0)
  {
    SoundAtFirst();
    SoundAlways(NOTHING_YET, events, w);
    assert ItemOk(w, item);
    OnlyRefusalsAreHeld(w, item);
  }

  /** A follow-up is about a request that already had its yes: it mints nothing. */
  lemma AFollowUpGrantsNothing(events: seq<Event>, w: World, item: Id)
    requires Follows(NOTHING_YET, events, w)
    requires item in w.items && AsksFollowUp(w.items[item].kind)
    ensures Granted(w.grants, item, CallExtent) == Granted(w.grants, item, UnitExtent) == 0
  {
    SoundAtFirst();
    SoundAlways(NOTHING_YET, events, w);
    assert ItemOk(w, item);
  }

  /** Items hold one request each, so that deciding one decides one. */
  lemma OneRequestEach(w: World)
    requires Sound(w)
    ensures OneRowPerItem(w.rows)
  {
    forall a, b | a in w.rows && b in w.rows && w.rows[a].item == w.rows[b].item ensures a == b {
      assert RequestOk(w, a) && RequestOk(w, b);
    }
  }

  /** What a person's word about a request that did not go comes to: a resend has it
      wait to be sent, on their word and with its tries started over, and done closes
      it for good, in every continuation. The question is closed, and no other
      request, question or grant is touched. */
  lemma AFollowUpComesTo(events: seq<Event>, w: World, item: Id, id: Id, d: Decision, who: Option<Id>)
    requires Follows(NOTHING_YET, events, w) && Enabled(w, FollowUpSettled(item, d, who))
    requires w.items[item].state == Pending && id in w.rows && w.rows[id].item == item
    requires w.rows[id].state == Unsent || w.rows[id].state == Unknown
    ensures var was, w' := w.rows[id], Apply(w, FollowUpSettled(item, d, who));
            && (d == Resend || d == MarkDone)
            && w'.rows == w.rows[id := if d == Resend then was.(state := Approved, approvedBy := who, attempts := 0)
                                       else was.(state := Done)]
            && w'.items == w.items[item := Item(w.items[item].kind, Resolved)]
            && w'.grants == w.grants && w'.answers == w.answers
  {
    SoundAtFirst();
    SoundAlways(NOTHING_YET, events, w);
    OneRequestEach(w);
    DecideAllIsOne(w.rows, id, d, who);
    ADecisionComesTo(w.rows[id], d, who);
  }

  /** What is declined, answered or done stays so, whoever decides what after. */
  lemma {:induction false} ClosedStaysClosed(w: World, more: seq<Event>, w': World, id: Id)
    requires Sound(w) && Follows(w, more, w') && id in w.rows && w.rows[id].state in {Declined, Spent, Done}
    ensures id in w'.rows && w'.rows[id].state == w.rows[id].state
    decreases more
  {
    if more != [] {
      SoundIsKept(w, more[0]);
      ClosedIsKept(w, more[0], id);
      ClosedStaysClosed(Apply(w, more[0]), more[1..], w', id);
    }
  }

  lemma ClosedIsKept(w: World, e: Event, id: Id)
    requires Enabled(w, e) && id in w.rows && w.rows[id].state in {Declined, Spent, Done}
    ensures id in Apply(w, e).rows && Apply(w, e).rows[id].state == w.rows[id].state
  {
  }

  /** A question already answered is not answered again. */
  lemma AnsweredOnce(w: World, e: Event)
    requires Enabled(w, e)
    ensures e.FollowUpSettled? && w.items[e.item].state != Pending ==> Apply(w, e) == w
    ensures e.AnswerSettled? && (w.answers[e.answer].item in w.items ==> w.items[w.answers[e.answer].item].state != Pending) ==>
              Apply(w, e) == w.(answers := w.answers - {e.answer})
  {
  }

  /** So a request a person said is done is never sent again. */
  lemma DoneIsForGood(events: seq<Event>, w: World, item: Id, id: Id, who: Option<Id>, more: seq<Event>, w': World)
    requires Follows(NOTHING_YET, events, w) && Enabled(w, FollowUpSettled(item, MarkDone, who))
    requires w.items[item].state == Pending && id in w.rows && w.rows[id].item == item
    requires w.rows[id].state == Unsent || w.rows[id].state == Unknown
    requires Follows(Apply(w, FollowUpSettled(item, MarkDone, who)), more, w')
    ensures id in w'.rows && w'.rows[id].state == Done
  {
    AFollowUpComesTo(events, w, item, id, MarkDone, who);
    SoundAtFirst();
    SoundAlways(NOTHING_YET, events, w);
    SoundIsKept(w, FollowUpSettled(item, MarkDone, who));
    ClosedStaysClosed(Apply(w, FollowUpSettled(item, MarkDone, who)), more, w', id);
  }

  /** What a person's word about a refusal comes to, where it saw the request held: a
      yes has it wait to be sent, on their word, and a no declines it. The question
      is closed, no other request is touched, and the one grant there can be is of
      the unit offered and ticked. */
  lemma AnAnswerComesTo(events: seq<Event>, w: World, answer: Id, who: Option<Id>, id: Id)
    requires Follows(NOTHING_YET, events, w) && Enabled(w, AnswerSettled(answer, who))
    requires var a := w.answers[answer];
             && a.sawHeld == Some(true) && a.item in w.items && w.items[a.item].state == Pending
             && w.items[a.item].kind.Gate? && id in w.rows && w.rows[id].item == a.item
    ensures var a, w' := w.answers[answer], Apply(w, AnswerSettled(answer, who));
            var was, record := w.rows[id], w.items[a.item].kind.record;
            && w'.rows == w.rows[id := if a.approved then was.(state := Approved, approvedBy := who, attempts := 0)
                                       else was.(state := Declined)]
            && w'.items == w.items[a.item := Item(w.items[a.item].kind, if a.approved then Resolved else Cancelled)]
            && w'.grants == w.grants +
                 (if a.approved && a.ticked && record.covers.Some?
                  then [Grant(a.item, record.act, record.job, record.session, UnitExtent, record.covers.value)] else [])
            && w'.answers == w.answers - {answer}
  {
    SoundAtFirst();
    SoundAlways(NOTHING_YET, events, w);
    OneRequestEach(w);
    var a := w.answers[answer];
    HoldsMeans(w, a.item);
    assert RequestOk(w, id);
    assert w.rows[id].state == Held;
    DecideAllIsOne(w.rows, id, if a.approved then Approve else Decline, who);
    ADecisionComesTo(w.rows[id], if a.approved then Approve else Decline, who);
  }

  lemma {:induction false} Then(first: World, events: seq<Event>, w: World, e: Event)
    requires Follows(first, events, w) && Enabled(w, e)
    ensures Follows(first, events + [e], Apply(w, e))
    decreases events
  {
    if events == [] {
      assert [e][1..] == [];
    } else {
      Then(Apply(first, events[0]), events[1..], w, e);
      assert (events + [e])[1..] == events[1..] + [e];
    }
  }

  lemma Go(events: seq<Event>, w: World, e: Event) returns (events': seq<Event>, w': World)
    requires Follows(NOTHING_YET, events, w) && Enabled(w, e)
    ensures w' == Apply(w, e) && Follows(NOTHING_YET, events', w')
  {
    Then(NOTHING_YET, events, w, e);
    events', w' := events + [e], Apply(w, e);
  }

  lemma AskedByHand(act: string, session: Id, sent: Payload, ticked: bool) returns (events: seq<Event>, w: World)
    requires !sent.followUp
    ensures Follows(NOTHING_YET, events, w)
    ensures w.items == map[1 := Item(ByHand(act, session, sent), Pending)] && w.grants == []
    ensures w.answers == map[1 := Answering(1, true, ticked, Some(false))]
  {
    events, w := [], NOTHING_YET;
    events, w := Go(events, w, HandRaised(1, act, session, sent));
    events, w := Go(events, w, AnswerRead(1, 1, true, ticked));
    events, w := Go(events, w, AnswerLooked(1));
  }

  /** The failing input of the claim that asking by hand grants nothing: nothing
      was refused, and the turn named in the payload holds the grant it describes
      -- of one call, or, with an offer in the payload and a tick, of a unit. */
  lemma AskedByHandAndGranted(act: string, session: Id, shape: string, job: Id, unit: string, ticked: bool)
    returns (events: seq<Event>, w: World)
    ensures Follows(NOTHING_YET, events, w) && forall i :: i in w.items ==> !w.items[i].kind.Gate?
    ensures LiveFor(w.grants, job) ==
              [if ticked then Grant(1, act, job, session, UnitExtent, unit)
               else Grant(1, act, job, session, CallExtent, shape)]
  {
    events, w := AskedByHand(act, session, Payload(false, Some(shape), Some(job), Offer(unit)), ticked);
    events, w := Go(events, w, AnswerSettled(1, None));
    assert w.grants[1..] == [];
  }

  /** A request held after the answer that would have been about it looked:
      the yes minted a grant, and the request stays held for good. */
  lemma {:induction false} HeldTooLateIsNeverSent(events: seq<Event>, more: seq<Event>, w: World, w': World, item: Id)
    requires Follows(NOTHING_YET, events, w) && Follows(w, more, w')
    requires item in w.requestOf && w.requestOf[item] in w.rows && w.rows[w.requestOf[item]].state == Held
    requires item in w.items && w.items[item].state == Resolved
    ensures item in w'.requestOf && w'.requestOf[item] == w.requestOf[item]
    ensures w.requestOf[item] in w'.rows && w'.rows[w.requestOf[item]].state == Held
    decreases more
  {
    SoundAtFirst();
    SoundAlways(NOTHING_YET, events, w);
    HeldStaysHeld(w, more, w', item);
  }

  lemma {:induction false} HeldStaysHeld(w: World, more: seq<Event>, w': World, item: Id)
    requires Sound(w) && Follows(w, more, w')
    requires item in w.requestOf && w.requestOf[item] in w.rows && w.rows[w.requestOf[item]].state == Held
    requires item in w.items && w.items[item].state == Resolved
    ensures item in w'.requestOf && w'.requestOf[item] == w.requestOf[item]
    ensures w.requestOf[item] in w'.rows && w'.rows[w.requestOf[item]].state == Held
    decreases more
  {
    if more != [] {
      var e := more[0];
      assert RequestOk(w, w.requestOf[item]) && ItemOk(w, item);
      OnlyAnAnswerDecides(w, e, w.requestOf[item]);
      SoundIsKept(w, e);
      if e.AnswerSettled? { assert AnswerOk(w, e.answer); }
      HeldStaysHeld(Apply(w, e), more[1..], w', item);
    }
  }

  // ---- What a turn travels with -----------------------------------------------------------

  /** The grants a turn holds, none of them spent. */
  function LiveFor(grants: seq<Grant>, job: Id): seq<Grant> {
    if grants == [] then []
    else (if grants[0].job == job then [grants[0]] else []) + LiveFor(grants[1..], job)
  }

  /** The turn a payload names. */
  function JobOf(kind: Kind): Option<Id> {
    match kind
    case Gate(r) => Some(r.job)
    case ByHand(_, _, sent) => sent.job
    case FollowUp(_) => None
  }

  /** Whether a person has answered a question of this turn, either way. */
  predicate WasAnswered(w: World, job: Id) {
    exists i :: i in w.items && JobOf(w.items[i].kind) == Some(job) && w.items[i].state != Pending
  }

  /** A grant says what its item's payload says, and a person said yes to it. */
  predicate GrantOk(w: World, g: Grant) {
    && g.item in w.items && Mints(w.items[g.item].kind) && w.items[g.item].state == Resolved
    && var r := RecordOf(w.items[g.item].kind).value;
       && g.act == r.act && g.job == r.job && g.session == r.session
       && match g.extent
          case CallExtent => g.keyedOn == r.shape
          case UnitExtent => r.covers == Some(g.keyedOn)
  }

  predicate GrantsOk(w: World) {
    forall k :: 0 <= k < |w.grants| ==> GrantOk(w, w.grants[k])
  }

  lemma GrantsStayOk(w: World, e: Event)
    requires Sound(w) && GrantsOk(w) && Enabled(w, e)
    ensures GrantsOk(Apply(w, e))
  {
    var w' := Apply(w, e);
    if e.AnswerSettled? { assert AnswerOk(w, e.answer); }
    assert forall i :: i in w.items && w.items[i].state == Resolved ==> i in w'.items && w'.items[i] == w.items[i];
    forall k | 0 <= k < |w'.grants| ensures GrantOk(w', w'.grants[k]) {
      if k < |w.grants| { assert GrantOk(w, w.grants[k]) && w'.grants[k] == w.grants[k]; }
    }
  }

  lemma {:induction false} GrantsAlwaysOk(w: World, events: seq<Event>, w': World)
    requires Sound(w) && GrantsOk(w) && Follows(w, events, w')
    ensures GrantsOk(w')
    decreases events
  {
    if events != [] {
      SoundIsKept(w, events[0]);
      GrantsStayOk(w, events[0]);
      GrantsAlwaysOk(Apply(w, events[0]), events[1..], w');
    }
  }

  lemma {:induction false} LiveAre(grants: seq<Grant>, job: Id, g: Grant)
    ensures g in LiveFor(grants, job) <==> g in grants && g.job == job
  {
    if grants != [] { LiveAre(grants[1..], job, g); }
  }

  /** What a turn travels with is what people said yes to in it: each grant it
      holds is what an item naming that turn says of itself, and no other grant of
      that item stands beside it. Where nobody asked by hand with such a payload,
      that is the act refused, and the shape refused or the unit offered. */
  lemma ATurnTravelsWithItsYeses(events: seq<Event>, w: World, job: Id, g: Grant)
    requires Follows(NOTHING_YET, events, w) && g in LiveFor(w.grants, job)
    ensures GrantOk(w, g) && JobOf(w.items[g.item].kind) == Some(job) && WasAnswered(w, job)
    ensures Granted(w.grants, g.item, CallExtent) + Granted(w.grants, g.item, UnitExtent) == 1
    ensures g.extent.CallExtent? ==> !Released(w, g.item)
    ensures w.items[g.item].kind.Gate? || (w.items[g.item].kind.ByHand? && Mints(w.items[g.item].kind))
  {
    SoundAtFirst();
    GrantsAlwaysOk(NOTHING_YET, events, w);
    LiveAre(w.grants, job, g);
    var k :| 0 <= k < |w.grants| && w.grants[k] == g;
    assert GrantOk(w, g);
    SoundAlways(NOTHING_YET, events, w);
    assert ItemOk(w, g.item);
    CountedOnce(w.grants, k);
  }

  lemma {:induction false} CountedOnce(grants: seq<Grant>, k: nat)
    requires k < |grants|
    ensures Granted(grants, grants[k].item, grants[k].extent) >= 1
    decreases |grants|
  {
    if k < |grants| - 1 { CountedOnce(grants[..|grants| - 1], k); }
  }
}
