/** Raising a question about a refused request: a hold on the conversation, and
    an item that names the hold.

    A raise checks for a question already open, takes a hold, decides who is
    asked and inserts the item -- four steps against the database, between which
    other raises, requests made by hand and answers run, and a person may lift any
    hold by hand. A pod may be lost, and a release may fail; both leave a hold
    behind, and are the only things that do. */
module Gates {
  import opened Basics

  /** What a question is about. The unique index on open questions is over this
      pair, of the questions whose payload names a turn: every refusal's does, and
      one asked by hand does where its caller put it there. */
  datatype Key = Key(job: Id, act: Id)

  datatype Item = Item(session: Id, key: Option<Key>, byHand: bool, hold: Id, open: bool)

  /** Who answers for a hold: the raise still under way, or the item naming it. */
  datatype Owner = ByRaiser(raiser: Id) | ByItem(item: Id) | Abandoned

  datatype Hold = Hold(session: Id, owner: Owner)

  datatype Phase =
    | Checked                          // nothing was open; no hold taken yet
    | Took(hold: Id)
    | Finished(question: Option<Id>)   // the question the caller was given, if any

  /** A raise under way, or a request by hand. */
  datatype Raiser = Raiser(session: Id, key: Option<Key>, byHand: bool, phase: Phase)

  datatype World = World(
    items: map<Id, Item>,
    holds: map<Id, Hold>,        // the holds that stand; releasing deletes the row
    taken: set<Id>,              // every hold there ever was
    lifted: set<Id>,             // those a person lifted by hand
    raisers: map<Id, Raiser>)

  const NOTHING_YET := World(map[], map[], {}, {}, map[])

  /** An approval open on the conversation, found through the hold. */
  predicate IsOpenOn(w: World, item: Id, session: Id) {
    item in w.items && w.items[item].open &&
    w.items[item].hold in w.holds && w.holds[w.items[item].hold].session == session
  }

  predicate OpenGate(w: World, item: Id, session: Id) {
    item in w.items && w.items[item].open && w.items[item].session == session && !w.items[item].byHand
  }

  /** Reading whether an approval is open answers with one that is, or says
      there is none. */
  predicate ReadsOpen(w: World, session: Id, found: Option<Id>) {
    match found
    case Some(item) => IsOpenOn(w, item, session)
    case None => forall i :: i in w.items ==> !IsOpenOn(w, i, session)
  }

  predicate IndexRefuses(w: World, key: Option<Key>) {
    key.Some? && exists i :: i in w.items && w.items[i].open && w.items[i].key == key
  }

  predicate UnderWay(w: World, p: Id, session: Id) {
    p in w.raisers && w.raisers[p].session == session && !w.raisers[p].byHand && !w.raisers[p].phase.Finished?
  }

  datatype Event =
    | Check(raiser: Id, session: Id, key: Option<Key>, byHand: bool, found: Option<Id>)
    | Take(raiser: Id, hold: Id)
    | GiveUp(raiser: Id, released: bool)      // nobody to ask, or who is asked could not be read
    | Insert(raiser: Id, item: Id, stored: bool, released: bool, found: Option<Id>)
    | Lose(raiser: Id)                        // the pod is gone
    | Answer(item: Id)
    | Lift(hold: Id)                          // by hand, whoever has it

  function Release(holds: map<Id, Hold>, hold: Id, released: bool): map<Id, Hold> {
    if hold !in holds then holds
    else if released then holds - {hold}
    else holds[hold := holds[hold].(owner := Abandoned)]
  }

  predicate Wins(w: World, e: Event)
    requires e.Insert? && e.raiser in w.raisers
  {
    e.stored && !IndexRefuses(w, w.raisers[e.raiser].key)
  }

  predicate Enabled(w: World, e: Event) {
    match e
    case Check(p, session, key, byHand, found) =>
      // Somebody asking by hand does not look first; a refusal names its turn.
      p !in w.raisers && (if byHand then found == None else key.Some? && ReadsOpen(w, session, found))
    case Take(p, hold) => p in w.raisers && w.raisers[p].phase.Checked? && hold !in w.taken
    case GiveUp(p, _) => p in w.raisers && w.raisers[p].phase.Took?
    case Insert(p, item, _, _, found) =>
      && p in w.raisers && w.raisers[p].phase.Took? && item !in w.items
      // The loser looks again; a look that fails is taken for one that finds nothing.
      && (!Wins(w, e) && !w.raisers[p].byHand && found.Some? ==> IsOpenOn(w, found.value, w.raisers[p].session))
    case Lose(p) => p in w.raisers
    case Answer(item) => item in w.items
    case Lift(hold) => hold in w.holds
  }

  function Apply(w: World, e: Event): World
    requires Enabled(w, e)
  {
    match e
    case Check(p, session, key, byHand, found) =>
      w.(raisers := w.raisers[p := Raiser(session, key, byHand, if found.Some? then Finished(found) else Checked)])
    case Take(p, hold) =>
      w.(holds := w.holds[hold := Hold(w.raisers[p].session, ByRaiser(p))],
         taken := w.taken + {hold},
         raisers := w.raisers[p := w.raisers[p].(phase := Took(hold))])
    case GiveUp(p, released) =>
      w.(holds := Release(w.holds, w.raisers[p].phase.hold, released),
         raisers := w.raisers[p := w.raisers[p].(phase := Finished(None))])
    case Insert(p, item, _, released, found) =>
      var r := w.raisers[p];
      if Wins(w, e) then
        var named := w.(items := w.items[item := Item(r.session, r.key, r.byHand, r.phase.hold, true)],
                        raisers := w.raisers[p := r.(phase := Finished(Some(item)))]);
        if r.phase.hold in w.holds
        then named.(holds := w.holds[r.phase.hold := w.holds[r.phase.hold].(owner := ByItem(item))])
        else named
      else
        // Losing the race is not a failure: the question was asked.
        w.(holds := Release(w.holds, r.phase.hold, released),
           raisers := w.raisers[p := r.(phase := Finished(if r.byHand then None else found))])
    case Lose(p) =>
      var r := w.raisers[p];
      w.(holds := if r.phase.Took? then Release(w.holds, r.phase.hold, false) else w.holds,
         raisers := w.raisers[p := if r.phase.Finished? then r else r.(phase := Finished(None))])
    case Answer(item) =>
      if !w.items[item].open then w else
      w.(items := w.items[item := w.items[item].(open := false)],
         holds := w.holds - {w.items[item].hold})
    case Lift(hold) => w.(holds := w.holds - {hold}, lifted := w.lifted + {hold})
  }

  /** A step that leaves a hold behind. */
  predicate Fails(w: World, e: Event)
    requires Enabled(w, e)
  {
    match e
    case GiveUp(p, released) => !released && w.raisers[p].phase.hold in w.holds
    case Insert(p, _, _, released, _) => !released && !Wins(w, e) && w.raisers[p].phase.hold in w.holds
    case Lose(p) => w.raisers[p].phase.Took? && w.raisers[p].phase.hold in w.holds
    case Check(_, _, _, _, _) => false
    case Take(_, _) => false
    case Answer(_) => false
    case Lift(_) => false
  }

  /** No raise starts while another of its conversation, about another act or
      turn, is between its check and its insert. */
  ghost predicate Agrees(w: World, e: Event) {
    e.Check? && !e.byHand && e.found.None? ==>
      forall p :: UnderWay(w, p, e.session) ==> w.raisers[p].key == e.key
  }

  /** What is further asked of a run. */
  datatype Rules = Rules(nothingFails: bool, oneActAtATime: bool)

  const ANY_RUN := Rules(false, false)

  ghost predicate Allowed(w: World, e: Event, rules: Rules) {
    && Enabled(w, e)
    && (rules.nothingFails ==> !Fails(w, e))
    && (rules.oneActAtATime ==> Agrees(w, e))
  }

  ghost predicate Follows(w: World, events: seq<Event>, w': World, rules: Rules)
    decreases events
  {
    if events == [] then w == w'
    else Allowed(w, events[0], rules) && Follows(Apply(w, events[0]), events[1..], w', rules)
  }

  // ---- What a step does ------------------------------------------------------------------

  /** A question is asked where it was stored and no open question has its key: it is
      open, and the hold taken is its own. Otherwise no question is added, the hold is
      let go where its release succeeds, and a refusal's raise is given what its second
      look found. */
  lemma AnInsertComesTo(w: World, p: Id, item: Id, stored: bool, released: bool, found: Option<Id>)
    requires Sound(w) && Enabled(w, Insert(p, item, stored, released, found))
    ensures var w', r := Apply(w, Insert(p, item, stored, released, found)), w.raisers[p];
            var asks := stored && !(r.key.Some? && exists i :: i in w.items && w.items[i].open && w.items[i].key == r.key);
            && w'.raisers == w.raisers[p := r.(phase := Finished(if asks then Some(item) else if r.byHand then None else found))]
            && w'.items == (if asks then w.items[item := Item(r.session, r.key, r.byHand, r.phase.hold, true)] else w.items)
            && w'.holds.Keys == w.holds.Keys - (if !asks && released then {r.phase.hold} else {})
            && (asks && r.phase.hold in w.holds ==> w'.holds[r.phase.hold] == Hold(r.session, ByItem(item)))
            && (forall h :: h in w'.holds && h != r.phase.hold ==> w'.holds[h] == w.holds[h])
  {
    assert RaiserOk(w, p);
    if w.raisers[p].phase.hold in w.holds { assert HoldOk(w, w.raisers[p].phase.hold); }
  }

  /** An answer closes its question and lifts its hold, once; and what the other
      steps do. */
  lemma OtherStepsComeTo(w: World, e: Event)
    requires Enabled(w, e)
    ensures var w' := Apply(w, e);
            match e
            case Check(p, session, key, byHand, found) =>
              w' == w.(raisers := w.raisers[p := Raiser(session, key, byHand, if found.None? then Checked else Finished(found))])
            case Take(p, hold) =>
              && w'.items == w.items && w'.holds == w.holds[hold := Hold(w.raisers[p].session, ByRaiser(p))]
              && w'.raisers == w.raisers[p := w.raisers[p].(phase := Took(hold))]
            case GiveUp(p, released) =>
              && w'.items == w.items && w'.raisers == w.raisers[p := w.raisers[p].(phase := Finished(None))]
              && w'.holds.Keys == w.holds.Keys - (if released then {w.raisers[p].phase.hold} else {})
            case Lose(p) =>
              && w'.items == w.items && w'.holds.Keys == w.holds.Keys && w'.raisers[p].phase.Finished?
              && forall q :: q in w.raisers && q != p ==> w'.raisers[q] == w.raisers[q]
            case Answer(item) =>
              if w.items[item].open
              then && w'.items == w.items[item := w.items[item].(open := false)] && w'.holds == w.holds - {w.items[item].hold}
                   && w'.raisers == w.raisers
              else w' == w
            case Lift(hold) => w'.items == w.items && w'.raisers == w.raisers && w'.holds == w.holds - {hold}
            case Insert(_, _, _, _, _) => true
  {
  }

  // ---- Every hold is answered for -----------------------------------------------------

  predicate HoldOk(w: World, h: Id) {
    h in w.taken && h !in w.lifted && h in w.holds &&
    match w.holds[h].owner
    case ByRaiser(p) => p in w.raisers && w.raisers[p].phase == Took(h) && w.raisers[p].session == w.holds[h].session
    case ByItem(i) => i in w.items && w.items[i].open && w.items[i].hold == h && w.items[i].session == w.holds[h].session
    case Abandoned => true
  }

  predicate ItemOk(w: World, i: Id) {
    i in w.items && w.items[i].hold in w.taken && (!w.items[i].byHand ==> w.items[i].key.Some?) &&
    if w.items[i].open && w.items[i].hold !in w.lifted
    then w.items[i].hold in w.holds && w.holds[w.items[i].hold].owner == ByItem(i)
    else w.items[i].hold !in w.holds
  }

  predicate RaiserOk(w: World, p: Id) {
    p in w.raisers && (!w.raisers[p].byHand ==> w.raisers[p].key.Some?) &&
    (w.raisers[p].phase.Took? ==>
      && w.raisers[p].phase.hold in w.taken
      && if w.raisers[p].phase.hold in w.lifted then w.raisers[p].phase.hold !in w.holds
         else w.raisers[p].phase.hold in w.holds && w.holds[w.raisers[p].phase.hold].owner == ByRaiser(p))
  }

  /** One item names a hold, or one raise has it. */
  ghost predicate HoldsApart(w: World) {
    && (forall p, q :: p in w.raisers && q in w.raisers && w.raisers[p].phase.Took? && w.raisers[p].phase == w.raisers[q].phase ==> p == q)
    && (forall i, p :: i in w.items && p in w.raisers ==> w.raisers[p].phase != Took(w.items[i].hold))
    && (forall i, j :: i in w.items && j in w.items && w.items[i].hold == w.items[j].hold ==> i == j)
  }

  /** No two open questions share a key. */
  ghost predicate KeysApart(w: World) {
    forall i, j ::
      (i in w.items && j in w.items && w.items[i].open && w.items[j].open &&
        w.items[i].key.Some? && w.items[i].key == w.items[j].key)
      ==> i == j
  }

  ghost predicate Sound(w: World) {
    && (forall h :: h in w.holds ==> HoldOk(w, h))
    && (forall i :: i in w.items ==> ItemOk(w, i))
    && (forall p :: p in w.raisers ==> RaiserOk(w, p))
    && w.lifted <= w.taken && HoldsApart(w) && KeysApart(w)
  }

  lemma HoldsStayOk(w: World, e: Event, h: Id)
    requires Sound(w) && Enabled(w, e) && h in Apply(w, e).holds
    ensures HoldOk(Apply(w, e), h)
  {
    if h in w.holds { assert HoldOk(w, h); }
    if (e.GiveUp? || e.Insert? || e.Lose?) { assert RaiserOk(w, e.raiser); }
    if e.Answer? { assert ItemOk(w, e.item); }
  }

  lemma ItemsStayOk(w: World, e: Event, i: Id)
    requires Sound(w) && Enabled(w, e) && i in Apply(w, e).items
    ensures ItemOk(Apply(w, e), i)
  {
    if i in w.items { assert ItemOk(w, i); }
    if (e.GiveUp? || e.Insert? || e.Lose?) { assert RaiserOk(w, e.raiser); }
    if e.Answer? { assert ItemOk(w, e.item); }
  }

  lemma RaisersStayOk(w: World, e: Event, p: Id)
    requires Sound(w) && Enabled(w, e) && p in Apply(w, e).raisers
    ensures RaiserOk(Apply(w, e), p)
  {
    if p in w.raisers { assert RaiserOk(w, p); }
    if (e.GiveUp? || e.Insert? || e.Lose?) { assert RaiserOk(w, e.raiser); }
    if e.Answer? { assert ItemOk(w, e.item); }
  }

  lemma KeysStayApart(w: World, e: Event)
    requires Sound(w) && Enabled(w, e)
    ensures KeysApart(Apply(w, e))
  {
  }

  lemma NewHoldIsNobodys(w: World, h: Id)
    requires Sound(w) && h !in w.taken
    ensures forall i :: i in w.items ==> w.items[i].hold != h
    ensures forall p :: p in w.raisers ==> w.raisers[p].phase != Took(h)
  {
    forall i | i in w.items ensures w.items[i].hold != h { assert ItemOk(w, i); }
    forall p | p in w.raisers ensures w.raisers[p].phase != Took(h) { assert RaiserOk(w, p); }
  }

  lemma HoldsStayApart(w: World, e: Event)
    requires Sound(w) && Enabled(w, e)
    ensures HoldsApart(Apply(w, e))
  {
    hide HoldOk, ItemOk, RaiserOk, KeysApart, Release;
    if e.Take? {
      NewHoldIsNobodys(w, e.hold);
    }
  }

  lemma SoundIsKept(w: World, e: Event)
    requires Sound(w) && Enabled(w, e)
    ensures Sound(Apply(w, e))
  {
    var w' := Apply(w, e);
    forall h | h in w'.holds ensures HoldOk(w', h) { HoldsStayOk(w, e, h); }
    forall i | i in w'.items ensures ItemOk(w', i) { ItemsStayOk(w, e, i); }
    forall p | p in w'.raisers ensures RaiserOk(w', p) { RaisersStayOk(w, e, p); }
    HoldsStayApart(w, e);
    KeysStayApart(w, e);
    if e.Lift? { assert HoldOk(w, e.hold); }
  }

  lemma {:induction false} SoundAlways(w: World, events: seq<Event>, w': World, rules: Rules)
    requires Sound(w) && Follows(w, events, w', rules)
    ensures Sound(w')
    decreases events
  {
    if events != [] {
      SoundIsKept(w, events[0]);
      SoundAlways(Apply(w, events[0]), events[1..], w', rules);
    }
  }

  lemma SoundAtFirst()
    ensures Sound(NOTHING_YET)
  {
  }

  /** Every hold ever taken is released, or named by exactly one item, or still
      in the hands of the raise that took it -- or was left behind by a release
      that failed or a pod that was lost. */
  lemma EveryHoldIsAnsweredFor(events: seq<Event>, w: World, h: Id)
    requires Follows(NOTHING_YET, events, w, ANY_RUN) && h in w.holds
    ensures match w.holds[h].owner
            case ByItem(i) =>
              i in w.items && w.items[i].open && w.items[i].hold == h &&
              forall j :: j in w.items && w.items[j].hold == h ==> j == i
            case ByRaiser(p) =>
              p in w.raisers && w.raisers[p].phase == Took(h) && forall j :: j in w.items ==> w.items[j].hold != h
            case Abandoned =>
              forall j :: j in w.items ==> w.items[j].hold != h
  {
    SoundAtFirst();
    SoundAlways(NOTHING_YET, events, w, ANY_RUN);
    assert HoldOk(w, h);
    forall j | j in w.items && w.items[j].hold == h
      ensures w.holds[h].owner == ByItem(j)
    {
      assert ItemOk(w, j);
    }
  }

  /** A hold that stands with nobody to lift it: no open item names it, and no
      raise under way has taken it. */
  ghost predicate LeftStanding(w: World, h: Id) {
    && h in w.holds
    && (forall i :: i in w.items && w.items[i].open ==> w.items[i].hold != h)
    && (forall p :: p in w.raisers ==> w.raisers[p].phase != Took(h))
  }

  lemma LeftStandingIsAbandoned(w: World, h: Id)
    requires Sound(w)
    ensures LeftStanding(w, h) <==> h in w.holds && w.holds[h].owner.Abandoned?
  {
    if h in w.holds {
      assert HoldOk(w, h);
      if w.holds[h].owner.Abandoned? {
        forall i | i in w.items && w.items[i].open ensures w.items[i].hold != h { assert ItemOk(w, i); }
        forall p | p in w.raisers ensures w.raisers[p].phase != Took(h) { assert RaiserOk(w, p); }
      }
    }
  }

  /** Exactly when a hold comes to stand with nobody to lift it: a release failed,
      or a raise was lost with one taken. */
  lemma AHoldIsAbandonedIff(w: World, e: Event)
    requires Sound(w) && Enabled(w, e)
    ensures Fails(w, e) <==> exists h :: LeftStanding(Apply(w, e), h) && !LeftStanding(w, h)
  {
    var w' := Apply(w, e);
    SoundIsKept(w, e);
    if Fails(w, e) {
      var p := e.raiser;
      assert RaiserOk(w, p);
      var h := w.raisers[p].phase.hold;
      LeftStandingIsAbandoned(w, h);
      LeftStandingIsAbandoned(w', h);
      assert LeftStanding(w', h) && !LeftStanding(w, h);
    }
    forall h | LeftStanding(w', h) && !LeftStanding(w, h) ensures Fails(w, e) {
      LeftStandingIsAbandoned(w, h);
      LeftStandingIsAbandoned(w', h);
    }
  }

  /** Where nothing fails, every hold that stands has somebody to lift it. */
  lemma {:induction false} NothingIsAbandoned(w: World, events: seq<Event>, w': World, rules: Rules)
    requires Sound(w) && Follows(w, events, w', rules) && rules.nothingFails
    requires forall h :: !LeftStanding(w, h)
    ensures forall h :: !LeftStanding(w', h)
    decreases events
  {
    if events != [] {
      SoundIsKept(w, events[0]);
      AHoldIsAbandonedIff(w, events[0]);
      assert forall h :: !LeftStanding(Apply(w, events[0]), h);
      NothingIsAbandoned(Apply(w, events[0]), events[1..], w', rules);
    }
  }

  /** The hold of an open question. */
  predicate Suspends(w: World, i: Id, h: Id) {
    i in w.items && w.items[i].open && w.items[i].hold == h
  }

  /** Once every raise is over, in a run where nothing failed, the holds that
      stand are exactly those of the questions still open, but for holds lifted by
      hand: no conversation is left held with nobody asked, and one left unheld
      with somebody asked is one a person let go. */
  lemma QuestionsAndHoldsMatch(events: seq<Event>, w: World, h: Id)
    requires Follows(NOTHING_YET, events, w, Rules(true, false))
    requires forall p :: p in w.raisers ==> w.raisers[p].phase.Finished?
    ensures h in w.holds <==> h !in w.lifted && exists i :: Suspends(w, i, h)
  {
    SoundAtFirst();
    SoundAlways(NOTHING_YET, events, w, Rules(true, false));
    NothingIsAbandoned(NOTHING_YET, events, w, Rules(true, false));
    if h in w.holds {
      assert HoldOk(w, h);
      LeftStandingIsAbandoned(w, h);
      assert Suspends(w, w.holds[h].owner.item, h);
    }
    if i :| Suspends(w, i, h) {
      assert ItemOk(w, i);
    }
  }

  // ---- One open question --------------------------------------------------------------

  /** What the unique index gives: of one act of one turn, one open question,
      whatever interleaves. */
  lemma OneQuestionPerAct(events: seq<Event>, w: World, i: Id, j: Id)
    requires Follows(NOTHING_YET, events, w, ANY_RUN)
    requires i in w.items && j in w.items && w.items[i].open && w.items[j].open
    requires w.items[i].key.Some? && w.items[i].key == w.items[j].key
    ensures i == j
  {
    SoundAtFirst();
    SoundAlways(NOTHING_YET, events, w, ANY_RUN);
  }

  ghost predicate AtMostOneOpen(w: World, session: Id) {
    forall i, j :: OpenGate(w, i, session) && OpenGate(w, j, session) ==> i == j
  }

  /** An open gate question whose hold nobody lifted by hand. */
  predicate OpenAndHeld(w: World, item: Id, session: Id) {
    OpenGate(w, item, session) && w.items[item].hold !in w.lifted
  }

  /** Everything under way on a conversation, and the question open on it and
      held, are about one act. */
  ghost predicate OneAct(w: World, session: Id) {
    && (forall p, q :: UnderWay(w, p, session) && UnderWay(w, q, session) ==> w.raisers[p].key == w.raisers[q].key)
    && (forall i, p :: OpenAndHeld(w, i, session) && UnderWay(w, p, session) ==> w.items[i].key == w.raisers[p].key)
    && (forall i, j :: OpenAndHeld(w, i, session) && OpenAndHeld(w, j, session) ==> i == j)
  }

  /** The check finds an open gate question if and only if nobody lifted its hold
      by hand. */
  lemma OpenIsFoundIff(w: World, i: Id, session: Id)
    requires Sound(w) && OpenGate(w, i, session)
    ensures IsOpenOn(w, i, session) <==> w.items[i].hold !in w.lifted
  {
    assert ItemOk(w, i);
    if w.items[i].hold in w.holds { assert HoldOk(w, w.items[i].hold); }
  }

  lemma OneActIsKept(w: World, e: Event, session: Id)
    requires Sound(w) && OneAct(w, session) && Enabled(w, e) && Agrees(w, e)
    ensures OneAct(Apply(w, e), session)
  {
    if e.Check? {
      OneActAfterCheck(w, e, session);
    } else if e.Insert? {
      OneActAfterInsert(w, e, session);
    } else {
      var w' := Apply(w, e);
      assert forall i :: OpenAndHeld(w', i, session) ==> OpenAndHeld(w, i, session) && w'.items[i] == w.items[i];
      assert forall p :: UnderWay(w', p, session) ==> UnderWay(w, p, session) && w'.raisers[p].key == w.raisers[p].key;
    }
  }

  lemma OneActAfterCheck(w: World, e: Event, session: Id)
    requires e.Check? && Sound(w) && OneAct(w, session) && Enabled(w, e) && Agrees(w, e)
    ensures OneAct(Apply(w, e), session)
  {
    var w' := Apply(w, e);
    assert forall i :: OpenAndHeld(w', i, session) ==> OpenAndHeld(w, i, session);
    forall i | OpenAndHeld(w, i, e.session)
      ensures IsOpenOn(w, i, e.session)
    {
      OpenIsFoundIff(w, i, e.session);
    }
    assert forall p :: UnderWay(w', p, session) && p != e.raiser ==> UnderWay(w, p, session);
  }

  lemma WinnerIsAlone(w: World, e: Event, session: Id)
    requires e.Insert? && Sound(w) && OneAct(w, session) && Enabled(w, e)
    requires UnderWay(w, e.raiser, session) && Wins(w, e)
    ensures forall i :: !OpenAndHeld(w, i, session)
  {
    assert RaiserOk(w, e.raiser);
  }

  lemma OneActAfterInsert(w: World, e: Event, session: Id)
    requires e.Insert? && Sound(w) && OneAct(w, session) && Enabled(w, e)
    ensures OneAct(Apply(w, e), session)
  {
    hide HoldOk, ItemOk, RaiserOk, HoldsApart, IsOpenOn, Release;
    var w' := Apply(w, e);
    assert forall p :: UnderWay(w', p, session) ==>
        UnderWay(w, p, session) && p != e.raiser && w'.raisers[p] == w.raisers[p];
    assert forall i :: OpenAndHeld(w', i, session) ==>
        OpenAndHeld(w, i, session) || (i == e.item && Wins(w, e) && UnderWay(w, e.raiser, session));
    if UnderWay(w, e.raiser, session) && Wins(w, e) {
      WinnerIsAlone(w, e, session);
    }
  }

  lemma {:induction false} OneActAlways(w: World, events: seq<Event>, w': World, session: Id, rules: Rules)
    requires Sound(w) && OneAct(w, session) && Follows(w, events, w', rules) && rules.oneActAtATime
    ensures OneAct(w', session)
    decreases events
  {
    if events != [] {
      SoundIsKept(w, events[0]);
      OneActIsKept(w, events[0], session);
      OneActAlways(Apply(w, events[0]), events[1..], w', session, rules);
    }
  }

  /** In every run in which the raises that overlap on a conversation are about
      one act of one turn, at most one gate question is open on it and held; so at
      most one is open where nobody lifted an open question's hold by hand. */
  lemma OneOpenQuestion(events: seq<Event>, w: World, session: Id)
    requires Follows(NOTHING_YET, events, w, Rules(false, true))
    ensures forall i, j :: OpenAndHeld(w, i, session) && OpenAndHeld(w, j, session) ==> i == j
    ensures (forall i :: OpenGate(w, i, session) ==> w.items[i].hold !in w.lifted) ==> AtMostOneOpen(w, session)
  {
    SoundAtFirst();
    OneActAlways(NOTHING_YET, events, w, session, Rules(false, true));
    if forall i :: OpenGate(w, i, session) ==> w.items[i].hold !in w.lifted {
      assert forall i :: OpenGate(w, i, session) ==> OpenAndHeld(w, i, session);
    }
  }

  lemma AskedAlone(session: Id, charge: Key) returns (events: seq<Event>, w: World)
    ensures Follows(NOTHING_YET, events, w, Rules(true, true))
    ensures w == World(map[1 := Item(session, Some(charge), false, 1, true)], map[1 := Hold(session, ByItem(1))], {1}, {},
                       map[1 := Raiser(session, Some(charge), false, Finished(Some(1)))])
  {
    var rules := Rules(true, true);
    events, w := [], NOTHING_YET;
    events, w := Go(events, w, Check(1, session, Some(charge), false, None), rules);
    events, w := Go(events, w, Take(1, 1), rules);
    events, w := Go(events, w, Insert(1, 1, true, true, None), rules);
  }

  lemma AskedAndLifted(session: Id, charge: Key) returns (events: seq<Event>, w: World)
    ensures Follows(NOTHING_YET, events, w, Rules(true, true))
    ensures w == World(map[1 := Item(session, Some(charge), false, 1, true)], map[], {1}, {1},
                       map[1 := Raiser(session, Some(charge), false, Finished(Some(1)))])
  {
    var rules := Rules(true, true);
    events, w := AskedAlone(session, charge);
    events, w := Go(events, w, Lift(1), rules);
    assert w.holds == map[] && w.lifted == {1};
  }

  lemma AnotherTook(session: Id, charge: Key, refund: Key) returns (events: seq<Event>, w: World)
    requires charge != refund
    ensures Follows(NOTHING_YET, events, w, Rules(true, true))
    ensures w.items == map[1 := Item(session, Some(charge), false, 1, true)] && w.lifted == {1}
    ensures w.holds == map[2 := Hold(session, ByRaiser(2))]
    ensures w.raisers.Keys == {1, 2} && w.raisers[2] == Raiser(session, Some(refund), false, Took(2))
  {
    var rules := Rules(true, true);
    events, w := AskedAndLifted(session, charge);
    events, w := Go(events, w, Check(2, session, Some(refund), false, None), rules);
    events, w := Go(events, w, Take(2, 2), rules);
  }

  /** A hold lifted by hand leaves its question open where no check finds it: with
      no raises that overlap and nothing failing, a second question is asked. */
  lemma TwoOpenAfterALift(session: Id, charge: Key, refund: Key) returns (events: seq<Event>, w: World)
    requires charge != refund
    ensures Follows(NOTHING_YET, events, w, Rules(true, true))
    ensures OpenGate(w, 1, session) && OpenGate(w, 2, session) && !AtMostOneOpen(w, session)
    ensures w.holds == map[2 := Hold(session, ByItem(2))] && w.lifted == {1}
  {
    var rules := Rules(true, true);
    events, w := AnotherTook(session, charge, refund);
    events, w := Go(events, w, Insert(2, 2, true, true, None), rules);
    assert OpenGate(w, 1, session) && OpenGate(w, 2, session);
  }

  lemma LosingLiftsNoQuestion(w: World, e: Event, session: Id)
    requires Sound(w) && e.Insert? && Enabled(w, e) && !Wins(w, e)
    ensures forall f :: IsOpenOn(w, f, session) <==> IsOpenOn(Apply(w, e), f, session)
  {
    assert RaiserOk(w, e.raiser);
  }

  /** Two refusals past the check at once, neither seeing the other: both ask
      if and only if they are about different acts or turns. The check is per
      conversation, and the index that backs it is not. Where they are about
      one, the loser is given what its second look finds: the winner's question,
      or one asked by hand, unless the look fails or the winner's hold was lifted
      by hand. */
  lemma BothAskIffActsDiffer(w: World, p: Id, q: Id, session: Id, i: Id, j: Id, found: Option<Id>, released: bool)
    requires Sound(w) && forall k :: !OpenGate(w, k, session)
    requires UnderWay(w, p, session) && UnderWay(w, q, session) && p != q
    requires w.raisers[p].phase.Took? && w.raisers[q].phase.Took? && i != j
    requires !IndexRefuses(w, w.raisers[p].key) && !IndexRefuses(w, w.raisers[q].key)
    requires Enabled(w, Insert(p, i, true, true, None))
    requires Enabled(Apply(w, Insert(p, i, true, true, None)), Insert(q, j, true, released, found))
    ensures var w' := Apply(Apply(w, Insert(p, i, true, true, None)), Insert(q, j, true, released, found));
            && OpenGate(w', i, session)
            && (OpenGate(w', j, session) <==> w.raisers[p].key != w.raisers[q].key)
            && (w.raisers[p].key == w.raisers[q].key ==>
                  && w'.raisers[q].phase == Finished(found)
                  && (found.Some? ==> IsOpenOn(w', found.value, session))
                  && (ReadsOpen(w', session, found) && w.raisers[p].phase.hold !in w.lifted ==> found.Some?))
  {
    var w1 := Apply(w, Insert(p, i, true, true, None));
    var e := Insert(q, j, true, released, found);
    SoundIsKept(w, Insert(p, i, true, true, None));
    OpenIsFoundIff(w1, i, session);
    if w.raisers[p].key == w.raisers[q].key {
      assert w1.items[i].key == w1.raisers[q].key;
      assert IndexRefuses(w1, w1.raisers[q].key);
      LosingLiftsNoQuestion(w1, e, session);
    } else {
      assert !IndexRefuses(w1, w1.raisers[q].key);
    }
  }

  lemma BothChecked(session: Id, charge: Key, refund: Key) returns (events: seq<Event>, w: World)
    ensures Follows(NOTHING_YET, events, w, Rules(true, false))
    ensures w.items == map[] && w.holds == map[] && w.taken == {}
    ensures w.raisers == map[1 := Raiser(session, Some(charge), false, Checked), 2 := Raiser(session, Some(refund), false, Checked)]
  {
    var rules := Rules(true, false);
    events, w := [], NOTHING_YET;
    events, w := Go(events, w, Check(1, session, Some(charge), false, None), rules);
    events, w := Go(events, w, Check(2, session, Some(refund), false, None), rules);
  }

  /** Two refusals relayed at once, about two acts of one turn: both find
      nothing open, and both take a hold. */
  lemma BothTookHolds(session: Id, charge: Key, refund: Key) returns (events: seq<Event>, w: World)
    requires charge != refund
    ensures Follows(NOTHING_YET, events, w, Rules(true, false))
    ensures w.items == map[] && w.holds == map[1 := Hold(session, ByRaiser(1)), 2 := Hold(session, ByRaiser(2))]
    ensures w.raisers == map[1 := Raiser(session, Some(charge), false, Took(1)), 2 := Raiser(session, Some(refund), false, Took(2))]
  {
    var rules := Rules(true, false);
    events, w := BothChecked(session, charge, refund);
    events, w := Go(events, w, Take(1, 1), rules);
    events, w := Go(events, w, Take(2, 2), rules);
  }

  /** A guest making two gated calls of different acts in one round leaves the
      conversation with two open questions, each with a hold of its own. */
  lemma TwoActsBothAsked(session: Id, charge: Key, refund: Key) returns (events: seq<Event>, w: World)
    requires charge != refund
    ensures Follows(NOTHING_YET, events, w, Rules(true, false))
    ensures OpenGate(w, 1, session) && OpenGate(w, 2, session) && !AtMostOneOpen(w, session)
    ensures w.items[1].hold in w.holds && w.items[2].hold in w.holds && w.items[1].hold != w.items[2].hold
  {
    var rules := Rules(true, false);
    events, w := BothTookHolds(session, charge, refund);
    events, w := Go(events, w, Insert(1, 1, true, true, None), rules);
    events, w := Go(events, w, Insert(2, 2, true, true, None), rules);
    assert OpenGate(w, 1, session) && OpenGate(w, 2, session);
  }

  /** A question asked by hand on one conversation, its payload naming a turn. */
  lemma AskedByHand(session: Id, key: Key) returns (events: seq<Event>, w: World)
    ensures Follows(NOTHING_YET, events, w, Rules(true, false))
    ensures w.items == map[1 := Item(session, Some(key), true, 1, true)] && w.holds == map[1 := Hold(session, ByItem(1))]
    ensures w.raisers == map[1 := Raiser(session, Some(key), true, Finished(Some(1)))] && w.taken == {1}
  {
    var rules := Rules(true, false);
    events, w := [], NOTHING_YET;
    events, w := Go(events, w, Check(1, session, Some(key), true, None), rules);
    events, w := Go(events, w, Take(1, 1), rules);
    events, w := Go(events, w, Insert(1, 1, true, true, None), rules);
  }

  lemma RefusedElsewhere(there: Id, here: Id, key: Key) returns (events: seq<Event>, w: World)
    requires there != here
    ensures Follows(NOTHING_YET, events, w, Rules(true, false))
    ensures w.items == map[1 := Item(there, Some(key), true, 1, true)]
    ensures w.holds == map[1 := Hold(there, ByItem(1)), 2 := Hold(here, ByRaiser(2))]
    ensures w.raisers.Keys == {1, 2} && w.raisers[2] == Raiser(here, Some(key), false, Took(2))
  {
    var rules := Rules(true, false);
    events, w := AskedByHand(there, key);
    events, w := Go(events, w, Check(2, here, Some(key), false, None), rules);
    events, w := Go(events, w, Take(2, 2), rules);
  }

  /** Losing the race is not always to a question of one's own conversation: the
      index refuses a refusal's question for one asked by hand elsewhere, of the
      same turn and act, and then nobody is asked and nothing is held. */
  lemma RefusedForAQuestionAskedByHand(there: Id, here: Id, key: Key) returns (events: seq<Event>, w: World)
    requires there != here
    ensures Follows(NOTHING_YET, events, w, Rules(true, false))
    ensures w.raisers.Keys == {1, 2} && w.raisers[2] == Raiser(here, Some(key), false, Finished(None))
    ensures (forall i :: !OpenGate(w, i, here)) && w.holds == map[1 := Hold(there, ByItem(1))]
  {
    events, w := RefusedElsewhere(there, here, key);
    assert w.items[1].open && IndexRefuses(w, Some(key));
    events, w := Go(events, w, Insert(2, 2, true, true, None), Rules(true, false));
  }

  lemma Go(events: seq<Event>, w: World, e: Event, rules: Rules) returns (events': seq<Event>, w': World)
    requires Follows(NOTHING_YET, events, w, rules) && Allowed(w, e, rules)
    ensures w' == Apply(w, e) && Follows(NOTHING_YET, events', w', rules)
  {
    Then(NOTHING_YET, events, w, e, rules);
    events', w' := events + [e], Apply(w, e);
  }

  lemma {:induction false} Then(first: World, events: seq<Event>, w: World, e: Event, rules: Rules)
    requires Follows(first, events, w, rules) && Allowed(w, e, rules)
    ensures Follows(first, events + [e], Apply(w, e), rules)
    decreases events
  {
    if events == [] {
      assert [e][1..] == [];
    } else {
      Then(Apply(first, events[0]), events[1..], w, e, rules);
      assert (events + [e])[1..] == events[1..] + [e];
    }
  }

  // ---- A raise nothing runs beside ------------------------------------------------------

  datatype Approvers = Somebody | Nobody | Unreadable

  datatype Raised =
    | Asked(question: Id)      // this question, raised now or open already
    | NotAsked                 // the request stays refused, and nobody is asked

  /** The tables a raise writes, where nothing else runs between its steps. A hold
      lifted by hand leaves its question open. */
  class GateStore {
    var items: map<Id, Item>
    var holds: map<Id, Id>     // hold -> the conversation it suspends

    ghost predicate Valid()
      reads this
    {
      forall i :: i in items && items[i].hold in holds ==> holds[items[i].hold] == items[i].session
    }

    /** An open question of the conversation whose hold stands. */
    predicate Asks(i: Id, session: Id)
      reads this
    {
      i in items && items[i].open && items[i].session == session && items[i].hold in holds
    }

    constructor ()
      ensures Valid() && items == map[] && holds == map[]
    {
      items, holds := map[], map[];
    }

    method ApprovalOnSession(session: Id) returns (found: Option<Id>)
      requires Valid()
      ensures found.Some? ==> Asks(found.value, session)
      ensures found.None? ==> forall i :: !Asks(i, session)
    {
      var open := set i | i in items && items[i].open && items[i].hold in holds && holds[items[i].hold] == session;
      if open == {} {
        assert forall i :: Asks(i, session) ==> i in open;
        return None;
      }
      var i :| i in open;
      return Some(i);
    }

    /** Asks, unless the conversation already has a question open and held. A hold is
        left standing without a question only where its release failed. */
    method Raise(session: Id, key: Key, hold: Id, item: Id, approvers: Approvers, stored: bool, released: bool)
      returns (raised: Raised)
      requires Valid() && hold !in holds && item !in items
      requires forall i :: i in items ==> items[i].hold != hold
      modifies this
      ensures Valid()
      ensures (exists i :: old(Asks(i, session))) ==>
                raised.Asked? && old(Asks(raised.question, session)) && items == old(items) && holds == old(holds)
      ensures (forall i :: !old(Asks(i, session))) ==>
                if approvers == Somebody && stored &&
                   forall i :: i in old(items) && old(items)[i].open ==> old(items)[i].key != Some(key)
                then raised == Asked(item) &&
                     items == old(items)[item := Item(session, Some(key), false, hold, true)] &&
                     holds == old(holds)[hold := session]
                else raised == NotAsked && items == old(items) &&
                     holds == if released then old(holds) else old(holds)[hold := session]
    {
      var existing := ApprovalOnSession(session);
      if existing.Some? {
        return Asked(existing.value);
      }
      forall i ensures !old(Asks(i, session)) { assert !Asks(i, session); }
      holds := holds[hold := session];
      if approvers == Unreadable || approvers == Nobody {
        if released { holds := holds - {hold}; }
        return NotAsked;
      }
      var refused := !stored || exists i :: i in items.Keys && items[i].open && items[i].key == Some(key);
      if refused {
        if released { holds := holds - {hold}; }
        // Reading again finds no question here: nothing ran beside this raise
        // to have asked one since the check. `Insert` above has the other case.
        return NotAsked;
      }
      items := items[item := Item(session, Some(key), false, hold, true)];
      return Asked(item);
    }

    /** Lifts a hold by hand, whatever was asked about it. */
    method Lift(hold: Id) returns (found: bool)
      requires Valid()
      modifies this`holds
      ensures Valid() && found == (hold in old(holds)) && holds == old(holds) - {hold}
      ensures forall i, session :: Asks(i, session) <==> old(Asks(i, session)) && items[i].hold != hold
    {
      found := hold in holds;
      holds := holds - {hold};
    }

    /** Answering settles the item and lifts its hold together, where it still
        stands. */
    method Answer(item: Id) returns (won: bool)
      requires Valid()
      requires forall i, j :: i in items && j in items && items[i].hold == items[j].hold ==> i == j
      modifies this
      ensures Valid()
      ensures won <==> item in old(items) && old(items)[item].open
      ensures if won then items == old(items)[item := old(items)[item].(open := false)] &&
                          holds == old(holds) - {old(items)[item].hold}
              else items == old(items) && holds == old(holds)
    {
      won := item in items && items[item].open;
      if won {
        holds := holds - {items[item].hold};
        items := items[item := items[item].(open := false)];
      }
    }
  }
}
