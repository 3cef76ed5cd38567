/** The record of declared writes, by idempotency key: claimed before a write is
    sent, settled with its answer, released when it was refused, and forgotten
    once its day is over. A claim is an insert and, where that meets a record,
    a reading back of it: two statements, with anybody's in between. */
module Invocations {
  import opened Basics

  /** Claims are remembered for a day, in seconds. */
  const DAY: nat := 86400

  datatype Key = Key(workspace: Id, name: string)

  datatype State = Attempted | Completed(response: string)

  datatype Record = Record(state: State, createdAt: int, expiresAt: int)

  datatype Claimed =
    | New                                        // send it
    | AlreadyDone(response: string, at: int)     // answer it from the record
    | InDoubt(at: int)                           // sent, and nobody knows

  datatype Db = Db(table: map<Key, Record>, now: int)

  datatype Op =
    | Insert(key: Key)                           // a claim's first statement
    | ReadBack(key: Key)                         // its second, where the first met a record
    | Settle(key: Key, response: Option<string>)
    | Forget
    | Tick(seconds: nat)

  /** Whether a key is remembered: recorded, and its day not over. */
  predicate Live(db: Db, key: Key) {
    key in db.table && !(db.table[key].expiresAt < db.now)
  }

  function Says(r: Record): Claimed {
    match r.state
    case Attempted => InDoubt(r.createdAt)
    case Completed(response) => AlreadyDone(response, r.createdAt)
  }

  /** What reading back tells: what the record says, expired or not, or nothing
      where there is none, and the claim then fails. */
  function Told(db: Db, key: Key): Option<Claimed> {
    if key in db.table then Some(Says(db.table[key])) else None
  }

  /** What a claim made in a single statement would be told. */
  function AtOnce(db: Db, key: Key): Claimed {
    if Live(db, key) then Says(db.table[key]) else New
  }

  function Apply(db: Db, op: Op): Db {
    match op
    case Insert(key) =>
      if Live(db, key) then db
      else db.(table := db.table[key := Record(Attempted, db.now, db.now + DAY)])
    case ReadBack(_) => db
    case Settle(key, response) =>
      if key !in db.table then db
      else if response.Some? then
        db.(table := db.table[key := db.table[key].(state := Completed(response.value))])
      else if db.table[key].state.Attempted? then db.(table := db.table - {key})
      else db
    case Forget => db.(table := map key | key in db.table && Live(db, key) :: db.table[key])
    case Tick(seconds) => db.(now := db.now + seconds)
  }

  function ApplyAll(db: Db, ops: seq<Op>): Db
    decreases ops
  {
    if ops == [] then db else ApplyAll(Apply(db, ops[0]), ops[1..])
  }

  /** What a statement has its claim told: an insert that met no record, that it
      is new, and a reading back, what it read. */
  function Answer(db: Db, op: Op): seq<Option<Claimed>> {
    match op
    case Insert(key) => if Live(db, key) then [] else [Some(New)]
    case ReadBack(key) => [Told(db, key)]
    case _ => []
  }

  /** What the claims of a sequence were told, in order. */
  function Answers(db: Db, ops: seq<Op>): seq<Option<Claimed>>
    decreases ops
  {
    if ops == [] then [] else Answer(db, ops[0]) + Answers(Apply(db, ops[0]), ops[1..])
  }

  /** The table, changed in place one statement at a time. */
  class InvocationStore {
    var table: map<Key, Record>

    constructor ()
      ensures table == map[]
    {
      table := map[];
    }

    /** One insert decides it: a key never seen, or whose record expired, is
        claimed, and any other is left as it is. */
    method ClaimInserted(key: Key, now: int) returns (claimed: bool)
      modifies this
      ensures claimed <==> !Live(Db(old(table), now), key)
      ensures table == Apply(Db(old(table), now), Insert(key)).table
    {
      claimed := key !in table || table[key].expiresAt < now;
      if claimed {
        table := table[key := Record(Attempted, now, now + DAY)];
      }
    }

    /** A claim that met a record is answered from it, if it is still there. */
    method ClaimReadBack(key: Key, now: int) returns (told: Option<Claimed>)
      ensures told == Told(Db(table, now), key)
      ensures told.None? <==> key !in table
      ensures told != Some(New)
    {
      if key !in table {
        return None;
      }
      match table[key].state {
        case Completed(response) => return Some(AlreadyDone(response, table[key].createdAt));
        case Attempted => return Some(InDoubt(table[key].createdAt));
      }
    }

    method SettleIn(key: Key, response: Option<string>, now: int)
      modifies this
      ensures table == Apply(Db(old(table), now), Settle(key, response)).table
    {
      match response {
        case Some(answer) =>
          if key in table {
            table := table[key := table[key].(state := Completed(answer))];
          }
        case None =>
          if key in table && table[key].state == Attempted {
            table := table - {key};
          }
      }
    }

    /** Deletes what has expired, and says how many records went. */
    method ForgetExpired(now: int) returns (gone: nat)
      modifies this
      ensures table == Apply(Db(old(table), now), Forget).table
      ensures gone == |old(table)| - |table|
      ensures forall key :: key in old(table) ==> (key !in table <==> old(table)[key].expiresAt < now)
    {
      var expired := set key | key in table && table[key].expiresAt < now;
      gone := |expired|;
      ghost var before := table;
      table := table - expired;
      assert before.Keys == table.Keys + expired;
    }
  }

  /** A claim that is told it is new is recorded as an attempt made now, and is
      remembered for a day, its last second included; whoever claims the key within
      it is told when. */
  lemma AClaimIsRecorded(db: Db, key: Key, ops: seq<Op>)
    requires Answer(db, Insert(key)) == [Some(New)]
    ensures Apply(db, Insert(key)) == db.(table := db.table[key := Record(Attempted, db.now, db.now + 86400)])
    ensures Elapsed(ops) <= 86400 && (forall op :: op in ops && op.Settle? ==> op.key != key) ==>
              var later := ApplyAll(Apply(db, Insert(key)), ops);
              Answer(later, Insert(key)) == [] && Answer(later, ReadBack(key)) == [Some(InDoubt(db.now))]
    ensures Elapsed(ops) > 86400 && (forall op :: op in ops ==> op.Tick?) ==>
              Answer(ApplyAll(Apply(db, Insert(key)), ops), Insert(key)) == [Some(New)]
  {
    var claimed := Apply(db, Insert(key));
    if Elapsed(ops) <= 86400 && forall op :: op in ops && op.Settle? ==> op.key != key {
      StaysAttempted(claimed, ops, key);
    } else if forall op :: op in ops ==> op.Tick? {
      OnlyTimePasses(claimed, ops);
    }
  }

  lemma {:induction false} StaysAttempted(db: Db, ops: seq<Op>, key: Key)
    requires Live(db, key) && db.now + Elapsed(ops) <= db.table[key].expiresAt
    requires forall op :: op in ops && op.Settle? ==> op.key != key
    ensures Live(ApplyAll(db, ops), key) && ApplyAll(db, ops).table[key] == db.table[key]
    decreases ops
  {
    if ops != [] { StaysAttempted(Apply(db, ops[0]), ops[1..], key); }
  }

  lemma {:induction false} OnlyTimePasses(db: Db, ops: seq<Op>)
    requires forall op :: op in ops ==> op.Tick?
    ensures ApplyAll(db, ops) == db.(now := db.now + Elapsed(ops))
    decreases ops
  {
    if ops != [] { OnlyTimePasses(Apply(db, ops[0]), ops[1..]); }
  }

  // ---- What comes between a claim's two statements -----------------------------------

  /** A refusal's release of an attempt, or the sweep of an expired record. */
  predicate Deletes(db: Db, op: Op, key: Key) {
    && key in db.table
    && match op
       case Settle(k, response) => k == key && response.None? && db.table[key].state.Attempted?
       case Forget => db.table[key].expiresAt < db.now
       case _ => false
  }

  /** The record is deleted on the way, and nobody claims the key again after. */
  predicate LeftDeleted(db: Db, ops: seq<Op>, key: Key)
    decreases ops
  {
    ops != [] &&
    ( (Deletes(db, ops[0], key) && Insert(key) !in ops[1..])
      || LeftDeleted(Apply(db, ops[0]), ops[1..], key))
  }

  lemma {:induction false} IsGoneIff(db: Db, ops: seq<Op>, key: Key)
    ensures key !in ApplyAll(db, ops).table
       <==> (key !in db.table && Insert(key) !in ops) || LeftDeleted(db, ops, key)
    decreases ops
  {
    if ops != [] {
      IsGoneIff(Apply(db, ops[0]), ops[1..], key);
      assert ops == [ops[0]] + ops[1..];
    }
  }

  /** A claim whose insert met a record is told nothing if and only if the record
      was deleted between its two statements, and the key not claimed again. */
  lemma TheAnswerIsLostIff(db: Db, between: seq<Op>, key: Key)
    requires Live(db, key)
    ensures Apply(db, Insert(key)) == db && Answer(db, Insert(key)) == []
    ensures Told(ApplyAll(db, between), key).None? <==> LeftDeleted(db, between, key)
  {
    IsGoneIff(db, between, key);
  }

  /** A release is enough, with no time passing. */
  lemma ReleasedBetween(key: Key)
    ensures var ops := [Insert(key), Insert(key), Settle(key, None), ReadBack(key)];
            Answers(Db(map[], 0), ops) == [Some(New), None]
  {
    var db := Db(map[], 0);
    var ops := [Insert(key), Insert(key), Settle(key, None), ReadBack(key)];
    var claimed := Apply(db, ops[0]);
    assert ops[1..] == [Insert(key), Settle(key, None), ReadBack(key)];
    assert ops[1..][1..] == [Settle(key, None), ReadBack(key)];
    assert [Settle(key, None), ReadBack(key)][1..] == [ReadBack(key)] && [ReadBack(key)][1..] == [];
    assert Apply(claimed, Insert(key)) == claimed;
    assert Answers(Apply(claimed, Settle(key, None)), [ReadBack(key)]) == [None];
    assert Answers(claimed, ops[1..][1..]) == [None];
    assert Answers(claimed, ops[1..]) == [None];
  }

  /** An answer recorded of a write whose day is over, and which is not claimed
      again after. */
  predicate AnsweredTooLate(db: Db, ops: seq<Op>, key: Key)
    decreases ops
  {
    ops != [] &&
    ( (ops[0].Settle? && ops[0].key == key && ops[0].response.Some? && !Live(db, key) && Insert(key) !in ops[1..])
      || AnsweredTooLate(Apply(db, ops[0]), ops[1..], key))
  }

  /** A single statement made at this moment would tell what is read at the end. */
  predicate TellsAt(db: Db, ops: seq<Op>, key: Key, moment: nat) {
    moment <= |ops| && Told(ApplyAll(db, ops), key) == Some(AtOnce(ApplyAll(db, ops[..moment]), key))
  }

  lemma {:induction false} MomentOf(db: Db, between: seq<Op>, key: Key) returns (moment: nat)
    requires Live(db, key) && !LeftDeleted(db, between, key) && !AnsweredTooLate(db, between, key)
    ensures TellsAt(db, between, key, moment)
    decreases between
  {
    if Insert(key) in between || (between != [] && Live(Apply(db, between[0]), key)) {
      assert between == [between[0]] + between[1..];
      var next := Apply(db, between[0]);
      if Live(next, key) {
        var later := MomentOf(next, between[1..], key);
        moment := later + 1;
      } else {
        assert Insert(key) in between[1..];
        var later := ClaimedAnew(next, between[1..], key);
        moment := later + 1;
      }
      assert between[..moment] == [between[0]] + between[1..][..moment - 1];
      assert between[..moment][1..] == between[1..][..moment - 1];
    } else {
      moment := 0;
      if between != [] {
        StaysAsItExpired(Apply(db, between[0]), between[1..], key);
      }
    }
  }

  /** A key whose record has gone or expired is live again once it is claimed. */
  lemma {:induction false} ClaimedAnew(db: Db, ops: seq<Op>, key: Key) returns (moment: nat)
    requires !Live(db, key) && Insert(key) in ops
    requires !LeftDeleted(db, ops, key) && !AnsweredTooLate(db, ops, key)
    ensures TellsAt(db, ops, key, moment)
    decreases ops
  {
    assert ops == [ops[0]] + ops[1..];
    var next := Apply(db, ops[0]);
    var later: nat;
    if Live(next, key) {
      later := MomentOf(next, ops[1..], key);
    } else {
      later := ClaimedAnew(next, ops[1..], key);
    }
    moment := later + 1;
    assert ops[..moment][1..] == ops[1..][..moment - 1];
  }

  /** What a claim is told, it would have been told in a single statement at some
      moment between its two, unless the answer it reads was recorded after the
      record expired. */
  lemma ToldAsAtOnce(db: Db, between: seq<Op>, key: Key)
    requires Live(db, key) && !LeftDeleted(db, between, key) && !AnsweredTooLate(db, between, key)
    ensures exists moment: nat :: TellsAt(db, between, key, moment)
  {
    var moment := MomentOf(db, between, key);
    assert TellsAt(db, between, key, moment);
  }

  /** An answer recorded after the record expired is read, where a single statement
      would have told the claim at each moment that it is in doubt, or that it is
      new. */
  lemma AnAnswerTooLateIsTold(key: Key, answer: string)
    ensures var db := Db(map[key := Record(Attempted, 0, DAY)], DAY);
            var between := [Tick(1), Settle(key, Some(answer))];
            && Live(db, key) && AnsweredTooLate(db, between, key)
            && Told(ApplyAll(db, between), key) == Some(AlreadyDone(answer, 0))
            && forall moment: nat :: !TellsAt(db, between, key, moment)
  {
    var db := Db(map[key := Record(Attempted, 0, DAY)], DAY);
    var between := [Tick(1), Settle(key, Some(answer))];
    var late := Apply(db, Tick(1));
    var ended := Apply(late, between[1]);
    assert between[1..] == [Settle(key, Some(answer))] && between[1..][1..] == [];
    assert ApplyAll(late, between[1..]) == ended;
    assert AnsweredTooLate(late, between[1..], key);
    forall moment: nat ensures !TellsAt(db, between, key, moment) {
      if moment == 0 {
        assert ApplyAll(db, between[..0]) == db;
      } else if moment == 1 {
        assert between[..1][1..] == [];
        assert ApplyAll(db, between[..1]) == late;
      } else if moment == 2 {
        assert between[..2] == between;
      }
    }
  }

  /** An expired record that nobody claims, deletes or answers says what it said. */
  lemma {:induction false} StaysAsItExpired(db: Db, ops: seq<Op>, key: Key)
    requires key in db.table && !Live(db, key) && Insert(key) !in ops
    requires !LeftDeleted(db, ops, key) && !AnsweredTooLate(db, ops, key)
    ensures Told(ApplyAll(db, ops), key) == Told(db, key)
    decreases ops
  {
    if ops != [] {
      assert ops == [ops[0]] + ops[1..];
      StaysAsItExpired(Apply(db, ops[0]), ops[1..], key);
    }
  }

  // ---- What forgetting changes ----------------------------------------------------------

  /** A table and the same one swept: what went had expired. */
  ghost predicate Swept(a: Db, b: Db) {
    && a.now == b.now
    && (forall key :: key in a.table ==> key in b.table && a.table[key] == b.table[key])
    && (forall key :: Live(b, key) ==> key in a.table)
  }

  function WithoutForgets(ops: seq<Op>): seq<Op> {
    if ops == [] then []
    else if ops[0].Forget? then WithoutForgets(ops[1..])
    else [ops[0]] + WithoutForgets(ops[1..])
  }

  /** Answer for answer the same, but that some are lost. */
  ghost predicate OnlyLost(with: seq<Option<Claimed>>, without: seq<Option<Claimed>>) {
    |with| == |without| && forall i :: 0 <= i < |with| ==> with[i] == without[i] || with[i].None?
  }

  lemma OnlyLostBoth(a: seq<Option<Claimed>>, b: seq<Option<Claimed>>, a': seq<Option<Claimed>>, b': seq<Option<Claimed>>)
    ensures OnlyLost([], [])
    ensures OnlyLost(a, b) && OnlyLost(a', b') ==> OnlyLost(a + a', b + b')
  {
  }

  lemma SweepsAreSilent(db: Db, op: Op)
    requires op.Forget?
    ensures Answer(db, op) == []
  {
  }

  /** A reading back that finds a record in the one table and, swept, not in the
      other. */
  predicate FindsSwept(a: Db, b: Db, op: Op) {
    op.ReadBack? && op.key in b.table && op.key !in a.table
  }

  lemma SweptIsKept(a: Db, b: Db, op: Op)
    requires Swept(a, b)
    ensures Swept(Apply(a, op), Apply(b, op))
    ensures Swept(Apply(a, Forget), b)
    ensures OnlyLost(Answer(a, op), Answer(b, op))
    ensures Answer(a, op) == Answer(b, op) <==> !FindsSwept(a, b, op)
  {
    if op.Insert? || op.ReadBack? {
      assert Live(a, op.key) <==> Live(b, op.key);
    }
    if FindsSwept(a, b, op) {
      assert Answer(a, op)[0] != Answer(b, op)[0];
    }
  }

  /** The same statements of two tables, the second of which sweeps as well or
      never does. */
  function Unswept(b: Db, op: Op, sweeps: bool): Db {
    if op.Forget? && !sweeps then b else Apply(b, op)
  }

  function Others(ops: seq<Op>, sweeps: bool): seq<Op> {
    if sweeps then ops else WithoutForgets(ops)
  }

  /** Some claim that met a record reads it back after it was swept away, where it
      would be there still but for the sweep. */
  predicate ReadsSwept(a: Db, b: Db, ops: seq<Op>, sweeps: bool)
    decreases ops
  {
    ops != [] &&
    (FindsSwept(a, b, ops[0]) || ReadsSwept(Apply(a, ops[0]), Unswept(b, ops[0], sweeps), ops[1..], sweeps))
  }

  lemma AnswersOfTwo(b: Db, ops: seq<Op>, sweeps: bool)
    requires ops != []
    ensures Answers(b, Others(ops, sweeps)) == Answer(b, ops[0]) + Answers(Unswept(b, ops[0], sweeps), Others(ops[1..], sweeps))
  {
    if !sweeps {
      assert ([ops[0]] + WithoutForgets(ops[1..]))[1..] == WithoutForgets(ops[1..]);
    }
  }

  lemma BothEqual(a: seq<Option<Claimed>>, b: seq<Option<Claimed>>, a': seq<Option<Claimed>>, b': seq<Option<Claimed>>)
    requires |a| == |b|
    ensures a + a' == b + b' <==> a == b && a' == b'
  {
    if a + a' == b + b' {
      assert (a + a')[..|a|] == a && (b + b')[..|b|] == b;
      assert (a + a')[|a|..] == a' && (b + b')[|b|..] == b';
    }
  }

  lemma {:induction false} SweptAnswersIff(a: Db, b: Db, ops: seq<Op>, sweeps: bool)
    requires Swept(a, b)
    ensures OnlyLost(Answers(a, ops), Answers(b, Others(ops, sweeps)))
    ensures Answers(a, ops) == Answers(b, Others(ops, sweeps)) <==> !ReadsSwept(a, b, ops, sweeps)
    decreases ops
  {
    hide Answer, Swept, Apply, OnlyLost, FindsSwept;
    if ops == [] {
      OnlyLostBoth([], [], [], []);
    } else {
      var a', b', rest := Apply(a, ops[0]), Unswept(b, ops[0], sweeps), Others(ops[1..], sweeps);
      SweptIsKept(a, b, ops[0]);
      AnswersOfTwo(b, ops, sweeps);
      SweptAnswersIff(a', b', ops[1..], sweeps);
      OnlyLostBoth(Answer(a, ops[0]), Answer(b, ops[0]), Answers(a', ops[1..]), Answers(b', rest));
      OnlyLostIsAsLong(Answer(a, ops[0]), Answer(b, ops[0]));
      BothEqual(Answer(a, ops[0]), Answer(b, ops[0]), Answers(a', ops[1..]), Answers(b', rest));
    }
  }

  lemma OnlyLostIsAsLong(with: seq<Option<Claimed>>, without: seq<Option<Claimed>>)
    requires OnlyLost(with, without)
    ensures |with| == |without|
  {
  }

  /** Whatever is forgotten and whenever: taking every sweep out of a sequence
      changes no claim's answer, save one that had met a record, was overtaken
      by its expiry and its sweeping, and lost its answer. */
  lemma ForgettingOnlyLoses(a: Db, b: Db, ops: seq<Op>)
    requires Swept(a, b)
    ensures OnlyLost(Answers(a, ops), Answers(b, WithoutForgets(ops)))
  {
    SweptAnswersIff(a, b, ops, false);
  }

  /** Every claim that met a record reads it back before its day is over. */
  predicate ReadInTime(db: Db, ops: seq<Op>)
    decreases ops
  {
    ops != [] ==>
      && (ops[0].ReadBack? && ops[0].key in db.table ==> Live(db, ops[0].key))
      && ReadInTime(Apply(db, ops[0]), ops[1..])
  }

  lemma {:induction false} InTimeFindsNothingSwept(a: Db, b: Db, ops: seq<Op>, sweeps: bool)
    requires Swept(a, b) && ReadInTime(b, Others(ops, sweeps))
    ensures !ReadsSwept(a, b, ops, sweeps)
    decreases ops
  {
    if ops != [] {
      SweptIsKept(a, b, ops[0]);
      assert !sweeps && !ops[0].Forget? ==> Others(ops, sweeps)[1..] == Others(ops[1..], sweeps);
      InTimeFindsNothingSwept(Apply(a, ops[0]), Unswept(b, ops[0], sweeps), ops[1..], sweeps);
    }
  }

  /** And it changes no answer at all if and only if no claim is overtaken so; none
      is where each reads its record back in time. */
  lemma ForgettingChangesNoAnswerIff(a: Db, b: Db, ops: seq<Op>)
    requires Swept(a, b)
    ensures Answers(a, ops) == Answers(b, WithoutForgets(ops)) <==> !ReadsSwept(a, b, ops, false)
    ensures ReadInTime(b, WithoutForgets(ops)) ==> Answers(a, ops) == Answers(b, WithoutForgets(ops))
  {
    SweptAnswersIff(a, b, ops, false);
    if ReadInTime(b, WithoutForgets(ops)) {
      InTimeFindsNothingSwept(a, b, ops, false);
    }
  }

  /** In particular, one sweep put in anywhere only loses answers, and changes none
      if and only if no claim that met a record reads it back after, with only that
      sweep to have taken it away. */
  lemma AForgetAnywhereIff(db: Db, before: seq<Op>, after: seq<Op>)
    ensures var with, without, mid := Answers(db, before + [Forget] + after), Answers(db, before + after), ApplyAll(db, before);
            && OnlyLost(with, without)
            && (with == without <==> !ReadsSwept(Apply(mid, Forget), mid, after, true))
            && (ReadInTime(mid, after) ==> with == without)
  {
    var mid := ApplyAll(db, before);
    AnswersSplit(db, before, [Forget] + after);
    AnswersSplit(db, before, after);
    assert before + [Forget] + after == before + ([Forget] + after) && ([Forget] + after)[1..] == after;
    assert Answers(mid, [Forget] + after) == Answers(Apply(mid, Forget), after);
    SweptAnswersIff(Apply(mid, Forget), mid, after, true);
    var told := Answers(db, before);
    Same(told);
    OnlyLostBoth(told, told, Answers(Apply(mid, Forget), after), Answers(mid, after));
    BothEqual(told, told, Answers(Apply(mid, Forget), after), Answers(mid, after));
    if ReadInTime(mid, after) {
      InTimeFindsNothingSwept(Apply(mid, Forget), mid, after, true);
    }
  }

  lemma {:induction false} AnswersSplit(db: Db, before: seq<Op>, after: seq<Op>)
    ensures Answers(db, before + after) == Answers(db, before) + Answers(ApplyAll(db, before), after)
    decreases before
  {
    if before == [] {
      assert before + after == after && [] + Answers(db, after) == Answers(db, after);
    } else {
      assert (before + after)[1..] == before[1..] + after;
      AnswersSplit(Apply(db, before[0]), before[1..], after);
    }
  }

  lemma Same(answers: seq<Option<Claimed>>)
    ensures OnlyLost(answers, answers)
  {
  }

  // ---- One claim is new, and what was answered stays answered ----------------------------

  function Elapsed(ops: seq<Op>): nat {
    if ops == [] then 0 else (if ops[0].Tick? then ops[0].seconds else 0) + Elapsed(ops[1..])
  }

  /** How often the key was told it is new. */
  function News(db: Db, ops: seq<Op>, key: Key): nat
    decreases ops
  {
    if ops == [] then 0
    else (if ops[0] == Insert(key) && !Live(db, key) then 1 else 0) + News(Apply(db, ops[0]), ops[1..], key)
  }

  /** How often a claim on it, still remembered, was released. */
  function Releases(db: Db, ops: seq<Op>, key: Key): nat
    decreases ops
  {
    if ops == [] then 0
    else (if ops[0] == Settle(key, None) && Live(db, key) && db.table[key].state.Attempted? then 1 else 0)
         + Releases(Apply(db, ops[0]), ops[1..], key)
  }

  /** No record outlives a day from now. */
  ghost predicate WellTimed(db: Db) {
    forall key :: key in db.table ==> db.table[key].expiresAt <= db.now + DAY
  }

  lemma WellTimedIsKept(db: Db, op: Op)
    requires WellTimed(db)
    ensures WellTimed(Apply(db, op))
  {
  }

  /** At most once: until a remembered claim's day is over, a key is new again
      only as often as a claim on it was released; and a key not remembered is
      new once more than that, within the day its first claim begins. */
  lemma {:induction false} NewAtMostOnce(db: Db, ops: seq<Op>, key: Key)
    requires WellTimed(db)
    requires if Live(db, key) then db.now + Elapsed(ops) <= db.table[key].expiresAt else Elapsed(ops) <= DAY
    ensures News(db, ops, key) <= Releases(db, ops, key) + if Live(db, key) then 0 else 1
    decreases ops
  {
    if ops != [] {
      WellTimedIsKept(db, ops[0]);
      NewAtMostOnce(Apply(db, ops[0]), ops[1..], key);
    }
  }

  /** A claim told it is new is the only one told so until it is released or a
      day has passed. */
  lemma OneNewPerEpoch(db: Db, ops: seq<Op>, key: Key)
    requires WellTimed(db) && !Live(db, key) && Elapsed(ops) <= DAY
    ensures Answer(db, Insert(key)) == [Some(New)]
    ensures News(Apply(db, Insert(key)), ops, key) <= Releases(Apply(db, Insert(key)), ops, key)
  {
    WellTimedIsKept(db, Insert(key));
    NewAtMostOnce(Apply(db, Insert(key)), ops, key);
  }

  /** Once answered, a key keeps its answer: however many claims, releases and
      sweeps come between, and until the record expires, it is told of the last
      answer recorded, wherever its claims' two statements fall. */
  lemma {:induction false} AnsweredStaysAnswered(db: Db, ops: seq<Op>, key: Key)
    requires Live(db, key) && db.table[key].state.Completed?
    requires db.now + Elapsed(ops) <= db.table[key].expiresAt
    requires forall op :: op in ops && op.Settle? && op.key == key ==> op.response.None?
    ensures Told(ApplyAll(db, ops), key)
         == Some(AlreadyDone(db.table[key].state.response, db.table[key].createdAt))
    ensures News(db, ops, key) == 0
    decreases ops
  {
    if ops != [] {
      AnsweredStaysAnswered(Apply(db, ops[0]), ops[1..], key);
    }
  }

  /** And recording an answer is what makes it the answer: from the settle of a
      claim still remembered until its expiry. */
  lemma TheLastAnswerIsTold(db: Db, answer: string, ops: seq<Op>, key: Key)
    requires Live(db, key) && db.now + Elapsed(ops) <= db.table[key].expiresAt
    requires forall op :: op in ops && op.Settle? && op.key == key ==> op.response.None?
    ensures Told(ApplyAll(Apply(db, Settle(key, Some(answer))), ops), key)
         == Some(AlreadyDone(answer, db.table[key].createdAt))
    ensures News(Apply(db, Settle(key, Some(answer))), ops, key) == 0
  {
    AnsweredStaysAnswered(Apply(db, Settle(key, Some(answer))), ops, key);
  }

  // ---- A settle that comes too late --------------------------------------------------------

  /** Of the statements on a key that has expired, a reading back comes before any
      claim and any sweep: some claim met the record while it was remembered, and
      was overtaken. */
  predicate ReadFirst(ops: seq<Op>, key: Key) {
    ops != [] &&
    ( ops[0] == ReadBack(key)
      || (ops[0] != Insert(key) && ops[0] != Forget && ReadFirst(ops[1..], key)))
  }

  /** What a settle makes of a record, where there is one. */
  function SettledState(s: Option<State>, response: Option<string>): Option<State> {
    match s
    case None => None
    case Some(state) =>
      if response.Some? then Some(Completed(response.value)) else if state.Attempted? then None else s
  }

  /** Two records of one expired key, settled alike from here on, and read back
      while they differ. */
  predicate ReadsApart(x: Option<State>, y: Option<State>, ops: seq<Op>, key: Key)
    decreases ops
  {
    ops != [] &&
    match ops[0]
    case ReadBack(k) => (k == key && x != y) || ReadsApart(x, y, ops[1..], key)
    case Settle(k, response) =>
      if k == key then ReadsApart(SettledState(x, response), SettledState(y, response), ops[1..], key)
      else ReadsApart(x, y, ops[1..], key)
    case Insert(k) => k != key && ReadsApart(x, y, ops[1..], key)
    case Forget => false
    case Tick(_) => ReadsApart(x, y, ops[1..], key)
  }

  lemma {:induction false} OnlyReadFirstReadsApart(x: Option<State>, y: Option<State>, ops: seq<Op>, key: Key)
    ensures ReadsApart(x, y, ops, key) ==> ReadFirst(ops, key)
    decreases ops
  {
    if ops != [] && ops[0] != ReadBack(key) {
      var response := if ops[0].Settle? then ops[0].response else None;
      var settles := ops[0].Settle? && ops[0].key == key;
      OnlyReadFirstReadsApart(if settles then SettledState(x, response) else x, if settles then SettledState(y, response) else y,
                              ops[1..], key);
    }
  }

  function StateOf(db: Db, key: Key): Option<State> {
    if key in db.table then Some(db.table[key].state) else None
  }

  /** Tables that differ at a key nobody remembers. */
  ghost predicate DifferAt(a: Db, b: Db, key: Key) {
    && a.now == b.now && !Live(a, key) && !Live(b, key)
    && (key in a.table && key in b.table ==> a.table[key].createdAt == b.table[key].createdAt)
    && forall k :: k != key ==>
         (k in a.table <==> k in b.table) && (k in a.table ==> a.table[k] == b.table[k])
  }

  lemma DifferAtIsKept(a: Db, b: Db, op: Op, key: Key)
    requires DifferAt(a, b, key) && op != Insert(key)
    ensures |Answer(a, op)| == |Answer(b, op)|
    ensures op != ReadBack(key) || StateOf(a, key) == StateOf(b, key) <==> Answer(a, op) == Answer(b, op)
    ensures DifferAt(Apply(a, op), Apply(b, op), key)
  {
    forall k | k != key ensures Live(a, k) <==> Live(b, k) {}
    if op == ReadBack(key) {
      assert Answer(a, op)[0] == Told(a, key) && Answer(b, op)[0] == Told(b, key);
    }
  }

  lemma StateAfter(db: Db, op: Op, key: Key)
    requires !Live(db, key) && op != Insert(key) && op != Forget
    ensures StateOf(Apply(db, op), key) ==
              if op.Settle? && op.key == key then SettledState(StateOf(db, key), op.response) else StateOf(db, key)
  {
  }

  lemma AgreeOnceClaimedOrSwept(a: Db, b: Db, op: Op, key: Key)
    requires DifferAt(a, b, key) && (op == Insert(key) || op == Forget)
    ensures Answer(a, op) == Answer(b, op) && Apply(a, op) == Apply(b, op)
  {
    forall k | k != key ensures Live(a, k) <==> Live(b, k) {}
    assert Apply(a, op).table == Apply(b, op).table;
  }

  lemma {:induction false} AgreeUnlessReadApart(a: Db, b: Db, ops: seq<Op>, key: Key)
    requires DifferAt(a, b, key)
    ensures Answers(a, ops) == Answers(b, ops) <==> !ReadsApart(StateOf(a, key), StateOf(b, key), ops, key)
    decreases ops
  {
    hide Answer, Apply, DifferAt, StateOf, SettledState, Live;
    if ops != [] {
      if ops[0] == Insert(key) || ops[0] == Forget {
        AgreeOnceClaimedOrSwept(a, b, ops[0], key);
      } else {
        var a', b' := Apply(a, ops[0]), Apply(b, ops[0]);
        DifferAtIsKept(a, b, ops[0], key);
        NeitherLives(a, b, key);
        StateAfter(a, ops[0], key);
        StateAfter(b, ops[0], key);
        AgreeUnlessReadApart(a', b', ops[1..], key);
        BothEqual(Answer(a, ops[0]), Answer(b, ops[0]), Answers(a', ops[1..]), Answers(b', ops[1..]));
      }
    }
  }

  lemma NeitherLives(a: Db, b: Db, key: Key)
    requires DifferAt(a, b, key)
    ensures !Live(a, key) && !Live(b, key)
  {
  }

  /** A settle of an expired record changes what claims are told if and only if one
      that met the record before reads it back while it says another thing than it
      would have: before it is claimed again or swept, and before another settle
      makes it say the same. */
  lemma ALateSettleIsToldIff(db: Db, response: Option<string>, key: Key, ops: seq<Op>)
    requires !Live(db, key)
    ensures var late, was := Apply(db, Settle(key, response)), StateOf(db, key);
            && (Answers(late, ops) != Answers(db, ops) <==> ReadsApart(SettledState(was, response), was, ops, key))
            && (!ReadFirst(ops, key) ==> Answers(late, ops) == Answers(db, ops))
  {
    var late := Apply(db, Settle(key, response));
    assert DifferAt(late, db, key);
    StateAfter(db, Settle(key, response), key);
    AgreeUnlessReadApart(late, db, ops, key);
    OnlyReadFirstReadsApart(StateOf(late, key), StateOf(db, key), ops, key);
  }
}
