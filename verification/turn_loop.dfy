/** The default agent's turn: a loop that hands the conversation to a model, runs
    the tools it asks for, and returns everything it said.

    The model, the host and the tools are an arbitrary script of rounds. A script
    may end with the turn still running, so what is proved of every script is
    proved at every round boundary of every run. `Run` is the loop; `Turn` is
    what it computes, and the claims are lemmas about `Turn`. */
module TurnLoop {
  import opened Basics
  import opened AgentTools

  const TURN_RULE := "A reply that contains no tool calls ends the turn."
  const SEPARATOR := "\n\n"

  datatype Completion = Completion(parts: seq<Part>, finishReason: Option<string>)

  /** What a tool call was answered with, as the model is to read it. */
  type ToolText = string

  /** Everything the outside decides in one round. */
  datatype Round = Round(
    cancelled: bool,                        // somebody pressed stop
    chat: Result<Completion, string>,       // the model's reply, or why there was none
    shown: seq<string>,                     // its prose, piece by piece as it streamed
    results: seq<ToolText>,                 // what the tools answered, call by call
    pending: seq<string>)                   // what the user said meanwhile

  datatype Status = Running | Ended(result: Result<string, string>)

  /** The loop's variables, and what the claims count. */
  datatype State = State(
    messages: seq<Message>,
    reply: string,
    loaded: set<string>,
    round: nat,
    status: Status,
    ran: seq<string>,            // the tools run
    unoffered: seq<string>,      // those run in a round that did not offer them
    cutOff: set<string>,         // what refused `load_tools` calls asked for
    calls: nat,                  // model calls made
    toolRounds: nat,             // rounds that ran tools
    truncated: nat,              // rounds refused as cut short
    extended: nat)               // rounds the user's words extended

  // ---- The messages a round adds -----------------------------------------------------------

  /** The arguments without the label written for the user. */
  function WithoutAction(a: Arguments): Arguments {
    if a.Parsed? && a.value.JObject? then Parsed(JObject(a.value.fields - {ACTION})) else a
  }

  function Stripped(call: ToolCall): ToolCall {
    call.(arguments := WithoutAction(call.arguments))
  }

  function StrippedAll(calls: seq<ToolCall>): seq<ToolCall> {
    seq(|calls|, i requires 0 <= i < |calls| => Stripped(calls[i]))
  }

  /** The reply as it goes back to the model: every part in its place. */
  function Echoed(parts: seq<Part>): seq<Part> {
    seq(|parts|, i requires 0 <= i < |parts| =>
      if parts[i].Call? then Call(Stripped(parts[i].call)) else parts[i])
  }

  function ToolMessage(call: ToolCall, text: string): Message {
    Message(Tool, [Text(text)], Some(call.id))
  }

  function ResultAt(results: seq<ToolText>, i: nat): ToolText {
    if i < |results| then results[i] else ""
  }

  function Answers(calls: seq<ToolCall>, results: seq<ToolText>): seq<Message> {
    seq(|calls|, i requires 0 <= i < |calls| => ToolMessage(calls[i], ResultAt(results, i)))
  }

  function Refusals(calls: seq<ToolCall>, why: string): seq<Message> {
    seq(|calls|, i requires 0 <= i < |calls| => ToolMessage(calls[i], why))
  }

  function Injected(arrivals: seq<string>): seq<Message> {
    seq(|arrivals|, i requires 0 <= i < |arrivals| => TextMessage(User, arrivals[i]))
  }

  function Cut(finish: Option<string>): string {
    if finish.None?
    then "not run: cut short"
    else "not run: token limit"
  }

  /** What a round that ended without calls adds, when the user has spoken. */
  function ProseBlock(parts: seq<Part>, pending: seq<string>): seq<Message> {
    [Message(Assistant, parts, None)] + Injected(pending)
  }

  /** What a round cut short adds: its reply, and a refusal for every call. */
  function RefusedBlock(parts: seq<Part>, finish: Option<string>): seq<Message> {
    [Message(Assistant, parts, None)] + Refusals(CallsOf(parts), Cut(finish))
  }

  /** What a round that ran its tools adds. */
  function ToolBlock(parts: seq<Part>, results: seq<ToolText>, pending: seq<string>): seq<Message> {
    [Message(Assistant, Echoed(parts), None)] + Answers(CallsOf(parts), results) + Injected(pending)
  }

  /** A reply that stopped before it said it had finished. */
  predicate Truncated(c: Completion) {
    c.finishReason == Some("length") || c.finishReason.None?
  }

  /** The tools of a round that are run: those offered when their turn comes. */
  function RunBy(c: Catalog, calls: seq<ToolCall>, loaded: set<string>): seq<string> {
    if calls == [] then []
    else
      (if IsOffered(c, calls[0].name, loaded) then [calls[0].name] else []) +
      RunBy(c, calls[1..], loaded + LoadedByCalls(c, calls[..1]))
  }

  /** Those of them that were not in the round's offer. */
  function UnofferedBy(c: Catalog, calls: seq<ToolCall>, loaded: set<string>, offer: seq<string>): seq<string> {
    if calls == [] then []
    else
      (if IsOffered(c, calls[0].name, loaded) && calls[0].name !in offer then [calls[0].name] else []) +
      UnofferedBy(c, calls[1..], loaded + LoadedByCalls(c, calls[..1]), offer)
  }

  function AddRound(reply: string, text: string): string {
    if text == "" then reply else if reply == "" then text else reply + SEPARATOR + text
  }

  // ---- One round, and a turn ------------------------------------------------------------

  predicate SomethingWasSaid(messages: seq<Message>) {
    exists i :: 0 <= i < |messages| && messages[i].role == User
  }

  function First(c: Catalog, conversation: seq<Message>, prompt: string): State {
    var system := if prompt == "" then TURN_RULE else prompt + SEPARATOR + TURN_RULE;
    var messages := [TextMessage(System, system)] + conversation;
    State(messages, "", LoadedBy(c, messages), 0,
          if SomethingWasSaid(messages) then Running
          else Ended(Err("conversation contains nothing to respond to")),
          [], [], {}, 0, 0, 0, 0)
  }

  predicate Exhausted(maxRounds: nat, round: nat) {
    maxRounds > 0 && round + 1 >= maxRounds
  }

  /** What a round offers the model: nothing on the last one permitted. */
  function OfferOf(c: Catalog, maxRounds: nat, round: nat, loaded: set<string>): seq<string> {
    if Exhausted(maxRounds, round) then [] else OfferedTools(c, loaded)
  }

  function Step(c: Catalog, maxRounds: nat, s: State, r: Round): State {
    if s.status.Ended? then s
    else if r.cancelled then s.(status := Ended(Ok(s.reply)))
    else if r.chat.Err? then s.(status := Ended(Err(r.chat.error)), calls := s.calls + 1)
    else
      var completion := r.chat.value;
      var text, calls := TextOf(completion.parts), CallsOf(completion.parts);
      var told := s.(reply := AddRound(s.reply, text), calls := s.calls + 1);
      if calls == [] then
        if r.pending == [] then told.(status := Ended(Ok(told.reply)))
        else told.(messages := s.messages + ProseBlock(completion.parts, r.pending),
                   round := s.round + 1, extended := s.extended + 1)
      else if Truncated(completion) then
        told.(messages := s.messages + RefusedBlock(completion.parts, completion.finishReason),
              cutOff := s.cutOff + LoadedByCalls(c, calls),
              round := s.round + 1, truncated := s.truncated + 1)
      else
        told.(messages := s.messages + ToolBlock(completion.parts, r.results, r.pending),
              loaded := s.loaded + LoadedByCalls(c, calls),
              ran := s.ran + RunBy(c, calls, s.loaded),
              unoffered := s.unoffered + UnofferedBy(c, calls, s.loaded, OfferOf(c, maxRounds, s.round, s.loaded)),
              round := s.round + 1, toolRounds := s.toolRounds + 1,
              status := if Exhausted(maxRounds, s.round) then Ended(Ok(told.reply)) else Running)
  }

  function Turn(c: Catalog, maxRounds: nat, s: State, script: seq<Round>): State
    decreases script
  {
    if script == [] then s else Turn(c, maxRounds, Step(c, maxRounds, s, script[0]), script[1..])
  }

  // ---- Echoing keeps every call ------------------------------------------------------------

  /** The same place, the same kind, and of a call the same id, name and arguments,
      but for the label written for the user. */
  predicate EchoOf(p: Part, q: Part) {
    match p
    case Text(_) => q == p
    case Call(call) =>
      && q.Call? && q.call.id == call.id && q.call.name == call.name
      && if call.arguments.Parsed? && call.arguments.value.JObject?
         then q.call.arguments == Parsed(JObject(call.arguments.value.fields - {"action"}))
         else q.call.arguments == call.arguments
  }

  /** A call's echo stands where the call stood, with its id and name, and means
      the same to the loader. */
  lemma EchoKeepsCalls(parts: seq<Part>)
    ensures |Echoed(parts)| == |parts| && forall i :: 0 <= i < |parts| ==> EchoOf(parts[i], Echoed(parts)[i])
    ensures CallsOf(Echoed(parts)) == StrippedAll(CallsOf(parts))
    ensures TextOf(Echoed(parts)) == TextOf(parts)
  {
    EchoesStand(parts);
    EchoesCallTheSame(parts);
    EchoesSayTheSame(parts);
  }

  lemma {:induction false} EchoesStand(parts: seq<Part>)
    ensures |Echoed(parts)| == |parts| && forall i :: 0 <= i < |parts| ==> EchoOf(parts[i], Echoed(parts)[i])
    decreases parts
  {
    if parts != [] {
      EchoesStand(parts[1..]);
      assert Echoed(parts)[1..] == Echoed(parts[1..]);
      assert EchoOf(parts[0], Echoed(parts)[0]);
      forall i | 1 <= i < |parts| ensures EchoOf(parts[i], Echoed(parts)[i]) {
        assert EchoOf(parts[1..][i - 1], Echoed(parts[1..])[i - 1]);
      }
    }
  }

  lemma StrippedTwo(first: seq<ToolCall>, rest: seq<ToolCall>)
    ensures StrippedAll(first + rest) == StrippedAll(first) + StrippedAll(rest)
  {
    hide Stripped;
  }

  lemma {:induction false} EchoesCallTheSame(parts: seq<Part>)
    ensures CallsOf(Echoed(parts)) == StrippedAll(CallsOf(parts))
    decreases parts
  {
    hide Stripped;
    if parts != [] {
      EchoesCallTheSame(parts[1..]);
      assert Echoed(parts)[1..] == Echoed(parts[1..]);
      var first := if parts[0].Call? then [parts[0].call] else [];
      StrippedTwo(first, CallsOf(parts[1..]));
    }
  }

  lemma {:induction false} EchoesSayTheSame(parts: seq<Part>)
    ensures TextOf(Echoed(parts)) == TextOf(parts)
    decreases parts
  {
    hide Stripped;
    if parts != [] {
      EchoesSayTheSame(parts[1..]);
      assert Echoed(parts)[1..] == Echoed(parts[1..]);
    }
  }

  /** Taking the label out of a call's arguments names the same tools. */
  lemma StrippingKeepsNames(a: Arguments)
    ensures RequestedNames(WithoutAction(a)) == RequestedNames(a)
  {
    assert NAMES != ACTION by { assert |NAMES| != |ACTION|; }
  }

  lemma {:induction false} StrippingKeepsLoads(c: Catalog, calls: seq<ToolCall>)
    ensures LoadedByCalls(c, StrippedAll(calls)) == LoadedByCalls(c, calls)
    decreases calls
  {
    if calls != [] {
      StrippingKeepsNames(calls[0].arguments);
      StrippingKeepsLoads(c, calls[1..]);
      assert StrippedAll(calls)[1..] == StrippedAll(calls[1..]);
    }
  }

  lemma {:induction false} LoadedByBoth(c: Catalog, a: seq<Message>, b: seq<Message>)
    ensures LoadedBy(c, a + b) == LoadedBy(c, a) + LoadedBy(c, b)
    decreases a
  {
    if a == [] {
      assert a + b == b;
    } else {
      LoadedByBoth(c, a[1..], b);
      assert (a + b)[1..] == a[1..] + b;
    }
  }

  predicate IsProse(m: Message) {
    |m.parts| == 1 && m.parts[0].Text?
  }

  lemma {:induction false} ProseLoadsNothing(c: Catalog, messages: seq<Message>)
    requires forall i :: 0 <= i < |messages| ==> IsProse(messages[i])
    ensures LoadedBy(c, messages) == {}
    decreases messages
  {
    if messages != [] {
      assert CallsOf(messages[0].parts[1..]) == [];
      assert CallsOf(messages[0].parts) == [];
      ProseLoadsNothing(c, messages[1..]);
    }
  }

  // ---- The transcript stays balanced -----------------------------------------------------

  predicate IsAnswer(m: Message, call: ToolCall) {
    m.role == Tool && m.toolCallId == Some(call.id)
  }

  /** The assistant message at `i` is followed by one tool message for each of
      its calls, with the same ids in the same order. */
  predicate AnsweredAt(ms: seq<Message>, i: nat)
    requires i < |ms|
  {
    var calls := CallsOf(ms[i].parts);
    i + |calls| < |ms| &&
    forall k :: 0 <= k < |calls| ==> IsAnswer(ms[i + 1 + k], calls[k])
  }

  /** A tool message is one of those that follow some assistant message. */
  predicate AnswersAt(ms: seq<Message>, j: nat)
    requires j < |ms|
  {
    exists i :: 0 <= i < j && ms[i].role == Assistant && j <= i + |CallsOf(ms[i].parts)|
  }

  ghost predicate Balanced(ms: seq<Message>) {
    && (forall i :: 0 <= i < |ms| && ms[i].role == Assistant ==> AnsweredAt(ms, i))
    && (forall j :: 0 <= j < |ms| && ms[j].role == Tool ==> AnswersAt(ms, j))
  }

  lemma BalancedTogether(a: seq<Message>, b: seq<Message>)
    requires Balanced(a) && Balanced(b)
    ensures Balanced(a + b)
  {
    var ms := a + b;
    assert forall k :: 0 <= k < |a| ==> ms[k] == a[k];
    forall i | 0 <= i < |ms| && ms[i].role == Assistant
      ensures AnsweredAt(ms, i)
    {
      if i < |a| {
        assert AnsweredAt(a, i);
        var calls := CallsOf(a[i].parts);
        forall k | 0 <= k < |calls|
          ensures IsAnswer(ms[i + 1 + k], calls[k])
        {
          assert IsAnswer(a[i + 1 + k], calls[k]);
        }
      } else {
        assert AnsweredAt(b, i - |a|);
        assert ms[i] == b[i - |a|];
        var calls := CallsOf(ms[i].parts);
        forall k | 0 <= k < |calls|
          ensures IsAnswer(ms[i + 1 + k], calls[k])
        {
          assert IsAnswer(b[i - |a| + 1 + k], calls[k]);
          assert ms[i + 1 + k] == b[i - |a| + 1 + k];
        }
      }
    }
    forall j | 0 <= j < |ms| && ms[j].role == Tool
      ensures AnswersAt(ms, j)
    {
      if j < |a| {
        assert AnswersAt(a, j);
        var i :| 0 <= i < j && a[i].role == Assistant && j <= i + |CallsOf(a[i].parts)|;
        assert ms[i] == a[i];
      } else {
        assert AnswersAt(b, j - |a|);
        var i :| 0 <= i < j - |a| && b[i].role == Assistant && j - |a| <= i + |CallsOf(b[i].parts)|;
        assert ms[i + |a|] == b[i];
      }
    }
  }

  /** A message and an answer to each of its calls are balanced. */
  lemma BalancedRound(said: Message, answers: seq<Message>)
    requires said.role == Assistant && |answers| == |CallsOf(said.parts)|
    requires forall k :: 0 <= k < |answers| ==> IsAnswer(answers[k], CallsOf(said.parts)[k])
    ensures Balanced([said] + answers)
  {
    var ms := [said] + answers;
    assert AnsweredAt(ms, 0);
    forall j | 0 <= j < |ms| && ms[j].role == Tool
      ensures AnswersAt(ms, j)
    {
      assert ms[0].role == Assistant;
    }
  }

  lemma BalancedProse(ms: seq<Message>)
    requires forall i :: 0 <= i < |ms| ==> ms[i].role == User || ms[i].role == System
    ensures Balanced(ms)
  {
  }

  // ---- What every round keeps ----------------------------------------------------------------

  ghost predicate Sound(c: Catalog, maxRounds: nat, s: State) {
    && LoadedBy(c, s.messages) == s.loaded + s.cutOff
    && (forall n :: n in s.ran ==> IsOffered(c, n, s.loaded))
    && Counted(maxRounds, s)
  }

  predicate Counted(maxRounds: nat, s: State) {
    && (s.status.Running? ==> s.calls == s.toolRounds + s.truncated + s.extended == s.round)
    && s.calls <= s.toolRounds + s.truncated + s.extended + 1
    && (maxRounds > 0 ==>
          && s.toolRounds <= maxRounds
          && (s.status.Running? ==> s.toolRounds < maxRounds)
          && s.calls <= maxRounds + s.truncated + s.extended)
  }

  lemma {:induction false} RanWasOffered(c: Catalog, calls: seq<ToolCall>, loaded: set<string>, n: string)
    requires n in RunBy(c, calls, loaded)
    ensures IsOffered(c, n, loaded + LoadedByCalls(c, calls))
    decreases calls
  {
    var now := LoadedByCalls(c, calls[..1]);
    assert calls[..1] == [calls[0]] && calls[..1][1..] == [];
    assert LoadedByCalls(c, calls[..1][1..]) == {};
    assert LoadedByCalls(c, calls) == now + LoadedByCalls(c, calls[1..]);
    if n in RunBy(c, calls[1..], loaded + now) {
      RanWasOffered(c, calls[1..], loaded + now, n);
    }
  }

  lemma ProseBlockIsBalanced(parts: seq<Part>, pending: seq<string>)
    requires CallsOf(parts) == []
    ensures Balanced(ProseBlock(parts, pending))
  {
    var said := Message(Assistant, parts, None);
    BalancedRound(said, []);
    assert [said] + [] == [said];
    BalancedProse(Injected(pending));
    BalancedTogether([said], Injected(pending));
  }

  lemma ToolBlockIsBalanced(parts: seq<Part>, results: seq<ToolText>, pending: seq<string>)
    ensures Balanced(ToolBlock(parts, results, pending))
  {
    var said := Message(Assistant, Echoed(parts), None);
    var answers := Answers(CallsOf(parts), results);
    EchoKeepsCalls(parts);
    BalancedRound(said, answers);
    BalancedProse(Injected(pending));
    BalancedTogether([said] + answers, Injected(pending));
  }

  lemma BalancedIsKept(c: Catalog, maxRounds: nat, s: State, r: Round)
    requires Balanced(s.messages)
    ensures Balanced(Step(c, maxRounds, s, r).messages)
  {
    if s.status.Running? && !r.cancelled && r.chat.Ok? {
      var parts, finish := r.chat.value.parts, r.chat.value.finishReason;
      if CallsOf(parts) == [] {
        ProseBlockIsBalanced(parts, r.pending);
        BalancedTogether(s.messages, ProseBlock(parts, r.pending));
      } else if Truncated(r.chat.value) {
        BalancedRound(Message(Assistant, parts, None), Refusals(CallsOf(parts), Cut(finish)));
        BalancedTogether(s.messages, RefusedBlock(parts, finish));
      } else {
        ToolBlockIsBalanced(parts, r.results, r.pending);
        BalancedTogether(s.messages, ToolBlock(parts, r.results, r.pending));
      }
    }
  }

  lemma BlockLoads(c: Catalog, said: Message, rest: seq<Message>)
    requires forall i :: 0 <= i < |rest| ==> IsProse(rest[i])
    ensures LoadedBy(c, [said] + rest) == LoadedByCalls(c, CallsOf(said.parts))
  {
    assert ([said] + rest)[1..] == rest;
    ProseLoadsNothing(c, rest);
  }

  /** Each kind of round adds to the transcript the loads of the calls it
      carries, run or refused. */
  lemma RoundLoads(c: Catalog, maxRounds: nat, s: State, r: Round)
    requires s.status.Running? && !r.cancelled && r.chat.Ok?
    requires LoadedBy(c, s.messages) == s.loaded + s.cutOff
    ensures var s' := Step(c, maxRounds, s, r); LoadedBy(c, s'.messages) == s'.loaded + s'.cutOff
  {
    var parts, finish := r.chat.value.parts, r.chat.value.finishReason;
    var calls := CallsOf(parts);
    if calls == [] {
      LoadedByBoth(c, s.messages, ProseBlock(parts, r.pending));
      BlockLoads(c, Message(Assistant, parts, None), Injected(r.pending));
    } else if Truncated(r.chat.value) {
      LoadedByBoth(c, s.messages, RefusedBlock(parts, finish));
      BlockLoads(c, Message(Assistant, parts, None), Refusals(calls, Cut(finish)));
    } else {
      var rest := Answers(calls, r.results) + Injected(r.pending);
      assert ToolBlock(parts, r.results, r.pending) == [Message(Assistant, Echoed(parts), None)] + rest;
      LoadedByBoth(c, s.messages, ToolBlock(parts, r.results, r.pending));
      BlockLoads(c, Message(Assistant, Echoed(parts), None), rest);
      EchoKeepsCalls(parts);
      StrippingKeepsLoads(c, calls);
    }
  }

  lemma RunIsOffered(c: Catalog, s: State, calls: seq<ToolCall>)
    requires forall n :: n in s.ran ==> IsOffered(c, n, s.loaded)
    ensures forall n :: n in s.ran + RunBy(c, calls, s.loaded) ==>
              IsOffered(c, n, s.loaded + LoadedByCalls(c, calls))
  {
    forall n | n in RunBy(c, calls, s.loaded)
      ensures IsOffered(c, n, s.loaded + LoadedByCalls(c, calls))
    {
      RanWasOffered(c, calls, s.loaded, n);
    }
  }

  lemma CountedIsKept(c: Catalog, maxRounds: nat, s: State, r: Round)
    requires Counted(maxRounds, s)
    ensures Counted(maxRounds, Step(c, maxRounds, s, r))
  {
  }

  lemma RanIsKept(c: Catalog, maxRounds: nat, s: State, r: Round)
    requires forall n :: n in s.ran ==> IsOffered(c, n, s.loaded)
    ensures forall n :: n in Step(c, maxRounds, s, r).ran ==> IsOffered(c, n, Step(c, maxRounds, s, r).loaded)
  {
    if r.chat.Ok? {
      RunIsOffered(c, s, CallsOf(r.chat.value.parts));
    }
  }

  lemma SoundIsKept(c: Catalog, maxRounds: nat, s: State, r: Round)
    requires Sound(c, maxRounds, s)
    ensures Sound(c, maxRounds, Step(c, maxRounds, s, r))
  {
    CountedIsKept(c, maxRounds, s, r);
    RanIsKept(c, maxRounds, s, r);
    if s.status.Running? && !r.cancelled && r.chat.Ok? {
      RoundLoads(c, maxRounds, s, r);
    }
  }

  lemma {:induction false} SoundAlways(c: Catalog, maxRounds: nat, s: State, script: seq<Round>)
    requires Sound(c, maxRounds, s)
    ensures Sound(c, maxRounds, Turn(c, maxRounds, s, script))
    decreases script
  {
    if script != [] {
      SoundIsKept(c, maxRounds, s, script[0]);
      SoundAlways(c, maxRounds, Step(c, maxRounds, s, script[0]), script[1..]);
    }
  }

  lemma {:induction false} BalancedAlways(c: Catalog, maxRounds: nat, s: State, script: seq<Round>)
    requires Balanced(s.messages)
    ensures Balanced(Turn(c, maxRounds, s, script).messages)
    decreases script
  {
    if script != [] {
      BalancedIsKept(c, maxRounds, s, script[0]);
      BalancedAlways(c, maxRounds, Step(c, maxRounds, s, script[0]), script[1..]);
    }
  }

  // ---- The claims ------------------------------------------------------------------------------

  /** Given a balanced conversation, the transcript is balanced at every model
      call of every run, through every branch of the loop. */
  lemma TranscriptIsBalanced(c: Catalog, maxRounds: nat, conversation: seq<Message>, prompt: string, script: seq<Round>)
    requires Balanced(conversation)
    ensures Balanced(Turn(c, maxRounds, First(c, conversation, prompt), script).messages)
  {
    var first := First(c, conversation, prompt);
    BalancedProse(first.messages[..1]);
    assert first.messages == first.messages[..1] + conversation;
    BalancedTogether(first.messages[..1], conversation);
    BalancedAlways(c, maxRounds, first, script);
  }

  /** The loaded set the loop carries, and the set rebuilt from its transcript,
      differ exactly by what `load_tools` calls asked for in rounds refused as
      cut short. So a new turn has every tool this one had, and the two are
      equal when no such call was refused. */
  lemma LoadedIsRebuilt(c: Catalog, maxRounds: nat, conversation: seq<Message>, prompt: string, script: seq<Round>)
    ensures var s := Turn(c, maxRounds, First(c, conversation, prompt), script);
            && LoadedBy(c, s.messages) == s.loaded + s.cutOff
            && s.loaded <= LoadedBy(c, s.messages)
            && (s.loaded == LoadedBy(c, s.messages) <==> s.cutOff <= s.loaded)
            && (s.cutOff == {} ==> s.loaded == LoadedBy(c, s.messages))
  {
    SoundAlways(c, maxRounds, First(c, conversation, prompt), script);
  }

  /** A tool that is deferred runs only if the transcript shows it loaded. */
  lemma NothingDeferredRunsUnloaded(c: Catalog, maxRounds: nat, conversation: seq<Message>, prompt: string,
                                    script: seq<Round>, name: string)
    requires name in Turn(c, maxRounds, First(c, conversation, prompt), script).ran
    requires name in DeferredNames(c) && name != LOAD_TOOLS
    ensures name in LoadedBy(c, Turn(c, maxRounds, First(c, conversation, prompt), script).messages)
  {
    SoundAlways(c, maxRounds, First(c, conversation, prompt), script);
    DeferredIsNotEager(AllTools(c), c.eager, name);
  }

  lemma {:induction false} DeferredIsNotEager(names: seq<string>, eager: set<string>, name: string)
    requires name in Without(names, eager)
    ensures name !in eager && name in names
    decreases names
  {
    if names[0] in eager || name != names[0] {
      DeferredIsNotEager(names[1..], eager, name);
    }
  }

  /** Where a turn begins: the agent's prompt, if it has one, and the rule that ends a
      turn; the conversation as it was; nothing said yet, and nothing run. It begins at
      all only where somebody has spoken. */
  lemma WhereATurnBegins(c: Catalog, conversation: seq<Message>, prompt: string)
    ensures var s := First(c, conversation, prompt);
            && |s.messages| == 1 + |conversation| && s.messages[1..] == conversation
            && s.messages[0] == Message(System, [Text(if prompt == "" then TURN_RULE else prompt + "\n\n" + TURN_RULE)], None)
            && s.reply == "" && s.ran == [] && s.round == 0
            && (s.status.Running? <==> exists i :: 0 <= i < |conversation| && conversation[i].role == User)
            && (s.status.Ended? ==> s.status.result.Err?)
  {
    var s := First(c, conversation, prompt);
    assert forall i :: 0 <= i < |conversation| ==> s.messages[i + 1] == conversation[i];
    assert s.messages[0].role == System;
    if i :| 0 <= i < |s.messages| && s.messages[i].role == User { assert conversation[i - 1].role == User; }
    if i :| 0 <= i < |conversation| && conversation[i].role == User { assert s.messages[i + 1].role == User; }
  }

  // ---- What a round comes to --------------------------------------------------------------------

  /** A round runs tools if and only if its reply has calls and says it finished, and
      not for want of room. Any other leaves what has run, and what is loaded, as it
      was. */
  lemma ToolsRunIff(c: Catalog, maxRounds: nat, s: State, r: Round)
    requires s.status.Running? && !r.cancelled && r.chat.Ok?
    ensures var s', calls, reason := Step(c, maxRounds, s, r), CallsOf(r.chat.value.parts), r.chat.value.finishReason;
            var finished := calls != [] && reason.Some? && reason.value != "length";
            && s'.toolRounds == s.toolRounds + (if finished then 1 else 0)
            && s'.ran == s.ran + (if finished then RunBy(c, calls, s.loaded) else [])
            && s'.loaded == s.loaded + (if finished then LoadedByCalls(c, calls) else {})
  {
    assert s.loaded + {} == s.loaded;
  }

  /** Of a reply cut short, by the limit or with no reason given, every call is
      answered with the refusal, and the loop goes on. */
  lemma ACutReplyIsRefused(c: Catalog, maxRounds: nat, s: State, r: Round, k: nat)
    requires s.status.Running? && !r.cancelled && r.chat.Ok?
    requires r.chat.value.finishReason == None || r.chat.value.finishReason == Some("length")
    requires k < |CallsOf(r.chat.value.parts)|
    ensures var s', parts, n := Step(c, maxRounds, s, r), r.chat.value.parts, |s.messages|;
            && s'.status.Running? && s'.round == s.round + 1
            && s'.ran == s.ran && s'.loaded == s.loaded
            && |s'.messages| == n + 1 + |CallsOf(parts)| && s'.messages[..n] == s.messages
            && s'.messages[n] == Message(Assistant, parts, None)
            && s'.messages[n + 1 + k] ==
                 Message(Tool, [Text(if r.chat.value.finishReason.None? then "not run: cut short" else "not run: token limit")],
                         Some(CallsOf(parts)[k].id))
  {
  }

  /** Of a reply whose tools are run: its parts in their places, each call's own
      result under its own id, and then what the user said meanwhile. */
  lemma ARoundIsTranscribed(c: Catalog, maxRounds: nat, s: State, r: Round)
    requires s.status.Running? && !r.cancelled && r.chat.Ok? && CallsOf(r.chat.value.parts) != []
    requires r.chat.value.finishReason.Some? && r.chat.value.finishReason.value != "length"
    ensures var s', parts, n := Step(c, maxRounds, s, r), r.chat.value.parts, |s.messages|;
            var calls := CallsOf(parts);
            && |s'.messages| == n + 1 + |calls| + |r.pending| && s'.messages[..n] == s.messages
            && s'.messages[n].role == Assistant && |s'.messages[n].parts| == |parts|
            && (forall i :: 0 <= i < |parts| ==> EchoOf(parts[i], s'.messages[n].parts[i]))
            && (forall k :: 0 <= k < |calls| && k < |r.results| ==>
                  s'.messages[n + 1 + k] == Message(Tool, [Text(r.results[k])], Some(calls[k].id)))
            && (forall j :: 0 <= j < |r.pending| ==>
                  s'.messages[n + 1 + |calls| + j] == Message(User, [Text(r.pending[j])], None))
  {
    hide EchoOf, Step, CallsOf, Echoed, Answers, Injected;
    var parts := r.chat.value.parts;
    var calls := CallsOf(parts);
    ToolRoundAdds(c, maxRounds, s, r);
    EchoKeepsCalls(parts);
    AnswersAre(calls, r.results);
    InjectedAre(r.pending);
    TranscribedInOrder(s.messages, Message(Assistant, Echoed(parts), None), Answers(calls, r.results), Injected(r.pending));
  }

  lemma AnswersAre(calls: seq<ToolCall>, results: seq<ToolText>)
    ensures |Answers(calls, results)| == |calls|
    ensures forall k :: 0 <= k < |calls| && k < |results| ==>
              Answers(calls, results)[k] == Message(Tool, [Text(results[k])], Some(calls[k].id))
  {
  }

  lemma InjectedAre(arrivals: seq<string>)
    ensures |Injected(arrivals)| == |arrivals|
    ensures forall j :: 0 <= j < |arrivals| ==> Injected(arrivals)[j] == Message(User, [Text(arrivals[j])], None)
  {
  }

  lemma ToolRoundAdds(c: Catalog, maxRounds: nat, s: State, r: Round)
    requires s.status.Running? && !r.cancelled && r.chat.Ok? && CallsOf(r.chat.value.parts) != []
    requires r.chat.value.finishReason.Some? && r.chat.value.finishReason.value != "length"
    ensures var parts := r.chat.value.parts;
            Step(c, maxRounds, s, r).messages ==
              s.messages + ([Message(Assistant, Echoed(parts), None)] + Answers(CallsOf(parts), r.results) + Injected(r.pending))
  {
  }

  lemma TranscribedInOrder(before: seq<Message>, said: Message, answers: seq<Message>, arrivals: seq<Message>)
    ensures var n, all := |before|, before + ([said] + answers + arrivals);
            && |all| == n + 1 + |answers| + |arrivals| && all[..n] == before && all[n] == said
            && (forall k :: 0 <= k < |answers| ==> all[n + 1 + k] == answers[k])
            && (forall j :: 0 <= j < |arrivals| ==> all[n + 1 + |answers| + j] == arrivals[j])
  {
  }

  /** A reply without calls is kept, with what the user said, only where the user
      said something; otherwise it is the last. */
  lemma AReplyWithoutCalls(c: Catalog, maxRounds: nat, s: State, r: Round)
    requires s.status.Running? && !r.cancelled && r.chat.Ok? && CallsOf(r.chat.value.parts) == []
    ensures var s', n := Step(c, maxRounds, s, r), |s.messages|;
            if r.pending == [] then s'.messages == s.messages && s'.status == Ended(Ok(s'.reply))
            else
              && s'.status.Running? && |s'.messages| == n + 1 + |r.pending| && s'.messages[..n] == s.messages
              && s'.messages[n] == Message(Assistant, r.chat.value.parts, None)
              && forall j :: 0 <= j < |r.pending| ==> s'.messages[n + 1 + j] == Message(User, [Text(r.pending[j])], None)
  {
  }

  /** When a turn ends, and with what. */
  lemma TheTurnEndsIff(c: Catalog, maxRounds: nat, s: State, r: Round)
    requires s.status.Running?
    ensures var s' := Step(c, maxRounds, s, r);
            && (r.cancelled ==> s' == s.(status := Ended(Ok(s.reply))))
            && (!r.cancelled && r.chat.Err? ==> s'.status == Ended(Err(r.chat.error)) && s'.messages == s.messages && s'.reply == s.reply)
            && (!r.cancelled && r.chat.Ok? ==>
                  var text, calls, reason := TextOf(r.chat.value.parts), CallsOf(r.chat.value.parts), r.chat.value.finishReason;
                  && s'.reply == (if text == "" then s.reply else if s.reply == "" then text else s.reply + "\n\n" + text)
                  && (s'.status.Ended? <==>
                        if calls == [] then r.pending == []
                        else reason.Some? && reason.value != "length" && maxRounds > 0 && s.round + 1 >= maxRounds)
                  && (s'.status.Ended? ==> s'.status == Ended(Ok(s'.reply)))
                  && (s'.status.Running? ==> s'.round == s.round + 1))
  {
  }

  /** Which of a round's calls are run, one call after another: one to the loader, or
      of a tool that is eager or loaded by then. */
  lemma {:induction false} OneCallMore(c: Catalog, calls: seq<ToolCall>, loaded: set<string>)
    requires calls != []
    ensures var before, call := calls[..|calls| - 1], calls[|calls| - 1];
            var now := loaded + LoadedByCalls(c, before);
            RunBy(c, calls, loaded) == RunBy(c, before, loaded) +
              (if call.name == "load_tools" || call.name in c.eager || call.name in now then [call.name] else [])
    decreases calls
  {
    var before, rest := calls[..|calls| - 1], calls[1..];
    if |calls| == 1 {
      assert before == [] && rest == [];
      assert loaded + LoadedByCalls(c, []) == loaded;
    } else {
      assert before[1..] == rest[..|rest| - 1] && before[..1] == calls[..1];
      var one := LoadedByCalls(c, calls[..1]);
      OneCallMore(c, rest, loaded + one);
      assert calls[..1][1..] == [];
      assert LoadedByCalls(c, calls[..1][1..]) == {};
      assert LoadedByCalls(c, before) == one + LoadedByCalls(c, before[1..]);
      assert loaded + one + LoadedByCalls(c, before[1..]) == loaded + LoadedByCalls(c, before);
    }
  }

  // ---- What the user watched arrive ------------------------------------------------------------

  /** The host's side of a turn: what it has shown, and whether a round of this
      turn has shown text. */
  datatype Host = Host(streamed: bool, stream: string)

  function Concat(pieces: seq<string>): string {
    if pieces == [] then "" else pieces[0] + Concat(pieces[1..])
  }

  /** Pieces shown as they come, a blank line before the first of a round that
      follows one with text. */
  function Sink(stream: string, separate: bool, pieces: seq<string>): string
    decreases |pieces|
  {
    if pieces == [] then stream
    else Sink(stream + (if separate then SEPARATOR else "") + pieces[0], false, pieces[1..])
  }

  /** A call to the model streams, whether it then succeeds or fails partway. */
  function StreamCall(h: Host, r: Round): Host {
    Host(h.streamed || (r.chat.Ok? && TextOf(r.chat.value.parts) != ""), Sink(h.stream, h.streamed, r.shown))
  }

  /** No piece is empty, and those of a call that succeeds are its prose. */
  predicate HostKeeps(r: Round) {
    && (forall i :: 0 <= i < |r.shown| ==> r.shown[i] != "")
    && (r.chat.Ok? ==> Concat(r.shown) == TextOf(r.chat.value.parts))
  }

  predicate CallsModel(s: State, r: Round) {
    s.status.Running? && !r.cancelled
  }

  /** The host beside the loop: it streams every call the loop makes. */
  function Watch(c: Catalog, maxRounds: nat, s: State, h: Host, script: seq<Round>): Host
    decreases script
  {
    if script == [] then h
    else
      Watch(c, maxRounds, Step(c, maxRounds, s, script[0]),
            if CallsModel(s, script[0]) then StreamCall(h, script[0]) else h, script[1..])
  }

  /** A call failed after some of it was shown. */
  predicate FailsMidway(c: Catalog, maxRounds: nat, s: State, script: seq<Round>)
    decreases script
  {
    script != [] &&
    ((CallsModel(s, script[0]) && script[0].chat.Err? && script[0].shown != []) ||
     FailsMidway(c, maxRounds, Step(c, maxRounds, s, script[0]), script[1..]))
  }

  lemma {:induction false} SinkIs(stream: string, separate: bool, pieces: seq<string>)
    requires forall i :: 0 <= i < |pieces| ==> pieces[i] != ""
    ensures pieces == [] <==> Concat(pieces) == ""
    ensures Sink(stream, separate, pieces) ==
              if pieces == [] then stream else stream + (if separate then SEPARATOR else "") + Concat(pieces)
    decreases |pieces|
  {
    if pieces != [] {
      var next := stream + (if separate then SEPARATOR else "") + pieces[0];
      SinkIs(next, false, pieces[1..]);
      assert next + "" == next;
    }
  }

  lemma {:induction false} EndedFailsNoMore(c: Catalog, maxRounds: nat, s: State, h: Host, script: seq<Round>)
    requires s.status.Ended?
    ensures !FailsMidway(c, maxRounds, s, script) && Watch(c, maxRounds, s, h, script) == h
    ensures Turn(c, maxRounds, s, script) == s
    decreases script
  {
    if script != [] {
      EndedFailsNoMore(c, maxRounds, s, h, script[1..]);
    }
  }

  lemma {:induction false} StreamFollowsReply(c: Catalog, maxRounds: nat, s: State, h: Host, script: seq<Round>)
    requires forall i :: 0 <= i < |script| ==> HostKeeps(script[i])
    requires h.stream == s.reply && (h.streamed <==> s.reply != "")
    requires s.status.Ended? && s.status.result.Ok? ==> s.status.result.value == s.reply
    ensures var s', h' := Turn(c, maxRounds, s, script), Watch(c, maxRounds, s, h, script);
            && s'.reply <= h'.stream
            && (h'.stream == s'.reply <==> !FailsMidway(c, maxRounds, s, script))
            && (FailsMidway(c, maxRounds, s, script) ==> s'.status.Ended? && s'.status.result.Err?)
            && (s'.status.Ended? && s'.status.result.Ok? ==> s'.status.result.value == s'.reply)
    decreases script
  {
    if s.status.Ended? {
      EndedFailsNoMore(c, maxRounds, s, h, script);
    } else if script != [] {
      var r := script[0];
      assert HostKeeps(r);
      SinkIs(h.stream, h.streamed, r.shown);
      var next, watched := Step(c, maxRounds, s, r), if CallsModel(s, r) then StreamCall(h, r) else h;
      if r.cancelled || r.chat.Err? {
        EndedFailsNoMore(c, maxRounds, next, watched, script[1..]);
      } else {
        StreamFollowsReply(c, maxRounds, next, watched, script[1..]);
      }
    }
  }

  /** The reply against what the user watched arrive: the same, in every run but
      those where a call failed after some of it was shown. Then the turn fails,
      and its reply is the stream without that. */
  lemma ReplyIsWhatWasStreamed(c: Catalog, maxRounds: nat, conversation: seq<Message>, prompt: string, script: seq<Round>)
    requires forall i :: 0 <= i < |script| ==> HostKeeps(script[i])
    ensures var first := First(c, conversation, prompt);
            var s, h := Turn(c, maxRounds, first, script), Watch(c, maxRounds, first, Host(false, ""), script);
            && s.reply <= h.stream
            && (h.stream == s.reply <==> !FailsMidway(c, maxRounds, first, script))
            && (FailsMidway(c, maxRounds, first, script) ==> s.status.Ended? && s.status.result.Err?)
            && (s.status.Ended? && s.status.result.Ok? ==> s.status.result.value == s.reply == h.stream)
  {
    StreamFollowsReply(c, maxRounds, First(c, conversation, prompt), Host(false, ""), script);
  }

  /** With a limit, at most that many rounds run tools, and every further model
      call is paid for by a round cut short or extended by the user. */
  lemma RoundsAreBounded(c: Catalog, maxRounds: nat, conversation: seq<Message>, prompt: string, script: seq<Round>)
    requires maxRounds > 0
    ensures var s := Turn(c, maxRounds, First(c, conversation, prompt), script);
            s.toolRounds <= maxRounds && s.calls <= maxRounds + s.truncated + s.extended
  {
    SoundAlways(c, maxRounds, First(c, conversation, prompt), script);
  }

  /** Of the tools there are, what is offered is what is eager or loaded. */
  lemma {:induction false} OfferedIsCallable(c: Catalog, loaded: set<string>, name: string)
    ensures name in OfferedTools(c, loaded) <==>
              || (name in AllTools(c) && (name in c.eager || name in loaded))
              || (name == LOAD_TOOLS && DeferredNames(c) != [])
  {
    OfferedMeans(AllTools(c), c.eager, loaded, name);
  }

  /** A tool's call is run without its round having offered it, exactly where the
      check lets it run -- it is eager, loaded, or the loader -- and either the
      round is the last one permitted, which offers nothing; or an earlier call of
      the same round loaded it; or it is the loader with nothing left to load; or
      it is no tool at all, and is told so when it is run. */
  lemma RunsUnofferedIff(c: Catalog, maxRounds: nat, round: nat, loaded: set<string>, calls: seq<ToolCall>, k: nat)
    requires k < |calls|
    ensures var name, now := calls[k].name, loaded + LoadedByCalls(c, calls[..k]);
            (IsOffered(c, name, now) && name !in OfferOf(c, maxRounds, round, loaded)) <==>
              && IsOffered(c, name, now)
              && (|| Exhausted(maxRounds, round)
                  || (name in LoadedByCalls(c, calls[..k]) && name != LOAD_TOOLS && name !in c.eager && name !in loaded)
                  || (name == LOAD_TOOLS && DeferredNames(c) == [] && !(name in AllTools(c) && (name in c.eager || name in loaded)))
                  || (name !in AllTools(c) && name != LOAD_TOOLS))
  {
    OfferedIsCallable(c, loaded, calls[k].name);
  }

  lemma {:induction false} UnofferedAre(c: Catalog, calls: seq<ToolCall>, loaded: set<string>, offer: seq<string>, name: string)
    ensures name in UnofferedBy(c, calls, loaded, offer) <==> name in RunBy(c, calls, loaded) && name !in offer
    decreases calls
  {
    if calls != [] {
      UnofferedAre(c, calls[1..], loaded + LoadedByCalls(c, calls[..1]), offer, name);
    }
  }

  /** So of a round whose tools are run: a tool is run unoffered exactly where it
      is run and the round is the last permitted, or it was not on offer before
      the round's own calls to the loader. */
  lemma ARoundRunsUnoffered(c: Catalog, maxRounds: nat, s: State, r: Round, name: string)
    requires CallsModel(s, r) && r.chat.Ok? && CallsOf(r.chat.value.parts) != [] && !Truncated(r.chat.value)
    ensures var s', calls := Step(c, maxRounds, s, r), CallsOf(r.chat.value.parts);
            name in s'.unoffered <==>
              || name in s.unoffered
              || (name in RunBy(c, calls, s.loaded) &&
                  (Exhausted(maxRounds, s.round) || name !in OfferedTools(c, s.loaded)))
  {
    UnofferedAre(c, CallsOf(r.chat.value.parts), s.loaded, OfferOf(c, maxRounds, s.round, s.loaded), name);
  }

  /** One reply that loads a tool and calls it: the tool is run, though the round
      offered the loader alone. */
  lemma LoadedAndCalledInOneReply(tool: string)
    requires tool != LOAD_TOOLS
    ensures var c := Catalog([tool], [], {});
            var load := ToolCall("1", LOAD_TOOLS, Parsed(JObject(map[NAMES := JArray([JString(tool)])])));
            var calls := [load, ToolCall("2", tool, Garbled(""))];
            && OfferOf(c, 0, 0, {}) == [LOAD_TOOLS]
            && RunBy(c, calls, {}) == [LOAD_TOOLS, tool]
            && UnofferedBy(c, calls, {}, OfferOf(c, 0, 0, {})) == [tool]
  {
    var c := Catalog([tool], [], {});
    var load := ToolCall("1", LOAD_TOOLS, Parsed(JObject(map[NAMES := JArray([JString(tool)])])));
    var use := ToolCall("2", tool, Garbled(""));
    var calls := [load, use];
    assert AllTools(c) == [tool] && [tool][1..] == [];
    assert Without([tool], {}) == [tool] + Without([tool][1..], {}) == [tool];
    assert DeferredNames(c) == [tool];
    assert Offered([tool], {}, {}) == [] + Offered([], {}, {});
    assert OfferedTools(c, {}) == [LOAD_TOOLS];
    assert [JString(tool)][1..] == [];
    assert Strings([JString(tool)]) == [tool] + Strings([JString(tool)][1..]) == [tool];
    assert RequestedNames(load.arguments) == [tool];
    assert ResolveName(c, tool) == Some(tool);
    assert ResolvedSet(c, [tool]) == {tool} + ResolvedSet(c, []) == {tool};
    assert calls[..1] == [load] && [load][1..] == [] && calls[1..] == [use] && [use][1..] == [];
    assert LoadedByCalls(c, [load]) == {tool} + LoadedByCalls(c, []) == {tool};
    assert {} + {tool} == {tool};
    assert RunBy(c, [use], {tool}) == [tool] + RunBy(c, [], {tool} + LoadedByCalls(c, [use][..1])) == [tool];
    var offer := [LOAD_TOOLS];
    assert UnofferedBy(c, [use], {tool}, offer) == [tool] + UnofferedBy(c, [], {tool} + LoadedByCalls(c, [use][..1]), offer) == [tool];
  }

  lemma {:induction false} OfferedMeans(names: seq<string>, eager: set<string>, loaded: set<string>, name: string)
    ensures name in Offered(names, eager, loaded) <==> name in names && (name in eager || name in loaded)
    decreases names
  {
    if names != [] {
      OfferedMeans(names[1..], eager, loaded, name);
    }
  }

  // ---- The loop itself -----------------------------------------------------------------------

  /** Puts each stripped call back where its original stood. The text the source
      falls back on, were there fewer calls than places, is never used. */
  method EchoInPlace(parts: seq<Part>, stripped: seq<ToolCall>) returns (out: seq<Part>)
    requires stripped == StrippedAll(CallsOf(parts))
    ensures out == Echoed(parts)
  {
    out := [];
    var next, i := 0, 0;
    while i < |parts|
      invariant 0 <= i <= |parts| && 0 <= next <= |stripped|
      invariant stripped[next..] == StrippedAll(CallsOf(parts[i..]))
      invariant out == Echoed(parts)[..i]
    {
      assert parts[i..][1..] == parts[i + 1..];
      if parts[i].Text? {
        out := out + [parts[i]];
      } else {
        assert CallsOf(parts[i..]) == [parts[i].call] + CallsOf(parts[i + 1..]);
        if next < |stripped| {
          assert stripped[next..][0] == Stripped(parts[i].call);
          out := out + [Call(stripped[next])];
        } else {
          out := out + [Text("")];
        }
        assert StrippedAll(CallsOf(parts[i..]))[1..] == StrippedAll(CallsOf(parts[i + 1..]));
        next := next + 1;
      }
      i := i + 1;
    }
  }

  /** The turn: `messages`, `reply`, `loaded` and `round` change in place as the
      rounds come, until the turn ends or the script does. */
  method Run(c: Catalog, maxRounds: nat, conversation: seq<Message>, prompt: string, script: seq<Round>)
    returns (messages: seq<Message>, reply: string, loaded: set<string>, round: nat, status: Status, ran: seq<string>)
    ensures var s := Turn(c, maxRounds, First(c, conversation, prompt), script);
            messages == s.messages && reply == s.reply && loaded == s.loaded && round == s.round && status == s.status
            && ran == s.ran
  {
    var system := if prompt == "" then TURN_RULE else prompt + SEPARATOR + TURN_RULE;
    messages := [TextMessage(System, system)] + conversation;
    reply, round, status, ran := "", 0, Running, [];
    loaded := AlreadyLoaded(c, messages);
    ghost var s := First(c, conversation, prompt);
    if !SomethingWasSaid(messages) {
      EndedStays(c, maxRounds, s, script);
      return messages, reply, loaded, round, Ended(Err("conversation contains nothing to respond to")), [];
    }
    var i := 0;
    assert script[i..] == script && s.messages == messages;
    while i < |script|
      invariant 0 <= i <= |script|
      invariant Turn(c, maxRounds, First(c, conversation, prompt), script) == Turn(c, maxRounds, s, script[i..])
      invariant messages == s.messages && reply == s.reply && loaded == s.loaded && round == s.round && ran == s.ran
      invariant status == s.status == Running
    {
      var r := script[i];
      assert script[i..][0] == r && script[i..][1..] == script[i + 1..];
      ghost var next := Step(c, maxRounds, s, r);
      var run: seq<string>;
      messages, reply, loaded, round, status, run := OneRound(c, maxRounds, messages, reply, loaded, round, r, s);
      ran := ran + run;
      s := next;
      i := i + 1;
      if status.Ended? {
        EndedStays(c, maxRounds, s, script[i..]);
        return;
      }
    }
  }

  lemma {:induction false} EndedStays(c: Catalog, maxRounds: nat, s: State, script: seq<Round>)
    requires s.status.Ended?
    ensures Turn(c, maxRounds, s, script) == s
    decreases script
  {
    if script != [] {
      EndedStays(c, maxRounds, s, script[1..]);
    }
  }

  /** The body of the loop. */
  method OneRound(c: Catalog, maxRounds: nat, messages: seq<Message>, reply: string, loaded: set<string>,
                  round: nat, r: Round, ghost s: State)
    returns (messages': seq<Message>, reply': string, loaded': set<string>, round': nat, status': Status, ran: seq<string>)
    requires messages == s.messages && reply == s.reply && loaded == s.loaded && round == s.round && s.status.Running?
    ensures var s' := Step(c, maxRounds, s, r);
            messages' == s'.messages && reply' == s'.reply && loaded' == s'.loaded &&
            round' == s'.round && status' == s'.status && s.ran + ran == s'.ran
    ensures !r.cancelled && r.chat.Ok? && (r.chat.value.finishReason == None || r.chat.value.finishReason == Some("length")) ==>
              ran == [] && loaded' == loaded
  {
    messages', reply', loaded', round', status', ran := messages, reply, loaded, round, Running, [];
    if r.cancelled {
      status' := Ended(Ok(reply));
      return;
    }
    var exhausted := maxRounds > 0 && round + 1 >= maxRounds;
    if r.chat.Err? {
      status' := Ended(Err(r.chat.error));
      return;
    }
    var completion := r.chat.value;
    var text, calls := TextOf(completion.parts), CallsOf(completion.parts);
    if text != "" {
      if reply' != "" {
        reply' := reply' + SEPARATOR;
      }
      reply' := reply' + text;
    }
    round' := round + 1;
    if calls == [] {
      if r.pending == [] {
        round', status' := round, Ended(Ok(reply'));
      } else {
        messages' := messages + ([Message(Assistant, completion.parts, None)] + Injected(r.pending));
      }
      return;
    }
    if completion.finishReason == Some("length") || completion.finishReason.None? {
      var refused := [Message(Assistant, completion.parts, None)];
      var k := 0;
      while k < |calls|
        invariant 0 <= k <= |calls|
        invariant refused == RefusedBlock(completion.parts, completion.finishReason)[..k + 1]
      {
        refused := refused + [ToolMessage(calls[k], Cut(completion.finishReason))];
        k := k + 1;
      }
      messages' := messages + refused;
      return;
    }
    var echoed := EchoInPlace(completion.parts, StrippedAll(calls));
    var answered: seq<Message>;
    answered, loaded', ran := RunTools(c, calls, r.results, loaded);
    messages' := messages + ([Message(Assistant, echoed, None)] + answered + Injected(r.pending));
    if exhausted {
      status' := Ended(Ok(reply'));
    }
  }

  /** What is run and loaded once the first k calls are done, against all of them. */
  predicate RanSoFar(c: Catalog, calls: seq<ToolCall>, loaded: set<string>, k: nat, now: set<string>, ran: seq<string>) {
    && k <= |calls|
    && loaded + LoadedByCalls(c, calls) == now + LoadedByCalls(c, calls[k..])
    && RunBy(c, calls, loaded) == ran + RunBy(c, calls[k..], now)
  }

  lemma NothingRanYet(c: Catalog, calls: seq<ToolCall>, loaded: set<string>)
    ensures RanSoFar(c, calls, loaded, 0, loaded, [])
  {
    assert calls[0..] == calls;
  }

  lemma OneMoreRan(c: Catalog, calls: seq<ToolCall>, loaded: set<string>, k: nat, now: set<string>, ran: seq<string>)
    requires RanSoFar(c, calls, loaded, k, now, ran) && k < |calls|
    ensures var call := calls[k];
            RanSoFar(c, calls, loaded, k + 1,
                     if call.name == LOAD_TOOLS then now + ResolvedSet(c, RequestedNames(call.arguments)) else now,
                     if IsOffered(c, call.name, now) then ran + [call.name] else ran)
  {
    hide ResolvedSet, RequestedNames;
    var more := if calls[k].name == LOAD_TOOLS then ResolvedSet(c, RequestedNames(calls[k].arguments)) else {};
    assert calls[k..][1..] == calls[k + 1..] && calls[k..][..1] == [calls[k]] && [calls[k]][1..] == [];
    assert LoadedByCalls(c, [calls[k]]) == more + {} == more;
    assert now + {} == now;
  }

  lemma AllRan(c: Catalog, calls: seq<ToolCall>, loaded: set<string>, now: set<string>, ran: seq<string>)
    requires RanSoFar(c, calls, loaded, |calls|, now, ran)
    ensures now == loaded + LoadedByCalls(c, calls) && ran == RunBy(c, calls, loaded)
  {
    assert calls[|calls|..] == [];
  }

  /** Runs a round's calls in order, each answered with one message, and says
      which were run. A call that is not on offer by then is told so. A call to the
      loader changes what the calls after it, and the next round, are offered. */
  method RunTools(c: Catalog, calls: seq<ToolCall>, results: seq<ToolText>, loaded: set<string>)
    returns (answered: seq<Message>, loaded': set<string>, ran: seq<string>)
    ensures answered == Answers(calls, results)
    ensures loaded' == loaded + LoadedByCalls(c, calls)
    ensures ran == RunBy(c, calls, loaded)
  {
    hide RanSoFar, LoadedByCalls, RunBy;
    answered, loaded', ran := [], loaded, [];
    NothingRanYet(c, calls, loaded);
    var k := 0;
    while k < |calls|
      invariant 0 <= k <= |calls|
      invariant answered == Answers(calls, results)[..k]
      invariant RanSoFar(c, calls, loaded, k, loaded', ran)
    {
      OneMoreRan(c, calls, loaded, k, loaded', ran);
      if IsOffered(c, calls[k].name, loaded') {
        ran := ran + [calls[k].name];
        if calls[k].name == LOAD_TOOLS {
          var more, told := LoadTools(c, calls[k].arguments, loaded');
          loaded' := more;
        }
      }
      answered := answered + [ToolMessage(calls[k], ResultAt(results, k))];
      k := k + 1;
    }
    AllRan(c, calls, loaded, loaded', ran);
  }
}
