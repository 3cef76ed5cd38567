/** The default agent's tools: which exist, which a turn is offered, and which
    have been loaded -- as the loop carries the set, and as a new turn rebuilds
    it from the transcript. Messages and calls are declared here because the
    transcript is where the loaded set lives. */
module AgentTools {
  import opened Basics

  datatype Json =
    | JNull
    | JBool(value: bool)
    | JNumber(text: string)
    | JString(text: string)
    | JArray(items: seq<Json>)
    | JObject(fields: map<string, Json>)

  /** A call's arguments as the model wrote them: JSON, or text that is not. */
  datatype Arguments = Garbled(text: string) | Parsed(value: Json)

  datatype ToolCall = ToolCall(id: string, name: string, arguments: Arguments)

  datatype Part = Text(text: string) | Call(call: ToolCall)

  datatype Role = System | User | Assistant | Tool

  datatype Message = Message(role: Role, parts: seq<Part>, toolCallId: Option<string>)

  const LOAD_TOOLS := "load_tools"
  const ACTION := "action"
  const NAMES := "names"

  function TextMessage(role: Role, text: string): Message {
    Message(role, [Text(text)], None)
  }

  function TextOf(parts: seq<Part>): string {
    if parts == [] then "" else (if parts[0].Text? then parts[0].text else "") + TextOf(parts[1..])
  }

  function CallsOf(parts: seq<Part>): seq<ToolCall> {
    if parts == [] then [] else (if parts[0].Call? then [parts[0].call] else []) + CallsOf(parts[1..])
  }

  // ---- Which tools there are, and which are loaded ---------------------------------------

  datatype Operation = Operation(name: string, file: string)

  /** What the host offers a turn: the component's own tools, the bound skills'
      operations, and the names offered from the first round. */
  datatype Catalog = Catalog(builtin: seq<string>, declared: seq<Operation>, eager: set<string>)

  /** The operations that do not shadow one of the component's own tools. */
  function Operations(builtin: seq<string>, declared: seq<Operation>): seq<Operation> {
    if declared == [] then []
    else (if declared[0].name in builtin || declared[0].name == LOAD_TOOLS then [] else [declared[0]])
         + Operations(builtin, declared[1..])
  }

  function NamesOf(ops: seq<Operation>): seq<string> {
    seq(|ops|, i requires 0 <= i < |ops| => ops[i].name)
  }

  function AllTools(c: Catalog): seq<string> {
    c.builtin + NamesOf(Operations(c.builtin, c.declared))
  }

  function Without(names: seq<string>, eager: set<string>): seq<string> {
    if names == [] then []
    else (if names[0] in eager then [] else [names[0]]) + Without(names[1..], eager)
  }

  function DeferredNames(c: Catalog): seq<string> {
    Without(AllTools(c), c.eager)
  }

  predicate EndsWith(text: string, suffix: string) {
    |suffix| <= |text| && text[|text| - |suffix|..] == suffix
  }

  function Matching(ops: seq<Operation>, file: string, available: seq<string>): seq<string> {
    if ops == [] then []
    else (if EndsWith(ops[0].file, file) && ops[0].name in available then [ops[0].name] else [])
         + Matching(ops[1..], file, available)
  }

  /** The tool a name means: itself, or the one bound operation whose file is
      called that. */
  function ResolveName(c: Catalog, name: string): Option<string> {
    if name in DeferredNames(c) then Some(name)
    else
      var found := Matching(Operations(c.builtin, c.declared), "/" + name + ".md", DeferredNames(c));
      if |found| == 1 then Some(found[0]) else None
  }

  /** The tools there are: the component's own, and the declared operations of any
      other name. Those not offered from the first round are to be loaded. */
  lemma {:induction false} OperationsAre(builtin: seq<string>, declared: seq<Operation>, op: Operation)
    ensures op in Operations(builtin, declared) <==> op in declared && op.name !in builtin && op.name != "load_tools"
    decreases declared
  {
    if declared != [] { OperationsAre(builtin, declared[1..], op); }
  }

  lemma {:induction false} WithoutIs(names: seq<string>, eager: set<string>, name: string)
    ensures name in Without(names, eager) <==> name in names && name !in eager
    decreases names
  {
    if names != [] { WithoutIs(names[1..], eager, name); }
  }

  lemma ToolsAre(c: Catalog, name: string)
    ensures name in AllTools(c) <==>
              (name in c.builtin || (name != "load_tools" && exists i :: 0 <= i < |c.declared| && c.declared[i].name == name))
    ensures name in DeferredNames(c) <==> name in AllTools(c) && name !in c.eager
  {
    var ops := Operations(c.builtin, c.declared);
    WithoutIs(AllTools(c), c.eager, name);
    if i :| 0 <= i < |c.declared| && c.declared[i].name == name {
      OperationsAre(c.builtin, c.declared, c.declared[i]);
      if name !in c.builtin && name != "load_tools" {
        var k :| 0 <= k < |ops| && ops[k] == c.declared[i];
        assert NamesOf(ops)[k] == name;
      }
    }
    if k :| 0 <= k < |ops| && NamesOf(ops)[k] == name {
      OperationsAre(c.builtin, c.declared, ops[k]);
    }
  }

  /** A file is called so where its path ends so. */
  lemma EndsWithIff(text: string, suffix: string)
    ensures EndsWith(text, suffix) <==> exists before: string :: text == before + suffix
  {
    if EndsWith(text, suffix) {
      assert text == text[..|text| - |suffix|] + suffix;
    }
  }

  /** An operation's own name, as its skill's file is called. */
  predicate MeantBy(op: Operation, file: string, available: seq<string>) {
    EndsWith(op.file, file) && op.name in available
  }

  lemma {:induction false} MatchingNone(ops: seq<Operation>, file: string, available: seq<string>)
    ensures Matching(ops, file, available) == [] <==> forall i :: 0 <= i < |ops| ==> !MeantBy(ops[i], file, available)
    decreases ops
  {
    hide EndsWith;
    if ops != [] {
      MatchingNone(ops[1..], file, available);
      assert forall i :: 1 <= i < |ops| ==> ops[i] == ops[1..][i - 1];
      assert forall i :: 0 <= i < |ops| - 1 ==> ops[1..][i] == ops[i + 1];
    }
  }

  predicate OnlyMeant(ops: seq<Operation>, file: string, available: seq<string>, i: nat) {
    i < |ops| && MeantBy(ops[i], file, available) &&
    forall j :: 0 <= j < |ops| && j != i ==> !MeantBy(ops[j], file, available)
  }

  lemma {:induction false} MatchingOne(ops: seq<Operation>, file: string, available: seq<string>) returns (i: nat)
    requires |Matching(ops, file, available)| == 1
    ensures OnlyMeant(ops, file, available, i) && Matching(ops, file, available)[0] == ops[i].name
    decreases ops
  {
    hide EndsWith;
    MatchingNone(ops[1..], file, available);
    assert forall j :: 1 <= j < |ops| ==> ops[j] == ops[1..][j - 1];
    if MeantBy(ops[0], file, available) {
      i := 0;
    } else {
      var k := MatchingOne(ops[1..], file, available);
      i := k + 1;
    }
  }

  lemma {:induction false} OneMatching(ops: seq<Operation>, file: string, available: seq<string>, i: nat)
    requires OnlyMeant(ops, file, available, i)
    ensures Matching(ops, file, available) == [ops[i].name]
    decreases ops
  {
    hide EndsWith;
    assert forall j :: 0 <= j < |ops| - 1 ==> ops[1..][j] == ops[j + 1];
    if i == 0 {
      MatchingNone(ops[1..], file, available);
    } else {
      OneMatching(ops[1..], file, available, i - 1);
    }
  }

  /** The operation a name means by its file, the only one so called. */
  predicate Means(c: Catalog, name: string, i: nat) {
    OnlyMeant(Operations(c.builtin, c.declared), "/" + name + ".md", DeferredNames(c), i)
  }

  /** A name means itself where it is a tool to load, and otherwise the one
      operation whose file is called that: two of one name mean neither. */
  lemma ResolvesIff(c: Catalog, name: string, tool: string)
    ensures ResolveName(c, name) == Some(tool) <==>
              if name in DeferredNames(c) then tool == name
              else exists i: nat :: Means(c, name, i) && Operations(c.builtin, c.declared)[i].name == tool
  {
    hide EndsWith, DeferredNames, Operations, MeantBy;
    var names, ops, file := DeferredNames(c), Operations(c.builtin, c.declared), "/" + name + ".md";
    var found := Matching(ops, file, names);
    if name !in names {
      assert ResolveName(c, name) == if |found| == 1 then Some(found[0]) else None;
      forall i: nat | Means(c, name, i) ensures found == [ops[i].name] {
        OneMatching(ops, file, names, i);
      }
      if |found| == 1 {
        var i := MatchingOne(ops, file, names);
        assert Means(c, name, i) && found[0] == ops[i].name;
      }
    }
  }

  /** The strings in a call's list of names. */
  function Strings(items: seq<Json>): seq<string> {
    if items == [] then []
    else (if items[0].JString? then [items[0].text] else []) + Strings(items[1..])
  }

  function RequestedNames(a: Arguments): seq<string> {
    if a.Parsed? && a.value.JObject? && NAMES in a.value.fields && a.value.fields[NAMES].JArray?
    then Strings(a.value.fields[NAMES].items)
    else []
  }

  /** What a call asks for: the strings of its list of names, in order, and nothing
      where its arguments are no such thing. */
  lemma {:induction false} StringsAre(items: seq<Json>, more: seq<Json>)
    ensures Strings(items + more) == Strings(items) + Strings(more)
    ensures forall text :: Strings([JString(text)]) == [text]
    ensures (forall i :: 0 <= i < |items| ==> !items[i].JString?) ==> Strings(items) == []
    decreases items
  {
    assert forall text :: [JString(text)][1..] == [];
    if items == [] {
      assert items + more == more;
    } else {
      assert (items + more)[1..] == items[1..] + more;
      StringsAre(items[1..], more);
    }
  }

  lemma RequestedAre(a: Arguments)
    ensures var list := a.Parsed? && a.value.JObject? && "names" in a.value.fields && a.value.fields["names"].JArray?;
            RequestedNames(a) == if list then Strings(a.value.fields["names"].items) else []
  {
  }

  function ResolvedSet(c: Catalog, names: seq<string>): set<string> {
    if names == [] then {}
    else (var r := ResolveName(c, names[0]); if r.Some? then {r.value} else {}) + ResolvedSet(c, names[1..])
  }

  function LoadedByCalls(c: Catalog, calls: seq<ToolCall>): set<string> {
    if calls == [] then {}
    else (if calls[0].name == LOAD_TOOLS then ResolvedSet(c, RequestedNames(calls[0].arguments)) else {})
         + LoadedByCalls(c, calls[1..])
  }

  /** What the `load_tools` calls of a transcript loaded: the set a new turn is
      rebuilt with. */
  function LoadedBy(c: Catalog, messages: seq<Message>): set<string> {
    if messages == [] then {}
    else LoadedByCalls(c, CallsOf(messages[0].parts)) + LoadedBy(c, messages[1..])
  }

  predicate IsOffered(c: Catalog, name: string, loaded: set<string>) {
    name == LOAD_TOOLS || name in c.eager || name in loaded
  }

  function Offered(names: seq<string>, eager: set<string>, loaded: set<string>): seq<string> {
    if names == [] then []
    else (if names[0] in eager || names[0] in loaded then [names[0]] else []) + Offered(names[1..], eager, loaded)
  }

  /** What the model is offered: what is eager or loaded, and the loader itself
      whenever anything is deferred. */
  function OfferedTools(c: Catalog, loaded: set<string>): seq<string> {
    Offered(AllTools(c), c.eager, loaded) + if DeferredNames(c) == [] then [] else [LOAD_TOOLS]
  }

  /** Rebuilds the loaded set from a conversation, as a new turn does. */
  method AlreadyLoaded(c: Catalog, conversation: seq<Message>) returns (loaded: set<string>)
    ensures loaded == LoadedBy(c, conversation)
  {
    hide ResolveName, RequestedNames, CallsOf;
    loaded := {};
    var i := 0;
    while i < |conversation|
      invariant 0 <= i <= |conversation|
      invariant LoadedBy(c, conversation) == loaded + LoadedBy(c, conversation[i..])
    {
      var calls := CallsOf(conversation[i].parts);
      ghost var before := loaded;
      var k := 0;
      while k < |calls|
        invariant 0 <= k <= |calls|
        invariant before + LoadedByCalls(c, calls) == loaded + LoadedByCalls(c, calls[k..])
      {
        if calls[k].name == LOAD_TOOLS {
          var names := RequestedNames(calls[k].arguments);
          ghost var sofar := loaded;
          var n := 0;
          while n < |names|
            invariant 0 <= n <= |names|
            invariant sofar + ResolvedSet(c, names) == loaded + ResolvedSet(c, names[n..])
          {
            var tool := ResolveName(c, names[n]);
            if tool.Some? {
              loaded := loaded + {tool.value};
            }
            n := n + 1;
          }
        }
        k := k + 1;
      }
      i := i + 1;
    }
  }

  /** What one `load_tools` call is told. */
  datatype Loading =
    | NothingAsked
    | AllFound(found: seq<string>)
    | NoneFound(missing: seq<string>)
    | SomeFound(found: seq<string>, missing: seq<string>)

  function Unresolved(c: Catalog, names: seq<string>): seq<string> {
    if names == [] then []
    else (if ResolveName(c, names[0]).None? then [names[0]] else []) + Unresolved(c, names[1..])
  }

  lemma OneUnresolved(c: Catalog, name: string)
    ensures Unresolved(c, [name]) == if ResolveName(c, name).None? then [name] else []
  {
    hide ResolveName;
    assert [name][1..] == [];
  }

  /** The names that mean no tool, in order: with `OneUnresolved`, name by name. */
  lemma {:induction false} UnresolvedAre(c: Catalog, names: seq<string>, more: seq<string>)
    ensures Unresolved(c, names + more) == Unresolved(c, names) + Unresolved(c, more)
    decreases names
  {
    hide ResolveName;
    if names == [] {
      assert names + more == more;
    } else {
      assert (names + more)[1..] == names[1..] + more;
      UnresolvedAre(c, names[1..], more);
    }
  }

  /** The names a call asks for, resolved: each tool once, in the order asked,
      and the names that mean none. */
  method ResolveAll(c: Catalog, requested: seq<string>) returns (found: seq<string>, missing: seq<string>)
    ensures forall a, b :: 0 <= a < b < |found| ==> found[a] != found[b]
    ensures forall t :: t in found <==> t in ResolvedSet(c, requested)
    ensures missing == Unresolved(c, requested)
  {
    hide ResolveName;
    found, missing := [], [];
    ghost var tools: set<string> := {};
    var i := 0;
    while i < |requested|
      invariant 0 <= i <= |requested|
      invariant forall a, b :: 0 <= a < b < |found| ==> found[a] != found[b]
      invariant forall t :: t in found <==> t in tools
      invariant ResolvedSet(c, requested) == tools + ResolvedSet(c, requested[i..])
      invariant Unresolved(c, requested) == missing + Unresolved(c, requested[i..])
    {
      assert requested[i..][1..] == requested[i + 1..];
      var tool := ResolveName(c, requested[i]);
      if tool.None? {
        missing := missing + [requested[i]];
      } else {
        tools := tools + {tool.value};
        if tool.value !in found {
          found := found + [tool.value];
        }
      }
      i := i + 1;
    }
  }

  /** Loads what can be resolved, and names back what cannot. */
  method LoadTools(c: Catalog, arguments: Arguments, loaded: set<string>)
    returns (loaded': set<string>, told: Loading)
    ensures loaded' == loaded + ResolvedSet(c, RequestedNames(arguments))
    ensures told.NothingAsked? <==> RequestedNames(arguments) == []
    ensures told.NoneFound? ==> ResolvedSet(c, RequestedNames(arguments)) == {}
    ensures told.AllFound? || told.SomeFound? ==>
      (forall i, j :: 0 <= i < j < |told.found| ==> told.found[i] != told.found[j]) &&
      (forall t :: t in told.found <==> t in ResolvedSet(c, RequestedNames(arguments)))
    ensures told.NoneFound? || told.SomeFound? ==>
      told.missing == Unresolved(c, RequestedNames(arguments)) && told.missing != []
    ensures told.AllFound? ==> Unresolved(c, RequestedNames(arguments)) == []
  {
    var requested := RequestedNames(arguments);
    if requested == [] {
      return loaded, NothingAsked;
    }
    var found, missing := ResolveAll(c, requested);
    loaded' := loaded;
    var k := 0;
    while k < |found|
      invariant 0 <= k <= |found|
      invariant forall t :: t in loaded' <==> t in loaded || t in found[..k]
    {
      loaded' := loaded' + {found[k]};
      k := k + 1;
    }
    assert found[..k] == found;
    told := if missing == [] then AllFound(found)
            else if found == [] then NoneFound(missing)
            else SomeFound(found, missing);
  }
}
