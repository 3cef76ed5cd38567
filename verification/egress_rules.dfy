/** Egress rules, the keys people connect for them, and the rules a turn is
    given. An operation reads a rule and then writes it, and another may run in
    between: what was read is part of each operation here. */
module EgressRules {
  import opened Basics

  /** A header's name: two spellings of one name are the same header. Some names
      the gateway keeps to itself. */
  datatype Header = Header(name: nat, spelling: nat, allowed: bool)

  datatype Host = Host(name: nat, wildcard: bool)

  datatype Owner = Agent | Asker

  /** What a seal is bound to: the seal says so itself. */
  datatype Binding = Binding(workspaces: set<Id>, hosts: set<nat>, header: nat, user: Option<Id>)

  predicate Attaches(b: Binding, workspace: Id, host: Host, header: Header, asker: Option<Id>) {
    workspace in b.workspaces && host.name in b.hosts && b.header == header.name && b.user == asker
  }

  /** A credential; live until it is revoked, which wipes its seal. A person's own
      names the person and the rule it was connected for. */
  datatype Credential = Credential(workspace: Id, binding: Binding, live: bool, generation: nat, user: Option<Id>, rule: Id)

  datatype Rule = Rule(workspace: Id, host: Host, header: Option<Header>, env: bool, exchange: bool,
                       credential: Option<Id>, owner: Owner, onBehalfOf: bool, enabled: bool)

  datatype World = World(rules: map<Id, Rule>, keys: map<Id, Credential>)

  datatype Error = NoSuchRule | Invalid | Duplicate | Changed | Database

  // ---- The tables ------------------------------------------------------------------------------

  /** The constraints on a row: a header has one source, an exchange is instead of
      a header, and only an agent's rule with a credential says who is asking. */
  predicate RowAllowed(r: Rule) {
    && (match r.owner
        case Agent => if r.header.None? then !r.env && r.credential.None? else r.env != r.credential.Some?
        case Asker => r.header.Some? && !r.env && !r.exchange)
    && (r.exchange ==> r.header.None?)
    && (r.onBehalfOf ==> r.owner.Agent? && (r.env || r.exchange || r.credential.Some?))
  }

  function WriteRule(w: World, id: Id, r: Rule): Result<World, Error> {
    if id !in w.rules || !RowAllowed(r) then Err(Database) else Ok(w.(rules := w.rules[id := r]))
  }

  function Revoked(k: Credential): Credential {
    k.(live := false, generation := k.generation + 1)
  }

  predicate Mine(k: Credential, rule: Id, user: Id) {
    k.user == Some(user) && k.rule == rule
  }

  /** The keys people connected for a rule. */
  predicate ConnectedFor(k: Credential, rule: Id, workspace: Id) {
    k.user.Some? && k.rule == rule && k.workspace == workspace
  }

  function RevokeAll(keys: map<Id, Credential>, which: Credential -> bool): map<Id, Credential> {
    map k | k in keys :: if which(keys[k]) && keys[k].live then Revoked(keys[k]) else keys[k]
  }

  predicate LiveHere(w: World, workspace: Id, key: Id) {
    key in w.keys && w.keys[key].live && w.keys[key].workspace == workspace
  }

  // ---- The operations ---------------------------------------------------------------------------

  /** What is asked for; `vetted` is what the names alone must pass: the host, the
      variables, the exchange's URL, the operator's bindings. */
  datatype NewRule = NewRule(host: Host, header: Option<Header>, env: bool, exchange: bool,
                             credential: Option<Id>, owner: Owner, vetted: bool)

  predicate MayCreate(w: World, workspace: Id, input: NewRule) {
    && input.vetted
    && (input.owner.Asker? ==> input.header.Some? && !input.env && !input.exchange && !input.host.wildcard)
    && !(input.header.Some? && !input.env && input.credential.None? && !input.owner.Asker?)
    && !(input.env && input.credential.Some?)
    && !(input.header.None? && (input.credential.Some? || input.env))
    && (input.exchange ==> input.header.None?)
    && (input.header.Some? ==> input.header.value.allowed)
    && (input.credential.Some? ==>
          && !input.host.wildcard && LiveHere(w, workspace, input.credential.value)
          && Attaches(w.keys[input.credential.value].binding, workspace, input.host, input.header.value, None))
  }

  predicate Taken(w: World, workspace: Id, host: Host) {
    exists i :: i in w.rules && w.rules[i].workspace == workspace && w.rules[i].host == host
  }

  function Create(w: World, workspace: Id, id: Id, input: NewRule): Result<World, Error> {
    if !MayCreate(w, workspace, input) then Err(Invalid)
    else if Taken(w, workspace, input.host) then Err(Duplicate)
    else
      var r := Rule(workspace, input.host, input.header, input.env, input.exchange, input.credential, input.owner, false, true);
      if id in w.rules || !RowAllowed(r) then Err(Database) else Ok(w.(rules := w.rules[id := r]))
  }

  predicate MaySetCredential(w: World, workspace: Id, seen: Rule, header: Option<Header>, key: Option<Id>) {
    && !seen.env && !seen.exchange
    && (seen.owner.Asker? ==> header == seen.header)
    && match (header, key)
       case (Some(_), None) => seen.owner.Asker?
       case (Some(h), Some(k)) => && !seen.host.wildcard && h.allowed && LiveHere(w, workspace, k)
                                  && Attaches(w.keys[k].binding, workspace, seen.host, h, None)
       case (None, None) => true
       case (None, Some(_)) => false
  }

  function SetCredential(w: World, id: Id, seen: Rule, header: Option<Header>, key: Option<Id>): Result<World, Error> {
    if !MaySetCredential(w, seen.workspace, seen, header, key) then Err(Invalid)
    else if id !in w.rules then Err(Database)
    else WriteRule(w, id, w.rules[id].(header := header, credential := key,
                                       onBehalfOf := w.rules[id].onBehalfOf && key.Some?))
  }

  predicate SameHeader(a: Option<Header>, b: Header) {
    a.Some? && a.value.name == b.name
  }

  /** To each person: the header their keys will travel in. */
  function AskersHeader(w: World, seen: Rule, header: Option<Header>): Option<Header> {
    if seen.env || seen.exchange || seen.host.wildcard then None
    else if seen.owner.Asker? && header.Some? && !SameHeader(seen.header, header.value) then None
    else
      var h := if header.Some? then header else seen.header;
      if h.None? || !h.value.allowed then None
      else if && seen.credential.Some? && LiveHere(w, seen.workspace, seen.credential.value)
              && !Attaches(w.keys[seen.credential.value].binding, seen.workspace, seen.host, h.value, None) then None
      else h
  }

  function SetOwner(w: World, id: Id, seen: Rule, owner: Owner, header: Option<Header>): Result<World, Error> {
    match owner
    case Asker =>
      var h := AskersHeader(w, seen, header);
      if h.None? then Err(Invalid)
      else if id !in w.rules then Err(Database)
      else WriteRule(w, id, w.rules[id].(owner := Asker, header := h, onBehalfOf := false))
    case Agent =>
      if id !in w.rules then Err(Database)
      else
        var revoked := RevokeAll(w.keys, (k: Credential) => ConnectedFor(k, id, seen.workspace));
        var now := w.rules[id];
        WriteRule(w.(keys := revoked), id,
                  now.(owner := Agent, header := if now.credential.None? then None else now.header))
  }

  predicate Carries(r: Rule) {
    r.env || r.exchange || r.credential.Some?
  }

  /** Checked when read, and again in the update. */
  function SetOnBehalfOf(w: World, id: Id, seen: Rule, on: bool): Result<World, Error> {
    if on && (seen.owner.Asker? || !Carries(seen) || seen.host.wildcard) then Err(Invalid)
    else if id !in w.rules || !(on ==> w.rules[id].owner.Agent? && !w.rules[id].host.wildcard && Carries(w.rules[id]))
    then Err(Changed)
    else WriteRule(w, id, w.rules[id].(onBehalfOf := on))
  }

  /** A rule goes, and with it the keys connected for it. */
  function Delete(w: World, id: Id, workspace: Id): Result<World, Error> {
    if id !in w.rules || w.rules[id].workspace != workspace then Err(NoSuchRule)
    else Ok(World(w.rules - {id}, map k | k in w.keys && !(w.keys[k].user.Some? && w.keys[k].rule == id) :: w.keys[k]))
  }

  /** A person's key for a rule, replacing any they connected before. */
  function Connect(w: World, id: Id, seen: Rule, user: Id, key: Id, binding: Binding): Result<World, Error> {
    if seen.owner.Agent? || seen.header.None? then Err(NoSuchRule)
    else if !(binding.workspaces == {seen.workspace} && Attaches(binding, seen.workspace, seen.host, seen.header.value, Some(user)))
    then Err(Invalid)
    else if id !in w.rules then Err(Database)
    else if key in w.keys then Err(Duplicate)
    else
      var revoked := RevokeAll(w.keys, (k: Credential) => Mine(k, id, user));
      Ok(w.(keys := revoked[key := Credential(seen.workspace, binding, true, 1, Some(user), id)]))
  }

  function Disconnect(w: World, id: Id, workspace: Id, user: Id): World {
    w.(keys := RevokeAll(w.keys, (k: Credential) => Mine(k, id, user) && k.workspace == workspace))
  }

  /** A person leaves a workspace, and every key they connected in it is revoked. */
  function Leave(w: World, workspace: Id, user: Id): World {
    w.(keys := RevokeAll(w.keys, (k: Credential) => k.user == Some(user) && k.workspace == workspace))
  }

  /** A key of the workspace's own, stored, replaced or revoked. */
  function StoreKey(w: World, workspace: Id, key: Id, binding: Binding): Result<World, Error> {
    if binding.user.Some? then Err(Invalid)
    else if key in w.keys then Err(Duplicate)
    else Ok(w.(keys := w.keys[key := Credential(workspace, binding, true, 1, None, 0)]))
  }

  function Rotate(w: World, workspace: Id, key: Id, binding: Binding): Result<World, Error> {
    if binding.user.Some? then Err(Invalid)
    else if key !in w.keys || w.keys[key].workspace != workspace || w.keys[key].user.Some? then Err(NoSuchRule)
    else Ok(w.(keys := w.keys[key := w.keys[key].(binding := binding, live := true, generation := w.keys[key].generation + 1)]))
  }

  function RevokeKey(w: World, workspace: Id, key: Id): Result<World, Error> {
    if !LiveHere(w, workspace, key) then Err(NoSuchRule)
    else Ok(w.(keys := w.keys[key := Revoked(w.keys[key])]))
  }

  // ---- Runs --------------------------------------------------------------------------------------

  datatype Op =
    | DoCreate(workspace: Id, id: Id, input: NewRule)
    | DoSetCredential(id: Id, seen: Rule, header: Option<Header>, credential: Option<Id>)
    | DoSetOwner(id: Id, seen: Rule, owner: Owner, header: Option<Header>)
    | DoSetOnBehalfOf(id: Id, seen: Rule, on: bool)
    | DoDelete(id: Id, workspace: Id)
    | DoConnect(id: Id, seen: Rule, user: Id, key: Id, binding: Binding)
    | DoDisconnect(id: Id, workspace: Id, user: Id)
    | DoLeave(workspace: Id, user: Id)
    | DoStoreKey(workspace: Id, key: Id, binding: Binding)
    | DoRotate(workspace: Id, key: Id, binding: Binding)
    | DoRevokeKey(workspace: Id, key: Id)

  function Outcome(w: World, op: Op): Result<World, Error> {
    match op
    case DoCreate(workspace, id, input) => Create(w, workspace, id, input)
    case DoSetCredential(id, seen, header, credential) => SetCredential(w, id, seen, header, credential)
    case DoSetOwner(id, seen, owner, header) => SetOwner(w, id, seen, owner, header)
    case DoSetOnBehalfOf(id, seen, on) => SetOnBehalfOf(w, id, seen, on)
    case DoDelete(id, workspace) => Delete(w, id, workspace)
    case DoConnect(id, seen, user, key, binding) => Connect(w, id, seen, user, key, binding)
    case DoDisconnect(id, workspace, user) => Ok(Disconnect(w, id, workspace, user))
    case DoLeave(workspace, user) => Ok(Leave(w, workspace, user))
    case DoStoreKey(workspace, key, binding) => StoreKey(w, workspace, key, binding)
    case DoRotate(workspace, key, binding) => Rotate(w, workspace, key, binding)
    case DoRevokeKey(workspace, key) => RevokeKey(w, workspace, key)
  }

  /** A refused operation changes nothing. */
  function Apply(w: World, op: Op): World {
    match Outcome(w, op)
    case Ok(after) => after
    case Err(_) => w
  }

  /** What an operation read may be out of date, but its workspace, host and
      environment are those of the rule: no operation changes them. */
  predicate SeenOnce(w: World, id: Id, seen: Rule) {
    id in w.rules ==>
      var now := w.rules[id];
      seen.workspace == now.workspace && seen.host == now.host && seen.env == now.env && seen.exchange == now.exchange
  }

  predicate ReadOnce(w: World, op: Op) {
    match op
    case DoSetCredential(id, seen, _, _) => SeenOnce(w, id, seen)
    case DoSetOwner(id, seen, _, _) => SeenOnce(w, id, seen)
    case DoSetOnBehalfOf(id, seen, _) => SeenOnce(w, id, seen)
    case DoConnect(id, seen, _, _, _) => SeenOnce(w, id, seen)
    case _ => true
  }

  predicate ReadNow(w: World, op: Op) {
    match op
    case DoSetCredential(id, seen, _, _) => id in w.rules && seen == w.rules[id]
    case DoSetOwner(id, seen, _, _) => id in w.rules && seen == w.rules[id]
    case DoSetOnBehalfOf(id, seen, _) => id in w.rules && seen == w.rules[id]
    case DoConnect(id, seen, _, _, _) => id in w.rules && seen == w.rules[id]
    case _ => true
  }

  // ---- Every rule means what it says ----------------------------------------------------------

  predicate RuleOk(r: Rule) {
    && RowAllowed(r)
    && (r.owner.Asker? ==> r.header.Some? && !r.env && !r.exchange && !r.host.wildcard && !r.onBehalfOf)
    && (r.credential.Some? ==> r.header.Some? && !r.host.wildcard)
    && (r.onBehalfOf ==> r.owner.Agent? && Carries(r) && !r.host.wildcard)
  }

  predicate RulesOk(w: World) {
    forall i :: i in w.rules ==> RuleOk(w.rules[i])
  }

  /** Kept by every operation, whatever ran between what it read and what it wrote. */
  lemma RulesStayOk(w: World, op: Op)
    requires RulesOk(w) && ReadOnce(w, op)
    ensures RulesOk(Apply(w, op))
  {
    var after := Apply(w, op);
    forall i | i in after.rules ensures RuleOk(after.rules[i]) {
      if i in w.rules { assert RuleOk(w.rules[i]); }
    }
  }

  /** What a reader relies on stays so: no operation changes a rule's workspace,
      host or environment, and what was read once is still read once. */
  lemma WhatIsReadOnceStays(w: World, op: Op, id: Id, seen: Rule)
    requires SeenOnce(w, id, seen) && id in w.rules
    ensures SeenOnce(Apply(w, op), id, seen)
  {
  }

  /** Read and written in one, an operation is refused by the table itself in one
      case: making an agent's rule of one that is an agent's already and takes its
      value from the environment, which would leave the variable without a header. */
  lemma TheTableRefusesIff(w: World, op: Op)
    requires RulesOk(w) && ReadNow(w, op) && (op.DoCreate? ==> op.id !in w.rules)
    ensures Outcome(w, op) == Err(Database) <==> op.DoSetOwner? && op.owner.Agent? && op.seen.env
  {
    match op
    case DoSetCredential(id, seen, _, _) => assert RuleOk(w.rules[id]);
    case DoSetOwner(id, seen, _, _) => assert RuleOk(w.rules[id]);
    case DoSetOnBehalfOf(id, seen, _) => assert RuleOk(w.rules[id]);
    case _ =>
  }

  // ---- What an operation comes to ---------------------------------------------------------------

  /** The workspace has the credential, live, and it is sealed to go there and for
      nobody's own turn. */
  predicate MayCarry(w: World, workspace: Id, host: Host, header: Header, key: Id) {
    key in w.keys && w.keys[key].live && w.keys[key].workspace == workspace &&
    workspace in w.keys[key].binding.workspaces && host.name in w.keys[key].binding.hosts &&
    w.keys[key].binding.header == header.name && w.keys[key].binding.user == None
  }

  /** A rule is made if and only if it would mean what it says, in a header that may be
      used, with a credential that may go there, to a host the workspace has no rule
      for; and it is made enabled, saying nobody's name. */
  lemma ARuleIsMadeIff(w: World, workspace: Id, id: Id, input: NewRule)
    requires id !in w.rules
    ensures var r := Rule(workspace, input.host, input.header, input.env, input.exchange, input.credential, input.owner, false, true);
            && (Create(w, workspace, id, input).Ok? <==>
                  && input.vetted && RuleOk(r) && (input.header.Some? ==> input.header.value.allowed)
                  && (input.credential.Some? ==> MayCarry(w, workspace, input.host, input.header.value, input.credential.value))
                  && forall i :: i in w.rules ==> w.rules[i].workspace != workspace || w.rules[i].host != input.host)
            && (Create(w, workspace, id, input).Ok? ==> Create(w, workspace, id, input).value == w.(rules := w.rules[id := r]))
            && (Create(w, workspace, id, input).Err? ==>
                  Create(w, workspace, id, input).error ==
                    if input.vetted && RuleOk(r) && (input.header.Some? ==> input.header.value.allowed)
                       && (input.credential.Some? ==> MayCarry(w, workspace, input.host, input.header.value, input.credential.value))
                    then Duplicate else Invalid)
  {
  }

  /** Read and written in one, a credential is put on a rule, or off it, if and only if
      the rule would then mean what it says, and takes its value from nowhere else; of
      one that is each person's the header stays. */
  lemma ACredentialIsSetIff(w: World, id: Id, header: Option<Header>, key: Option<Id>)
    requires RulesOk(w) && id in w.rules
    ensures var now, done := w.rules[id], SetCredential(w, id, w.rules[id], header, key);
            var r := now.(header := header, credential := key, onBehalfOf := now.onBehalfOf && key.Some?);
            && (done.Ok? <==>
                  && !now.env && !now.exchange && RuleOk(r) && (now.owner.Asker? ==> header == now.header)
                  && (key.Some? ==> header.value.allowed && MayCarry(w, now.workspace, now.host, header.value, key.value)))
            && (done.Ok? ==> done.value == w.(rules := w.rules[id := r]))
  {
    assert RuleOk(w.rules[id]);
  }

  /** A rule is made each person's in the header asked for or the one it has. */
  lemma AnOwnerIsSetIff(w: World, id: Id, header: Option<Header>)
    requires RulesOk(w) && id in w.rules
    ensures var now, done := w.rules[id], SetOwner(w, id, w.rules[id], Asker, header);
            var h := if header.Some? then header else now.header;
            && (done.Ok? <==>
                  && h.Some? && h.value.allowed && !now.env && !now.exchange && !now.host.wildcard
                  && (now.owner.Asker? && header.Some? ==> now.header.Some? && now.header.value.name == header.value.name)
                  && (now.credential.Some? && now.credential.value in w.keys && w.keys[now.credential.value].live &&
                      w.keys[now.credential.value].workspace == now.workspace ==>
                        MayCarry(w, now.workspace, now.host, h.value, now.credential.value)))
            && (done.Ok? ==> done.value == w.(rules := w.rules[id := now.(owner := Asker, header := h, onBehalfOf := false)]))
  {
    assert RuleOk(w.rules[id]);
  }

  /** And the agent's again, the header with it unless a credential needs it; the keys
      people connected for it are revoked, and no other. */
  lemma AnOwnerIsTakenBack(w: World, id: Id, header: Option<Header>)
    requires RulesOk(w) && id in w.rules
    ensures var now, done := w.rules[id], SetOwner(w, id, w.rules[id], Agent, header);
            && (done.Ok? <==> !now.env)
            && (done.Ok? ==>
                  && done.value.rules == w.rules[id := now.(owner := Agent, header := if now.credential.Some? then now.header else None)]
                  && done.value.keys.Keys == w.keys.Keys
                  && forall k :: k in w.keys ==>
                       var was := w.keys[k];
                       done.value.keys[k] ==
                         if was.live && was.user.Some? && was.rule == id && was.workspace == now.workspace
                         then was.(live := false, generation := was.generation + 1) else was)
  {
    assert RuleOk(w.rules[id]);
  }

  /** Saying who is asking is for an agent's rule to one host that carries something. */
  lemma AskingIsSaidIff(w: World, id: Id, on: bool)
    requires RulesOk(w) && id in w.rules
    ensures var now, done := w.rules[id], SetOnBehalfOf(w, id, w.rules[id], on);
            && (done.Ok? <==> (on ==> now.owner.Agent? && !now.host.wildcard && (now.env || now.exchange || now.credential.Some?)))
            && (done.Ok? ==> done.value == w.(rules := w.rules[id := now.(onBehalfOf := on)]))
  {
    assert RuleOk(w.rules[id]);
  }

  /** A person's key is stored if and only if the rule is each person's, and the key is
      sealed for that workspace alone, for its host and header and for them; any they
      had connected for it is revoked, and nobody else's. */
  lemma AKeyIsStoredIff(w: World, id: Id, user: Id, key: Id, binding: Binding)
    requires RulesOk(w) && id in w.rules
    ensures var now, done := w.rules[id], Connect(w, id, w.rules[id], user, key, binding);
            && (done.Ok? <==>
                  && now.owner.Asker? && key !in w.keys && binding.workspaces == {now.workspace}
                  && now.host.name in binding.hosts && binding.header == now.header.value.name && binding.user == Some(user))
            && (done.Err? ==> done.error == if now.owner.Agent? then NoSuchRule
                                            else if binding.workspaces == {now.workspace} && now.host.name in binding.hosts
                                                    && binding.header == now.header.value.name && binding.user == Some(user)
                                            then Duplicate else Invalid)
            && (done.Ok? ==>
                  && done.value.rules == w.rules && done.value.keys.Keys == w.keys.Keys + {key}
                  && done.value.keys[key] == Credential(now.workspace, binding, true, 1, Some(user), id)
                  && forall k :: k in w.keys ==>
                       var was := w.keys[k];
                       done.value.keys[k] == if was.live && was.user == Some(user) && was.rule == id
                                             then was.(live := false, generation := was.generation + 1) else was)
  {
    assert RuleOk(w.rules[id]);
  }

  /** Which keys an operation on keys revokes: one person's for one rule; all of a
      person's in a workspace they leave; the one of the workspace's that is named. */
  lemma WhatIsRevoked(w: World, workspace: Id, id: Id, user: Id, k: Id)
    requires k in w.keys
    ensures var was := w.keys[k];
            var gone := was.(live := false, generation := was.generation + 1);
            && Disconnect(w, id, workspace, user).keys.Keys == Leave(w, workspace, user).keys.Keys == w.keys.Keys
            && Disconnect(w, id, workspace, user).rules == Leave(w, workspace, user).rules == w.rules
            && Disconnect(w, id, workspace, user).keys[k] ==
                 (if was.live && was.user == Some(user) && was.rule == id && was.workspace == workspace then gone else was)
            && Leave(w, workspace, user).keys[k] ==
                 (if was.live && was.user == Some(user) && was.workspace == workspace then gone else was)
            && (RevokeKey(w, workspace, k).Ok? <==> was.live && was.workspace == workspace)
            && (RevokeKey(w, workspace, k).Ok? ==> RevokeKey(w, workspace, k).value == w.(keys := w.keys[k := gone]))
  {
  }

  /** The workspace's own keys, which are nobody's: stored new, or put in place of what
      one was; and a rule removed, with the keys people connected for it and no other. */
  lemma KeysOfTheWorkspace(w: World, workspace: Id, id: Id, key: Id, binding: Binding)
    ensures var stored, rotated := StoreKey(w, workspace, key, binding), Rotate(w, workspace, key, binding);
            && (stored.Ok? <==> binding.user.None? && key !in w.keys)
            && (stored.Ok? ==> stored.value == w.(keys := w.keys[key := Credential(workspace, binding, true, 1, None, 0)]))
            && (rotated.Ok? <==> binding.user.None? && key in w.keys && w.keys[key].workspace == workspace && w.keys[key].user.None?)
            && (rotated.Ok? ==>
                  var was := w.keys[key];
                  rotated.value == w.(keys := w.keys[key := was.(binding := binding, live := true, generation := was.generation + 1)]))
    ensures var removed := Delete(w, id, workspace);
            && (removed.Ok? <==> id in w.rules && w.rules[id].workspace == workspace)
            && (removed.Ok? ==>
                  && removed.value.rules == w.rules - {id}
                  && forall k :: (k in removed.value.keys <==> k in w.keys && !(w.keys[k].user.Some? && w.keys[k].rule == id))
                                 && (k in removed.value.keys ==> removed.value.keys[k] == w.keys[k]))
  {
  }

  // ---- A person's key is theirs, for one rule -----------------------------------------------

  /** A live key of a person's own: connected for an asker's rule, sealed for its
      host and header and for them. */
  predicate KeyOk(w: World, k: Credential) {
    && k.user == k.binding.user
    && (k.live && k.user.Some? ==>
          && k.rule in w.rules && w.rules[k.rule].owner.Asker? && w.rules[k.rule].header.Some?
          && w.rules[k.rule].workspace == k.workspace
          && Attaches(k.binding, k.workspace, w.rules[k.rule].host, w.rules[k.rule].header.value, k.user))
  }

  /** The credential a rule names is the workspace's own. */
  predicate NamesNobodys(w: World, r: Rule) {
    r.credential.Some? ==> r.credential.value in w.keys && w.keys[r.credential.value].user.None?
  }

  predicate OneEach(w: World, a: Id, b: Id) {
    (&& a in w.keys && b in w.keys && w.keys[a].live && w.keys[b].live
     && w.keys[a].user.Some? && w.keys[a].user == w.keys[b].user && w.keys[a].rule == w.keys[b].rule) ==> a == b
  }

  ghost predicate KeysOk(w: World) {
    && (forall k :: k in w.keys ==> KeyOk(w, w.keys[k]))
    && (forall i :: i in w.rules ==> NamesNobodys(w, w.rules[i]))
    && (forall a, b :: OneEach(w, a, b))
  }

  /** Somebody has a key connected for the rule. */
  ghost predicate Connected(w: World, id: Id) {
    exists k :: k in w.keys && w.keys[k].live && w.keys[k].user.Some? && w.keys[k].rule == id
  }

  /** An operation that succeeds, and on what it read too early leaves a live key
      with nothing to travel in: it gives another header to a rule that is each
      person's by now and that somebody connected a key for, or it stores a key for
      a rule that is no longer each person's with the header it was sealed for. */
  ghost predicate Strands(w: World, op: Op) {
    && Outcome(w, op).Ok?
    && match op
       case DoSetCredential(id, _, header, _) =>
         id in w.rules && w.rules[id].owner.Asker? && Connected(w, id) && header.Some? && !SameHeader(w.rules[id].header, header.value)
       case DoSetOwner(id, seen, Asker, header) =>
         && id in w.rules && w.rules[id].owner.Asker? && Connected(w, id)
         && var h := AskersHeader(w, seen, header);
            h.Some? && !SameHeader(w.rules[id].header, h.value)
       case DoConnect(id, seen, _, _, _) =>
         && id in w.rules && seen.header.Some?
         && !(w.rules[id].owner.Asker? && SameHeader(w.rules[id].header, seen.header.value))
       case _ => false
  }

  lemma KeyOkAfterSetCredential(w: World, id: Id, seen: Rule, header: Option<Header>, credential: Option<Id>, k: Id)
    requires RulesOk(w) && KeysOk(w) && SeenOnce(w, id, seen) && k in w.keys
    requires !Strands(w, DoSetCredential(id, seen, header, credential))
    ensures KeyOk(Apply(w, DoSetCredential(id, seen, header, credential)), w.keys[k])
  {
    assert KeyOk(w, w.keys[k]);
    if id in w.rules { assert RuleOk(w.rules[id]); }
  }

  lemma KeyOkAfterSetOwner(w: World, id: Id, seen: Rule, owner: Owner, header: Option<Header>, k: Id)
    requires RulesOk(w) && KeysOk(w) && SeenOnce(w, id, seen) && k in w.keys
    requires !Strands(w, DoSetOwner(id, seen, owner, header))
    ensures var after := Apply(w, DoSetOwner(id, seen, owner, header));
            k in after.keys && KeyOk(after, after.keys[k])
  {
    assert KeyOk(w, w.keys[k]);
    if id in w.rules { assert RuleOk(w.rules[id]); }
  }

  lemma KeyOkAfterConnect(w: World, id: Id, seen: Rule, user: Id, key: Id, binding: Binding, k: Id)
    requires RulesOk(w) && KeysOk(w) && SeenOnce(w, id, seen)
    requires !Strands(w, DoConnect(id, seen, user, key, binding))
    ensures var after := Apply(w, DoConnect(id, seen, user, key, binding));
            k in after.keys ==> KeyOk(after, after.keys[k])
  {
    if k in w.keys { assert KeyOk(w, w.keys[k]); }
    if id in w.rules { assert RuleOk(w.rules[id]); }
  }

  lemma KeyOkAfterAnother(w: World, op: Op, k: Id)
    requires KeysOk(w) && !op.DoSetCredential? && !op.DoSetOwner? && !op.DoConnect? && k in Apply(w, op).keys
    ensures KeyOk(Apply(w, op), Apply(w, op).keys[k])
  {
    if k in w.keys { assert KeyOk(w, w.keys[k]); }
  }

  lemma KeysStayTheirs(w: World, op: Op)
    requires RulesOk(w) && KeysOk(w) && ReadOnce(w, op) && !Strands(w, op)
    ensures forall k :: k in Apply(w, op).keys ==> KeyOk(Apply(w, op), Apply(w, op).keys[k])
  {
    hide Outcome, Strands, KeyOk;
    forall k | k in Apply(w, op).keys ensures KeyOk(Apply(w, op), Apply(w, op).keys[k]) {
      KeyStaysTheirs(w, op, k);
    }
  }

  lemma KeyStaysTheirs(w: World, op: Op, k: Id)
    requires RulesOk(w) && KeysOk(w) && ReadOnce(w, op) && !Strands(w, op) && k in Apply(w, op).keys
    ensures KeyOk(Apply(w, op), Apply(w, op).keys[k])
  {
    hide Strands, KeyOk, RulesOk, KeysOk, AskersHeader, MaySetCredential;
    match op
    case DoSetCredential(id, seen, header, credential) => KeyOkAfterSetCredential(w, id, seen, header, credential, k);
    case DoSetOwner(id, seen, owner, header) => KeyOkAfterSetOwner(w, id, seen, owner, header, k);
    case DoConnect(id, seen, user, key, binding) => KeyOkAfterConnect(w, id, seen, user, key, binding, k);
    case _ => KeyOkAfterAnother(w, op, k);
  }

  lemma RulesNameNobodys(w: World, op: Op)
    requires RulesOk(w) && KeysOk(w) && ReadOnce(w, op)
    ensures forall i :: i in Apply(w, op).rules ==> NamesNobodys(Apply(w, op), Apply(w, op).rules[i])
  {
    var after := Apply(w, op);
    forall i | i in after.rules ensures NamesNobodys(after, after.rules[i]) {
      if i in w.rules { assert NamesNobodys(w, w.rules[i]); }
      forall k | k in w.keys ensures KeyOk(w, w.keys[k]) {}
    }
  }

  lemma OneEachStill(w: World, op: Op)
    requires KeysOk(w)
    ensures forall a, b :: OneEach(Apply(w, op), a, b)
  {
    var after := Apply(w, op);
    forall a, b ensures OneEach(after, a, b) {
      assert OneEach(w, a, b);
    }
  }

  lemma AStrandedKey(w: World, op: Op)
    requires RulesOk(w) && KeysOk(w) && ReadOnce(w, op) && Strands(w, op)
    ensures !KeysOk(Apply(w, op))
  {
    var after := Apply(w, op);
    match op
    case DoConnect(id, seen, user, key, binding) =>
      assert RuleOk(w.rules[id]);
      assert !KeyOk(after, after.keys[key]);
    case DoSetCredential(id, _, header, _) =>
      var k :| k in w.keys && w.keys[k].live && w.keys[k].user.Some? && w.keys[k].rule == id;
      assert KeyOk(w, w.keys[k]) && !KeyOk(after, after.keys[k]);
    case DoSetOwner(id, seen, _, header) =>
      var k :| k in w.keys && w.keys[k].live && w.keys[k].user.Some? && w.keys[k].rule == id;
      assert KeyOk(w, w.keys[k]) && !KeyOk(after, after.keys[k]);
  }

  /** The main claim. Whatever ran between what an operation read and what it
      wrote, it keeps every live key its owner's, sealed for its rule, one for each
      person and rule, if and only if it strands none. */
  lemma KeysStayOkIff(w: World, op: Op)
    requires RulesOk(w) && KeysOk(w) && ReadOnce(w, op)
    ensures KeysOk(Apply(w, op)) <==> !Strands(w, op)
  {
    hide Outcome, Strands;
    if Strands(w, op) {
      AStrandedKey(w, op);
    } else {
      KeysStayTheirs(w, op);
      RulesNameNobodys(w, op);
      OneEachStill(w, op);
    }
  }

  /** Read and written in one, no operation strands a key. */
  lemma NothingStrandsInOne(w: World, op: Op)
    requires RulesOk(w) && KeysOk(w) && ReadNow(w, op)
    ensures !Strands(w, op) && KeysOk(Apply(w, op))
  {
    assert ReadOnce(w, op);
    KeysStayOkIff(w, op);
  }

  /** A run whose operations each read something once true of the rule. */
  predicate Runs(w: World, ops: seq<Op>)
    decreases |ops|
  {
    ops == [] || (ReadOnce(w, ops[0]) && Runs(Apply(w, ops[0]), ops[1..]))
  }

  /** No operation of a run strands a key. */
  ghost predicate StrandsNowhere(w: World, ops: seq<Op>)
    decreases |ops|
  {
    ops == [] || (!Strands(w, ops[0]) && StrandsNowhere(Apply(w, ops[0]), ops[1..]))
  }

  ghost predicate KeysOkThroughout(w: World, ops: seq<Op>)
    decreases |ops|
  {
    KeysOk(w) && (ops == [] || KeysOkThroughout(Apply(w, ops[0]), ops[1..]))
  }

  function After(w: World, ops: seq<Op>): World
    decreases |ops|
  {
    if ops == [] then w else After(Apply(w, ops[0]), ops[1..])
  }

  lemma {:induction false} RulesAreAlwaysOk(w: World, ops: seq<Op>)
    requires RulesOk(w) && Runs(w, ops)
    ensures RulesOk(After(w, ops))
    decreases |ops|
  {
    if ops != [] {
      RulesStayOk(w, ops[0]);
      RulesAreAlwaysOk(Apply(w, ops[0]), ops[1..]);
    }
  }

  /** Over every run, stale reads and all: the keys are their owners' throughout
      if and only if no operation strands one. */
  lemma {:induction false} KeysAreAlwaysTheirsIff(w: World, ops: seq<Op>)
    requires RulesOk(w) && KeysOk(w) && Runs(w, ops)
    ensures KeysOkThroughout(w, ops) <==> StrandsNowhere(w, ops)
    decreases |ops|
  {
    if ops != [] {
      RulesStayOk(w, ops[0]);
      KeysStayOkIff(w, ops[0]);
      if !Strands(w, ops[0]) {
        KeysAreAlwaysTheirsIff(Apply(w, ops[0]), ops[1..]);
      }
    }
  }

  // ---- The rules a turn is given --------------------------------------------------------------

  /** A rule as the gateway gets it: which credential, and whose turn. */
  datatype Resolved = Resolved(rule: Rule, credential: Option<Id>, asker: Option<Id>)

  predicate Own(w: World, rule: Id, person: Id, key: Id) {
    key in w.keys && w.keys[key].live && Mine(w.keys[key], rule, person)
  }

  ghost function OwnKey(w: World, rule: Id, person: Id): (key: Option<Id>)
    ensures key.Some? ==> Own(w, rule, person, key.value)
    ensures key.None? ==> forall k: Id :: !Own(w, rule, person, k)
  {
    if k: Id :| Own(w, rule, person, k) then Some(k) else None
  }

  ghost function Resolve(w: World, id: Id, r: Rule, asker: Option<Id>): Option<Resolved> {
    match (r.owner, asker)
    case (Agent, _) => Some(Resolved(r, r.credential, None))
    case (Asker, Some(person)) => Some(Resolved(r, OwnKey(w, id, person), Some(person)))
    case (Asker, None) => if r.credential.Some? then Some(Resolved(r, r.credential, None)) else None
  }

  ghost function RulesForTurn(w: World, workspace: Id, asker: Option<Id>): map<Id, Resolved> {
    map i | i in w.rules && w.rules[i].workspace == workspace && w.rules[i].enabled && Resolve(w, i, w.rules[i], asker).Some?
      :: Resolve(w, i, w.rules[i], asker).value
  }

  /** Which rules a turn is given, whoever sent it: those of its workspace that are
      enabled, but for a rule that is each person's and names no credential of the
      workspace's, on a turn nobody sent. An agent's rule is given as it is, and one
      that is each person's as theirs whose turn it is. */
  lemma ATurnIsGivenIff(w: World, workspace: Id, asker: Option<Id>, id: Id)
    ensures id in RulesForTurn(w, workspace, asker) <==>
              && id in w.rules && w.rules[id].workspace == workspace && w.rules[id].enabled
              && (w.rules[id].owner.Agent? || asker.Some? || w.rules[id].credential.Some?)
    ensures id in RulesForTurn(w, workspace, asker) ==>
              var resolved, r := RulesForTurn(w, workspace, asker)[id], w.rules[id];
              && resolved.rule == r
              && (r.owner.Agent? || asker.None? ==> resolved.credential == r.credential && resolved.asker.None?)
              && (r.owner.Asker? && asker.Some? ==> resolved.asker == asker)
  {
  }

  /** No turn carries another person's key: what a rule resolves to is the
      workspace's own credential, or the one live key of the person whose turn it
      is, connected for that rule and sealed for its host and header. */
  lemma ATurnCarriesItsAskersKeys(w: World, workspace: Id, asker: Option<Id>, id: Id)
    requires RulesOk(w) && KeysOk(w) && id in RulesForTurn(w, workspace, asker)
    ensures var resolved := RulesForTurn(w, workspace, asker)[id];
            && (resolved.credential.Some? ==>
                  resolved.credential.value in w.keys &&
                  var key := w.keys[resolved.credential.value];
                  key.user.None? || (&& key.user == asker == resolved.asker && key.live && key.rule == id && key.workspace == workspace
                                     && Attaches(key.binding, workspace, resolved.rule.host, resolved.rule.header.value, asker)))
            && (resolved.rule.owner.Asker? && asker.Some? ==>
                  forall k: Id :: Own(w, id, asker.value, k) <==> resolved.credential == Some(k))
  {
    var r := w.rules[id];
    assert RuleOk(r) && NamesNobodys(w, r);
    if r.owner.Asker? && asker.Some? {
      var own := OwnKey(w, id, asker.value);
      if own.Some? {
        assert KeyOk(w, w.keys[own.value]);
        forall k: Id ensures Own(w, id, asker.value, k) <==> own == Some(k) {
          assert OneEach(w, k, own.value);
        }
      }
    }
  }

  /** A turn nobody sent reaches a host that is each person's own exactly where
      the workspace keeps a credential for it, and then as the workspace. */
  lemma ATurnNobodySent(w: World, workspace: Id, id: Id)
    requires RulesOk(w) && KeysOk(w) && id in w.rules && w.rules[id].workspace == workspace && w.rules[id].enabled
    ensures id in RulesForTurn(w, workspace, None) <==> w.rules[id].owner.Agent? || w.rules[id].credential.Some?
    ensures id in RulesForTurn(w, workspace, None) ==>
              var resolved := RulesForTurn(w, workspace, None)[id];
              resolved.asker.None? && (resolved.credential.Some? ==> w.keys[resolved.credential.value].user.None?)
  {
    assert NamesNobodys(w, w.rules[id]);
  }

  /** Giving a rule back to the agent revokes every key connected for it, and no
      other key changes. */
  lemma BackToTheAgentRevokesAll(w: World, id: Id, header: Option<Header>, key: Id)
    requires RulesOk(w) && KeysOk(w) && id in w.rules && key in w.keys && SetOwner(w, id, w.rules[id], Agent, header).Ok?
    ensures var after := SetOwner(w, id, w.rules[id], Agent, header).value;
            && (after.keys[key].live <==> w.keys[key].live && !(w.keys[key].user.Some? && w.keys[key].rule == id))
            && w.keys[key].generation <= after.keys[key].generation
            && (after.keys[key].live != w.keys[key].live ==> w.keys[key].generation < after.keys[key].generation)
            && forall person: Id :: OwnKey(after, id, person).None?
  {
    var after := SetOwner(w, id, w.rules[id], Agent, header).value;
    assert KeyOk(w, w.keys[key]);
    forall person: Id, k: Id ensures !Own(after, id, person, k) {
      if k in w.keys { assert KeyOk(w, w.keys[k]); }
    }
  }

  /** A key's seal never changes, nor comes to life or is wiped, without its
      generation growing: what the gateway holds of it is told apart. */
  lemma GenerationsTellKeysApart(w: World, op: Op, key: Id)
    requires key in w.keys && key in Apply(w, op).keys
    ensures var was, now := w.keys[key], Apply(w, op).keys[key];
            was == now || (was.generation < now.generation && was.user == now.user && was.rule == now.rule)
  {
  }

  // ---- Operations on what was read too early -------------------------------------------------

  /** An agent's rule somebody read, and what others then made of it: each
      person's, in header A, with a key connected for it. The workspace keeps a
      credential of its own, sealed for header B. */
  const ASKED_IN_A := Rule(1, Host(1, false), Some(Header(1, 1, true)), false, false, None, Asker, false, true)
  const READ_EARLIER := Rule(1, Host(1, false), None, false, false, None, Agent, false, true)
  const OWN_KEY := Credential(1, Binding({1}, {1}, 2, None), true, 1, None, 0)
  const KEY_IN_A := Binding({1}, {1}, 1, Some(5))
  const HEADER_B := Header(2, 2, true)

  function ConnectedSince(): World {
    World(map[7 := ASKED_IN_A], map[8 := OWN_KEY, 9 := Credential(1, KEY_IN_A, true, 1, Some(5), 7)])
  }

  lemma HowItWasConnected()
    ensures var first := World(map[7 := READ_EARLIER], map[8 := OWN_KEY]);
            var asked := SetOwner(first, 7, READ_EARLIER, Asker, ASKED_IN_A.header);
            && RulesOk(first) && KeysOk(first)
            && asked == Ok(first.(rules := map[7 := ASKED_IN_A]))
            && Connect(asked.value, 7, ASKED_IN_A, 5, 9, KEY_IN_A) == Ok(ConnectedSince())
    ensures RulesOk(ConnectedSince()) && KeysOk(ConnectedSince()) && SeenOnce(ConnectedSince(), 7, READ_EARLIER)
  {
    var first := World(map[7 := READ_EARLIER], map[8 := OWN_KEY]);
    assert SetOwner(first, 7, READ_EARLIER, Asker, ASKED_IN_A.header).value.rules == map[7 := ASKED_IN_A];
    var asked := first.(rules := map[7 := ASKED_IN_A]);
    assert RevokeAll(asked.keys, (k: Credential) => Mine(k, 7, 5)) == asked.keys;
    assert ConnectedSince().keys == asked.keys[9 := Credential(1, KEY_IN_A, true, 1, Some(5), 7)];
  }

  /** A credential put on a rule read while it was the agent's: the header is
      replaced, and the key connected since stays live and attaches no more. */
  lemma ACredentialSetLateStrands()
    ensures var op := DoSetCredential(7, READ_EARLIER, Some(HEADER_B), Some(8));
            ReadOnce(ConnectedSince(), op) && Strands(ConnectedSince(), op) && !KeysOk(Apply(ConnectedSince(), op))
  {
    HowItWasConnected();
    assert ConnectedSince().keys[9].live;
    KeysStayOkIff(ConnectedSince(), DoSetCredential(7, READ_EARLIER, Some(HEADER_B), Some(8)));
  }

  /** A rule made each person's in header B, read while it was the agent's: the
      same. */
  lemma AnOwnerSetLateStrands()
    ensures var op := DoSetOwner(7, READ_EARLIER, Asker, Some(HEADER_B));
            ReadOnce(ConnectedSince(), op) && Strands(ConnectedSince(), op) && !KeysOk(Apply(ConnectedSince(), op))
  {
    HowItWasConnected();
    assert ConnectedSince().keys[9].live;
    KeysStayOkIff(ConnectedSince(), DoSetOwner(7, READ_EARLIER, Asker, Some(HEADER_B)));
  }

  /** A key stored for a rule read while it was each person's, and given back to
      the agent since: live, on a rule nobody's key is for. */
  lemma AKeyStoredLateStrands()
    ensures var back := SetOwner(World(map[7 := ASKED_IN_A], map[]), 7, ASKED_IN_A, Agent, None);
            var op := DoConnect(7, ASKED_IN_A, 5, 9, KEY_IN_A);
            && back.Ok? && RulesOk(back.value) && KeysOk(back.value)
            && ReadOnce(back.value, op) && Strands(back.value, op) && !KeysOk(Apply(back.value, op))
  {
    var back := SetOwner(World(map[7 := ASKED_IN_A], map[]), 7, ASKED_IN_A, Agent, None).value;
    KeysStayOkIff(back, DoConnect(7, ASKED_IN_A, 5, 9, KEY_IN_A));
  }

  // ---- The store ----------------------------------------------------------------------------------

  /** The two tables. A handler reads a rule with `ReadRule` and writes with another
      method, given what it read; anything may run between the two. */
  class EgressStore {
    var rules: map<Id, Rule>
    var keys: map<Id, Credential>

    ghost function Now(): World
      reads this
    {
      World(rules, keys)
    }

    ghost predicate Valid()
      reads this
    {
      RulesOk(Now())
    }

    constructor ()
      ensures Valid() && Now() == World(map[], map[])
    {
      rules, keys := map[], map[];
    }

    method ReadRule(workspace: Id, id: Id) returns (row: Option<Rule>)
      ensures row == if id in rules && rules[id].workspace == workspace then Some(rules[id]) else None
    {
      if id !in rules || rules[id].workspace != workspace {
        return None;
      }
      return Some(rules[id]);
    }

    method Create(workspace: Id, id: Id, input: NewRule) returns (error: Option<Error>)
      requires Valid() && id !in rules
      modifies this`rules
      ensures Valid() && Now() == Apply(old(Now()), DoCreate(workspace, id, input))
      ensures error == Why(Outcome(old(Now()), DoCreate(workspace, id, input)))
      ensures old(KeysOk(Now())) ==> KeysOk(Now())
    {
      ghost var op := DoCreate(workspace, id, input);
      RulesStayOk(Now(), op);
      TheTableRefusesIff(Now(), op);
      if KeysOk(Now()) { KeysStayOkIff(Now(), op); }
      if !MayCreate(World(rules, keys), workspace, input) {
        return Some(Invalid);
      }
      if Taken(World(rules, keys), workspace, input.host) {
        return Some(Duplicate);
      }
      rules := rules[id := Rule(workspace, input.host, input.header, input.env, input.exchange, input.credential,
                                input.owner, false, true)];
      return None;
    }

    method SetCredential(id: Id, seen: Rule, header: Option<Header>, key: Option<Id>) returns (error: Option<Error>)
      requires Valid() && SeenOnce(Now(), id, seen)
      modifies this`rules
      ensures Valid() && Now() == Apply(old(Now()), DoSetCredential(id, seen, header, key))
      ensures error == Why(Outcome(old(Now()), DoSetCredential(id, seen, header, key)))
      ensures old(KeysOk(Now())) ==> (KeysOk(Now()) <==> !Strands(old(Now()), DoSetCredential(id, seen, header, key)))
    {
      ghost var op := DoSetCredential(id, seen, header, key);
      RulesStayOk(Now(), op);
      if KeysOk(Now()) { KeysStayOkIff(Now(), op); }
      hide Strands, KeysOk;
      if !MaySetCredential(World(rules, keys), seen.workspace, seen, header, key) {
        return Some(Invalid);
      }
      if id !in rules {
        return Some(Database);
      }
      var row := rules[id].(header := header, credential := key, onBehalfOf := rules[id].onBehalfOf && key.Some?);
      if !RowAllowed(row) {
        return Some(Database);
      }
      rules := rules[id := row];
      return None;
    }

    /** A refusal by the table rolls back the keys revoked before it. */
    method SetOwner(id: Id, seen: Rule, owner: Owner, header: Option<Header>) returns (error: Option<Error>)
      requires Valid() && SeenOnce(Now(), id, seen)
      modifies this
      ensures Valid() && Now() == Apply(old(Now()), DoSetOwner(id, seen, owner, header))
      ensures error == Why(Outcome(old(Now()), DoSetOwner(id, seen, owner, header)))
      ensures old(KeysOk(Now())) ==> (KeysOk(Now()) <==> !Strands(old(Now()), DoSetOwner(id, seen, owner, header)))
    {
      ghost var op := DoSetOwner(id, seen, owner, header);
      RulesStayOk(Now(), op);
      if KeysOk(Now()) { KeysStayOkIff(Now(), op); }
      hide Strands, KeysOk;
      match owner {
        case Asker =>
          var h := AskersHeader(World(rules, keys), seen, header);
          if h.None? {
            return Some(Invalid);
          }
          if id !in rules || !RowAllowed(rules[id].(owner := Asker, header := h, onBehalfOf := false)) {
            return Some(Database);
          }
          rules := rules[id := rules[id].(owner := Asker, header := h, onBehalfOf := false)];
        case Agent =>
          if id !in rules {
            return Some(Database);
          }
          var before := keys;
          keys := RevokeAll(keys, (k: Credential) => ConnectedFor(k, id, seen.workspace));
          var row := rules[id].(owner := Agent, header := if rules[id].credential.None? then None else rules[id].header);
          if !RowAllowed(row) {
            keys := before;
            return Some(Database);
          }
          rules := rules[id := row];
      }
      return None;
    }

    method SetOnBehalfOf(id: Id, seen: Rule, on: bool) returns (error: Option<Error>)
      requires Valid() && SeenOnce(Now(), id, seen)
      modifies this`rules
      ensures Valid() && Now() == Apply(old(Now()), DoSetOnBehalfOf(id, seen, on))
      ensures error == Why(Outcome(old(Now()), DoSetOnBehalfOf(id, seen, on)))
      ensures old(KeysOk(Now())) ==> KeysOk(Now())
    {
      ghost var op := DoSetOnBehalfOf(id, seen, on);
      RulesStayOk(Now(), op);
      if KeysOk(Now()) { KeysStayOkIff(Now(), op); }
      hide Strands, KeysOk;
      if on && (seen.owner.Asker? || !Carries(seen) || seen.host.wildcard) {
        return Some(Invalid);
      }
      if id !in rules || !(on ==> rules[id].owner.Agent? && !rules[id].host.wildcard && Carries(rules[id])) {
        return Some(Changed);
      }
      assert RuleOk(rules[id]);
      rules := rules[id := rules[id].(onBehalfOf := on)];
      return None;
    }

    method Connect(id: Id, seen: Rule, user: Id, key: Id, binding: Binding) returns (error: Option<Error>)
      requires Valid() && SeenOnce(Now(), id, seen)
      modifies this`keys
      ensures Valid() && Now() == Apply(old(Now()), DoConnect(id, seen, user, key, binding))
      ensures error == Why(Outcome(old(Now()), DoConnect(id, seen, user, key, binding)))
      ensures old(KeysOk(Now())) ==> (KeysOk(Now()) <==> !Strands(old(Now()), DoConnect(id, seen, user, key, binding)))
    {
      ghost var op := DoConnect(id, seen, user, key, binding);
      RulesStayOk(Now(), op);
      if KeysOk(Now()) { KeysStayOkIff(Now(), op); }
      hide Strands, KeysOk;
      if seen.owner.Agent? || seen.header.None? {
        return Some(NoSuchRule);
      }
      if !(binding.workspaces == {seen.workspace} && Attaches(binding, seen.workspace, seen.host, seen.header.value, Some(user))) {
        return Some(Invalid);
      }
      if id !in rules {
        return Some(Database);
      }
      if key in keys {
        return Some(Duplicate);
      }
      keys := RevokeAll(keys, (k: Credential) => Mine(k, id, user));
      keys := keys[key := Credential(seen.workspace, binding, true, 1, Some(user), id)];
      return None;
    }

    method Disconnect(workspace: Id, id: Id, user: Id) returns (found: bool)
      requires Valid()
      modifies this`keys
      ensures Valid() && Now() == Apply(old(Now()), DoDisconnect(id, workspace, user))
      ensures old(KeysOk(Now())) ==> KeysOk(Now())
      ensures found <==> exists k :: k in old(keys) && old(keys[k]).live && Mine(old(keys[k]), id, user) && old(keys[k]).workspace == workspace
    {
      ghost var op := DoDisconnect(id, workspace, user);
      RulesStayOk(Now(), op);
      if KeysOk(Now()) { KeysStayOkIff(Now(), op); }
      found := exists k :: k in keys && keys[k].live && Mine(keys[k], id, user) && keys[k].workspace == workspace;
      keys := RevokeAll(keys, (k: Credential) => Mine(k, id, user) && k.workspace == workspace);
    }
  }

  function Why(outcome: Result<World, Error>): Option<Error> {
    match outcome
    case Ok(_) => None
    case Err(e) => Some(e)
  }
}
