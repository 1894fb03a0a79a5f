/**
 * Operator requests (internal/controller/operator_session.go): every request runs
 * one controller mutation inside its key's grant.
 */
module OperatorSession {
  import opened Basics
  import opened Composition
  import opened Records
  import opened Storage
  import opened Transactions
  import opened History
  import opened Lifecycle
  import opened Grants

  datatype Reply = Denied | BadRequest | Differs | Refused | Unfinished | Absent | Made

  /** Every binding and policy outside the grant is as it was, in the store and in OpenBao. */
  ghost predicate Outside(g: Grant, d: Durable, e: Durable) {
    && (forall id | id in d.store.bindings && !g.CoversBinding(d.store.bindings[id]) ::
          SameBinding(d.store, e.store, id) && SameRole(d.bao, e.bao, d.store.bindings[id].role))
    && (forall n | !g.AllowsPolicy(n) :: SamePolicy(d.store, e.store, n))
    && (forall n | n in d.store.policies && !g.AllowsPolicy(n) ::
          SamePublication(d.bao, e.bao, d.store.policies[n].Identity()))
  }

  /** That holds at every durable write since entry `from`. */
  ghost predicate OutsideSince(g: Grant, trail: seq<Durable>, from: nat, d: Durable) {
    forall i | from <= i < |trail| :: Outside(g, d, trail[i])
  }

  lemma ConfinedIsOutside(g: Grant, d: Durable, ids: set<string>, names: set<string>, e: Durable)
    requires Confined(d, ids, names, e) && forall n | n in names :: g.AllowsPolicy(n)
    requires forall id | id in ids && id in d.store.bindings :: g.CoversBinding(d.store.bindings[id])
    ensures Outside(g, d, e)
  {
  }

  lemma ConfinedSinceIsOutside(k: Checks, g: Grant, trail: seq<Durable>, from: nat, d: Durable, ids: set<string>, names: set<string>)
    requires k.Faithful() && k.ConfinedSince(trail, from, d, ids, names) && forall n | n in names :: g.AllowsPolicy(n)
    requires forall id | id in ids && id in d.store.bindings :: g.CoversBinding(d.store.bindings[id])
    ensures OutsideSince(g, trail, from, d)
  {
    forall i | from <= i < |trail| ensures Outside(g, d, trail[i]) {
      OpenConfined(k, d, ids, names, trail[i]);
      ConfinedIsOutside(g, d, ids, names, trail[i]);
    }
  }

  // ----- Put -----

  /** The key covers every binding that selects the policy. */
  method CoversSelecting(c: Controller, g: Grant, name: string) returns (covered: bool)
    ensures covered <==> forall id | id in SelectedBy(c.store, name) :: g.CoversBinding(c.store.bindings[id])
  {
    var rest := c.store.bindings.Keys;
    while rest != {}
      invariant rest <= c.store.bindings.Keys
      invariant forall id | id in SelectedBy(c.store, name) && id !in rest :: g.CoversBinding(c.store.bindings[id])
      decreases |rest|
    {
      var id :| id in rest;
      var b := c.store.bindings[id];
      var inside := Covers(g, b.agent, b.policies);
      if b.HasPolicy(name) && !inside {
        assert id in SelectedBy(c.store, name);
        return false;
      }
      rest := rest - {id};
    }
    covered := true;
  }

  method PutPolicy(c: Controller, g: Grant, put: Put, confirmed: bool) returns (reply: Reply)
    requires c.Valid()
    modifies c
    ensures c.Valid() && old(c.trail) <= c.trail && OutsideSince(g, c.trail, old(|c.trail|), old(c.Now()))
    ensures reply == Denied ==> c.Now() == old(c.Now())
    ensures reply in {Made, Unfinished} ==> g.Can(PolicyWrite) && g.AllowsPolicy(put.name)
    ensures reply in {Made, Unfinished} ==>
              forall id | id in SelectedBy(old(c.store), put.name) :: g.CoversBinding(old(c.store).bindings[id])
    ensures reply in {Made, Unfinished} ==> put.name in c.store.policies && c.store.policies[put.name].hcl == put.hcl
    ensures c.reliable && confirmed && Puttable(c, g, old(c.store), put) ==> reply == Made
  {
    if !g.Can(PolicyWrite) || !g.AllowsPolicy(put.name) {
      return Denied;
    }
    var read := c.Succeeds();
    if !read {
      return Refused;
    }
    var covered := CoversSelecting(c, g, put.name);
    if !covered {
      return Denied;
    }
    var stored := if put.name in c.store.policies then Some(c.store.policies[put.name]) else None;
    var document := PutDocument(stored, put);
    if stored.Some? {
      StoredName(c.checks, c.Now(), put.name);
    }
    var outcome := c.SavePolicy(document, confirmed);
    ConfinedSinceIsOutside(c.checks, g, c.trail, old(|c.trail|), old(c.Now()), SelectedBy(old(c.store), put.name), {put.name});
    reply := ReplyTo(outcome);
  }

  /** The document an operator's put would save. */
  function Written(s: Store, put: Put): Policy {
    PutDocument(if put.name in s.policies then Some(s.policies[put.name]) else None, put)
  }

  /** The grant allows the put, and the document is valid and composes with every binding that selects it. */
  ghost predicate Puttable(c: Controller, g: Grant, s: Store, put: Put) {
    && g.Can(PolicyWrite) && g.AllowsPolicy(put.name)
    && (forall id | id in SelectedBy(s, put.name) :: g.CoversBinding(s.bindings[id]))
    && c.rules.valid(Written(s, put)) && c.Savable(s, Written(s, put))
  }

  function ReplyTo(outcome: Outcome): Reply {
    match outcome
    case Failed => Refused
    case Pending => Unfinished
    case Completed => Made
  }

  // ----- Bind -----

  /** The agent's binding of a container key. */
  method FindBinding(c: Controller, agent: string, key: Key) returns (found: Option<string>)
    ensures found.Some? ==> found.value in c.store.bindings
                            && c.store.bindings[found.value].agent == agent && c.store.bindings[found.value].key == key
    ensures found.None? ==>
              forall id | id in c.store.bindings :: c.store.bindings[id].agent != agent || c.store.bindings[id].key != key
  {
    var rest := c.store.bindings.Keys;
    while rest != {}
      invariant rest <= c.store.bindings.Keys
      invariant forall id | id in c.store.bindings && id !in rest ::
                  c.store.bindings[id].agent != agent || c.store.bindings[id].key != key
      decreases |rest|
    {
      var id :| id in rest;
      if c.store.bindings[id].agent == agent && c.store.bindings[id].key == key {
        return Some(id);
      }
      rest := rest - {id};
    }
    found := None;
  }

  /** Applies an existing binding if the request asks for exactly what it has. */
  method RepeatBind(c: Controller, g: Grant, id: string, names: seq<string>, settings: Settings) returns (reply: Reply)
    requires c.Valid() && id in c.store.bindings
    modifies c
    ensures c.Valid() && old(c.trail) <= c.trail && OutsideSince(g, c.trail, old(|c.trail|), old(c.Now()))
    ensures reply !in {Made, Unfinished} ==> c.Now() == old(c.Now())
    ensures SameRows(old(c.store), c.store)
    ensures reply in {Made, Unfinished} ==>
              && g.CoversBinding(old(c.store).bindings[id])
              && Resolves(c.rules, old(c.store).policies, names, settings, old(c.store).bindings[id].effective)
    ensures reply == Made ==> c.store.bindings[id].applied
    ensures c.reliable && Repeats(c, g, old(c.store), id, names, settings) ==> reply == Made
  {
    StoredIsConsistent(c.checks, c.Now(), id);
    var existing := c.store.bindings[id];
    var covered := Covers(g, existing.agent, existing.policies);
    if !covered {
      return Denied;
    }
    var e := c.Compose(names, settings, None);
    if e.None? {
      return Refused;
    }
    if e.value != existing.effective {
      return Differs;
    }
    var applied := c.ApplyBinding(existing);
    ApplyingKeeps(c.checks, old(c.Now()), {id}, c.Now());
    ApplyingRows(c.checks, old(c.Now()), {id}, c.Now());
    ApplyingSinceOutside(c.checks, g, c.trail, old(|c.trail|), old(c.Now()), id);
    reply := if applied then Made else Unfinished;
  }

  lemma ApplyingSinceOutside(k: Checks, g: Grant, trail: seq<Durable>, from: nat, d: Durable, id: string)
    requires k.Faithful() && k.ApplyingSince(trail, from, d, {id})
    requires id in d.store.bindings && g.CoversBinding(d.store.bindings[id])
    ensures OutsideSince(g, trail, from, d)
  {
    forall i | from <= i < |trail| ensures k.confined(d, {id}, {}, trail[i]) {
      ApplyingIsConfined(k, d, {id}, {}, trail[i]);
    }
    ConfinedSinceIsOutside(k, g, trail, from, d, {id}, {});
  }

  /** Binds a key inside the grant, under `id` unless the key is bound already. */
  method BindKey(c: Controller, g: Grant, id: string, agent: string, key: Key, names: seq<string>, settings: Settings, admitted: bool)
    returns (reply: Reply)
    requires c.Valid() && |id| == BINDING_ID_LENGTH
    modifies c
    ensures c.Valid() && old(c.trail) <= c.trail && OutsideSince(g, c.trail, old(|c.trail|), old(c.Now()))
    ensures reply in {Denied, Differs} ==> c.Now() == old(c.Now())
    ensures reply in {Made, Unfinished} ==> g.Can(Bind) && g.Covers(agent, names)
    ensures id in c.store.bindings && id !in old(c.store.bindings) ==> g.CoversBinding(c.store.bindings[id])
    ensures c.store.bindings.Keys <= old(c.store.bindings.Keys) + {id}
    ensures c.reliable && g.Can(Bind) && g.Covers(agent, names) ==>
              (admitted && c.Creatable(old(c.store), id, agent, key, names, settings) ==> reply == Made)
              && (HasBound(c, g, old(c.store), agent, key, names, settings) ==> reply == Made)
  {
    var covered := Covers(g, agent, names);
    if !g.Can(Bind) || !covered {
      return Denied;
    }
    var read := c.Succeeds();
    if !read {
      return Refused;
    }
    var found := FindBinding(c, agent, key);
    if found.Some? {
      OneBindingPerKey(c.checks, c.Now(), found.value);
      reply := RepeatBind(c, g, found.value, names, settings);
      return;
    }
    var outcome := c.CreateBinding(id, agent, key, names, settings, admitted);
    if id !in old(c.store.bindings) {
      ConfinedSinceIsOutside(c.checks, g, c.trail, old(|c.trail|), old(c.Now()), {id}, {});
    }
    OpenConfined(c.checks, old(c.Now()), {id}, {}, c.Now());
    assert forall other | other != id :: SameBinding(old(c.store), c.store, other);
    SortNamesElements(names);
    CoversPart(g, agent, names, SortNames(names));
    reply := ReplyTo(outcome);
  }

  /** No agent has two bindings of one key. */
  lemma OneBindingPerKey(k: Checks, d: Durable, id: string)
    requires k.Faithful() && k.sound(d) && id in d.store.bindings
    ensures forall other | other in d.store.bindings && d.store.bindings[other].agent == d.store.bindings[id].agent
                           && d.store.bindings[other].key == d.store.bindings[id].key :: other == id
  {
    OpenEntry(k, d);
  }

  /** The grant covers the binding, and the request asks for exactly what it has. */
  ghost predicate Repeats(c: Controller, g: Grant, s: Store, id: string, names: seq<string>, settings: Settings) {
    && id in s.bindings && g.CoversBinding(s.bindings[id])
    && Resolves(c.rules, s.policies, names, settings, s.bindings[id].effective)
  }

  /** A covered binding of this key has exactly this selection. */
  ghost predicate HasBound(c: Controller, g: Grant, s: Store, agent: string, key: Key, names: seq<string>, settings: Settings) {
    exists id | id in s.bindings ::
      s.bindings[id].agent == agent && s.bindings[id].key == key && Repeats(c, g, s, id, names, settings)
  }

  // ----- Unbind -----

  datatype UnbindRequest = UnbindRequest(id: string, agent: string, key: Option<Key>)

  /** Retires the one binding a request means, if the grant covers it. */
  method Unbind(c: Controller, g: Grant, request: UnbindRequest) returns (reply: Reply)
    requires c.Valid()
    modifies c
    ensures c.Valid() && old(c.trail) <= c.trail && OutsideSince(g, c.trail, old(|c.trail|), old(c.Now()))
    ensures reply in {Denied, BadRequest, Absent} ==> c.Now() == old(c.Now())
    ensures reply in {Made, Unfinished} ==> exists id | id in old(c.store.bindings) ::
              && g.CoversBinding(old(c.store.bindings)[id]) && Requested(request, id, old(c.store.bindings)[id])
              && c.store.bindings == old(c.store.bindings) - {id}
    ensures reply == Absent ==> !Meant(old(c.store), request)
    ensures c.reliable && Permitted(g, request) && !Meant(old(c.store), request) ==> reply == Absent
    ensures c.reliable && Permitted(g, request) && MeantInside(g, old(c.store), request) ==> reply == Made
  {
    var byId := request.id != "";
    var byKey := request.agent != "" || request.key.Some?;
    if byId == byKey || (byKey && (request.agent == "" || request.key.None?)) {
      return BadRequest;
    }
    if !g.Can(Bind) || (byKey && !g.AllowsAgent(request.agent)) {
      return Denied;
    }
    var read := c.Succeeds();
    if !read {
      return Refused;
    }
    var found := if request.id in c.store.bindings then Some(request.id) else None;
    if byKey {
      found := FindBinding(c, request.agent, request.key.value);
    }
    if found.None? {
      return Absent;
    }
    OneBindingPerKey(c.checks, c.Now(), found.value);
    var b := c.store.bindings[found.value];
    var covered := Covers(g, b.agent, b.policies);
    if !covered {
      return Denied;
    }
    var outcome := c.DeleteBinding(found.value);
    ConfinedSinceIsOutside(c.checks, g, c.trail, old(|c.trail|), old(c.Now()), {found.value}, {});
    reply := ReplyTo(outcome);
  }

  /** The request names a binding in one way, and its grant lets it. */
  predicate Permitted(g: Grant, request: UnbindRequest) {
    && g.Can(Bind) && (request.id != "" <==> request.agent == "") && (request.agent != "" <==> request.key.Some?)
    && (request.agent != "" ==> g.AllowsAgent(request.agent))
  }

  ghost predicate Meant(s: Store, request: UnbindRequest) {
    exists id | id in s.bindings :: Requested(request, id, s.bindings[id])
  }

  ghost predicate MeantInside(g: Grant, s: Store, request: UnbindRequest) {
    exists id | id in s.bindings :: Requested(request, id, s.bindings[id]) && g.CoversBinding(s.bindings[id])
  }

  /** The request means this binding. */
  predicate Requested(request: UnbindRequest, id: string, b: Binding) {
    if request.id != "" then id == request.id else b.agent == request.agent && Some(b.key) == request.key
  }
}
