/**
 * Whole runs of the controller: any requests in any order, any call failing or
 * lost, and a crash at any durable write.
 */
module Runs {
  import opened Basics
  import opened Composition
  import opened Records
  import opened Storage
  import opened Transactions
  import opened History
  import opened Lifecycle
  import opened Grants
  import opened OperatorSession

  datatype Request =
    | Save(document: Policy, confirmed: bool)
    | Delete(name: string)
    | Rename(name: string, newName: string, revision: int, generation: int)
    | Create(id: string, agent: string, key: Key, names: seq<string>, settings: Settings, admitted: bool)
    | Change(id: string, seen: nat, names: seq<string>, settings: Settings, admitted: bool)
    | Remove(id: string)
    | Retire
    | Issue(agent: string, binding: Binding)
    | OperatorPut(grant: Grant, put: Put, confirmed: bool)
    | OperatorBind(grant: Grant, id: string, agent: string, key: Key, names: seq<string>, settings: Settings, admitted: bool)
    | OperatorUnbind(grant: Grant, unbind: UnbindRequest)

  /**
   * A request, whether every call in it succeeds, and the crashes that follow: the first
   * ends the request, each later one the startup before it, after so many durable writes.
   */
  datatype Step = Step(request: Request, reliable: bool, crashes: seq<nat>)

  /** A credential and the state it was prepared in. */
  datatype Prepared = Prepared(at: Durable, credential: Credential)

  method Mutate(c: Controller, r: Request)
    requires c.Valid() && (r.Create? || r.OperatorBind? ==> |r.id| == BINDING_ID_LENGTH)
    modifies c
    ensures c.Valid() && old(c.trail) <= c.trail
  {
    match r
    case Save(document, confirmed) => var _ := c.SavePolicy(document, confirmed);
    case Delete(name) => var _ := c.DeletePolicy(name);
    case Rename(name, newName, revision, generation) => var _, _ := c.RenamePolicy(name, newName, revision, generation);
    case Create(id, agent, key, names, settings, admitted) => var _ := c.CreateBinding(id, agent, key, names, settings, admitted);
    case Change(id, seen, names, settings, admitted) => var _ := c.ChangeBinding(id, seen, names, settings, admitted);
    case Remove(id) => var _ := c.DeleteBinding(id);
    case Retire => var _ := c.RetirePolicies();
    case Issue(agent, binding) =>
    case OperatorPut(grant, put, confirmed) => var _ := PutPolicy(c, grant, put, confirmed);
    case OperatorBind(grant, id, agent, key, names, settings, admitted) =>
      var _ := BindKey(c, grant, id, agent, key, names, settings, admitted);
    case OperatorUnbind(grant, unbind) => var _ := Unbind(c, grant, unbind);
  }

  method Serve(c: Controller, step: Step) returns (prepared: Option<Prepared>)
    requires c.Valid() && (step.request.Create? || step.request.OperatorBind? ==> |step.request.id| == BINDING_ID_LENGTH)
    modifies c
    ensures c.Valid() && old(c.trail) <= c.trail
    ensures prepared.Some? ==> Backed(c.rules, prepared.value.at, prepared.value.credential)
  {
    prepared := None;
    c.SetReliable(step.reliable);
    var start := |c.trail| - 1;
    if step.request.Issue? {
      var credential := c.PrepareCredential(step.request.agent, step.request.binding);
      if credential.Some? {
        prepared := Some(Prepared(Durable(c.store, c.bao), credential.value));
      }
    } else {
      Mutate(c, step.request);
    }
    Crash(c, start, step.crashes);
  }

  /** A crash after any durable write since `start`, then others inside the startups that follow. */
  method Crash(c: Controller, start: nat, crashes: seq<nat>)
    requires c.Valid() && start < |c.trail|
    modifies c
    ensures c.Valid() && old(c.trail)[..start + 1] <= c.trail
  {
    var from: nat := start;
    for i := 0 to |crashes|
      invariant c.Valid() && start <= from < |c.trail| && old(c.trail)[..start + 1] <= c.trail
    {
      if from + crashes[i] < |c.trail| {
        from := from + crashes[i];
        var _ := c.Restart(from);
      }
    }
  }

  /**
   * Over every run: what earlier requests made durable stays in the history, the
   * mutation lock is never released in a bad state, every prepared credential was
   * backed when it was prepared, every stored assignment in the history is a fresh
   * composition, and no identity is held again once given up.
   */
  method Run(c: Controller, steps: seq<Step>) returns (prepared: seq<Prepared>)
    requires c.Valid()
    requires forall i | 0 <= i < |steps| ::
               steps[i].request.Create? || steps[i].request.OperatorBind? ==> |steps[i].request.id| == BINDING_ID_LENGTH
    modifies c
    ensures c.Valid() && old(c.trail) <= c.trail
    ensures forall p | p in prepared :: Backed(c.rules, p.at, p.credential)
    ensures forall n, id | 0 <= n < |c.trail| && id in c.trail[n].store.bindings ::
              Fresh(c.rules, c.trail[n].store.policies, c.trail[n].store.bindings[id])
    ensures forall x, i, j, n | 0 <= i <= j <= n < |c.trail| && Held(c.trail[i].store, x) && !Held(c.trail[j].store, x) ::
              !Held(c.trail[n].store, x)
  {
    prepared := [];
    for s := 0 to |steps|
      invariant c.Valid() && old(c.trail) <= c.trail
      invariant forall p | p in prepared :: Backed(c.rules, p.at, p.credential)
    {
      var p := Serve(c, steps[s]);
      if p.Some? {
        prepared := prepared + [p.value];
      }
    }
    HistoryHolds(c.checks, c.trail);
  }

  lemma HistoryHolds(k: Checks, trail: seq<Durable>)
    requires k.Faithful() && k.Recorded(trail)
    ensures forall n, id | 0 <= n < |trail| && id in trail[n].store.bindings ::
              Fresh(k.rules, trail[n].store.policies, trail[n].store.bindings[id])
    ensures forall x, i, j, n | 0 <= i <= j <= n < |trail| && Held(trail[i].store, x) && !Held(trail[j].store, x) ::
              !Held(trail[n].store, x)
  {
    forall n, id | 0 <= n < |trail| && id in trail[n].store.bindings
      ensures Fresh(k.rules, trail[n].store.policies, trail[n].store.bindings[id])
    {
      AssignmentsStayFresh(k, trail, n, id);
    }
    forall x, i, j, n | 0 <= i <= j <= n < |trail| && Held(trail[i].store, x) && !Held(trail[j].store, x)
      ensures !Held(trail[n].store, x)
    {
      IdentityIsNeverReused(k, trail, x, i, j, n);
    }
  }

  /** The assignment is what composing the binding's stored policies gives, and OpenBao holds their published text. */
  ghost predicate ComposedFor(x: Externals, d: Durable, c: Credential) {
    && c.binding in d.store.bindings
    && var b := d.store.bindings[c.binding];
       && Known(d.store.policies, b.policies)
       && Composed(x, Documents(d.store.policies, b.policies), b.settings) == Some(c.assignment.1)
       && c.role in d.bao.roles && d.bao.roles[c.role] == RoleOf(b)
       && forall n | n in b.policies :: SelectedText(x, d, n)
  }

  ghost predicate SelectedText(x: Externals, d: Durable, n: string) {
    && n in d.store.policies
    && var p := d.store.policies[n];
       p.Identity() in d.bao.policies && d.bao.policies[p.Identity()] == x.PublishedHcl(p)
  }

  lemma BackedIsComposed(x: Externals, rules: Rules, d: Durable, c: Credential)
    requires rules == CompositionRules(x) && Backed(rules, d, c)
    ensures ComposedFor(x, d, c)
  {
    var b := d.store.bindings[c.binding];
    forall n | n in b.policies ensures SelectedText(x, d, n) {
      var i :| 0 <= i < |b.policies| && b.policies[i] == n;
      assert n in d.store.policies;
    }
  }

  /**
   * A controller on a fresh database, composing policy documents, beside an OpenBao
   * that may hold anything: over every run, each credential it prepares is for an
   * assignment that the composition of its stored policies gives, all of them published.
   */
  method RunFresh(x: Externals, bao: Bao, steps: seq<Step>) returns (c: Controller, prepared: seq<Prepared>)
    requires forall i | 0 <= i < |steps| ::
               steps[i].request.Create? || steps[i].request.OperatorBind? ==> |steps[i].request.id| == BINDING_ID_LENGTH
    ensures c.Valid() && c.rules == CompositionRules(x)
    ensures forall p | p in prepared :: ComposedFor(x, p.at, p.credential)
    ensures forall n, id | 0 <= n < |c.trail| && id in c.trail[n].store.bindings ::
              Fresh(CompositionRules(x), c.trail[n].store.policies, c.trail[n].store.bindings[id])
  {
    var rules := CompositionRules(x);
    CompositionIsLawful(x);
    ChecksExist(rules);
    c := new Controller(rules, ChecksOf(rules), bao);
    prepared := Run(c, steps);
    forall p | p in prepared ensures ComposedFor(x, p.at, p.credential) {
      BackedIsComposed(x, rules, p.at, p.credential);
    }
  }
}
