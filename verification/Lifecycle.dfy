/**
 * The controller's policy and binding lifecycle (internal/controller/operations.go,
 * policy_rename.go, policy_delete.go, policy_retirement.go, session.go) over an
 * atomic store and an OpenBao whose answers may be lost.
 *
 * One method is one section under the mutation lock. `Valid` is what holds while
 * the lock is free; `Standing` also holds at every durable write inside a section.
 */
module Lifecycle {
  import opened Basics
  import opened Naming
  import opened Composition
  import opened Records
  import opened Storage
  import opened Transactions
  import opened History

  /** What the caller hears from OpenBao. `Invalid` took no effect; `Unknown` may have. */
  datatype Answer = Done | Invalid | Unknown

  /** `Pending` means committed, with a transition left to finish. */
  datatype Outcome = Failed | Pending | Completed

  class Controller {
    const rules: Rules
    /** What its history is checked with. */
    ghost const checks: Checks
    var store: Store
    var bao: Bao
    var syncPending: bool
    /** Whether, in this section, every call succeeds and every assignment is within the wire limits. */
    var reliable: bool
    /** One entry per durable write since the controller's database was created. */
    var trail: seq<Durable>

    ghost function Now(): Durable
      reads this
    {
      Durable(store, bao)
    }

    ghost predicate Standing()
      reads this
    {
      checks.Faithful() && checks.rules == rules && checks.Recorded(trail) && trail[|trail| - 1] == Now()
    }

    /** With no sync pending, OpenBao agrees with every stored policy. */
    ghost predicate Valid()
      reads this
    {
      Standing() && (!syncPending ==> checks.agree(Now()))
    }

    /** A fresh database beside an OpenBao that may hold anything. */
    constructor (rules: Rules, ghost checks: Checks, bao: Bao)
      requires checks.Faithful() && checks.rules == rules
      ensures Valid() && this.rules == rules && this.checks == checks && this.bao == bao && store == Store(map[], map[], map[], {})
      ensures trail == [Now()] && !syncPending
    {
      this.rules, this.checks, this.bao, syncPending := rules, checks, bao, false;
      store := Store(map[], map[], map[], {});
      trail := [Durable(Store(map[], map[], map[], {}), bao)];
      OpenEntry(checks, Durable(Store(map[], map[], map[], {}), bao));
    }

    // ----- Single durable steps -----

    /** A call with no durable effect here, which may fail. */
    method Succeeds() returns (ok: bool)
      ensures reliable ==> ok
    {
      ok := *;
      ok := ok || reliable;
    }

    /** A transaction whose failure may hide a commit. */
    method Commit(next: Store) returns (ok: bool)
      requires Standing() && checks.sound(Durable(next, bao)) && checks.follows(store, next)
      modifies this`store, this`trail
      ensures Standing() && trail == old(trail) + [Now()]
      ensures store == next || (!ok && store == old(store))
      ensures reliable ==> ok
    {
      NothingFollows(checks, Now());
      var committed := *;
      ok := *;
      ok := ok || reliable;
      if committed || ok {
        store := next;
      }
      trail := trail + [Durable(store, bao)];
    }

    /** A transaction whose failure means that it did not commit. */
    method CommitOrFail(next: Store) returns (ok: bool)
      requires Standing() && checks.sound(Durable(next, bao)) && checks.follows(store, next)
      modifies this`store, this`trail
      ensures Standing() && trail == old(trail) + [Now()]
      ensures store == if ok then next else old(store)
      ensures reliable ==> ok
    {
      NothingFollows(checks, Now());
      ok := *;
      ok := ok || reliable;
      if ok {
        store := next;
      }
      trail := trail + [Durable(store, bao)];
    }

    /** One OpenBao write. */
    method Send(next: Bao) returns (answer: Answer)
      requires Standing() && checks.sound(Durable(store, next))
      modifies this`bao, this`trail
      ensures Standing() && trail == old(trail) + [Now()]
      ensures bao == next || (answer != Done && bao == old(bao))
      ensures answer.Invalid? ==> bao == old(bao)
      ensures reliable ==> answer.Done?
    {
      NothingFollows(checks, Now());
      answer := *;
      answer := if reliable then Done else answer;
      var took := *;
      if answer.Done? || (answer.Unknown? && took) {
        bao := next;
      }
      trail := trail + [Durable(store, bao)];
    }

    method WritePolicy(identity: string, hcl: string) returns (answer: Answer)
      requires Standing()
      modifies this`bao, this`trail
      ensures Standing() && trail == old(trail) + [Now()] && bao.roles == old(bao.roles)
      ensures bao.policies == old(bao.policies)[identity := hcl] || (answer != Done && bao == old(bao))
      ensures answer.Invalid? ==> bao == old(bao)
      ensures reliable ==> answer.Done?
    {
      PolicyWriteSound(checks, Now(), bao.(policies := bao.policies[identity := hcl]));
      answer := Send(bao.(policies := bao.policies[identity := hcl]));
    }

    method DeletePolicyIdentity(identity: string) returns (ok: bool)
      requires Standing()
      modifies this`bao, this`trail
      ensures Standing() && trail == old(trail) + [Now()] && bao.roles == old(bao.roles)
      ensures bao.policies == old(bao.policies) - {identity} || (!ok && bao == old(bao))
      ensures reliable ==> ok
    {
      PolicyWriteSound(checks, Now(), bao.(policies := bao.policies - {identity}));
      var answer := Send(bao.(policies := bao.policies - {identity}));
      ok := answer.Done?;
    }

    method PolicyExists(identity: string) returns (present: Option<bool>)
      ensures present.Some? ==> present.value == (identity in bao.policies)
      ensures reliable ==> present.Some?
    {
      var answered := *;
      present := if answered || reliable then Some(identity in bao.policies) else None;
    }

    /** Since entry `from`, when the state was `d`, only bindings in `ids` were applied. */
    ghost predicate Along(from: nat, d: Durable, ids: set<string>)
      reads this
    {
      from <= |trail| && checks.ApplyingSince(trail, from, d, ids) && checks.applying(d, ids, Now())
    }

    method WriteRole(b: Binding, ghost from: nat, ghost d: Durable) returns (ok: bool)
      requires Standing() && b.id in store.bindings && store.bindings[b.id] == b && !b.applied
      requires Along(from, d, {b.id})
      modifies this`bao, this`trail
      ensures Standing() && old(trail) <= trail && Along(from, d, {b.id})
      ensures ok ==> b.role in bao.roles && bao.roles[b.role] == RoleOf(b)
      ensures reliable ==> ok
    {
      var next := bao.(roles := bao.roles[b.role := RoleOf(b)]);
      RoleStep(d, b, next);
      var answer := Send(next);
      ok := answer.Done?;
    }

    method DeleteRole(b: Binding, ghost from: nat, ghost d: Durable) returns (ok: bool)
      requires Standing() && b.id in store.bindings && store.bindings[b.id] == b
      requires Along(from, d, {b.id})
      modifies this`bao, this`trail
      ensures Standing() && old(trail) <= trail && Along(from, d, {b.id})
      ensures |trail| > |old(trail)| && (ok ==> b.role !in bao.roles)
      ensures reliable ==> ok
    {
      var next := bao.(roles := bao.roles - {b.role});
      RoleStep(d, b, next);
      var answer := Send(next);
      ok := answer.Done?;
    }

    lemma RoleStep(d: Durable, b: Binding, next: Bao)
      requires Standing() && b.id in store.bindings && store.bindings[b.id] == b && checks.applying(d, {b.id}, Now())
      requires next.policies == bao.policies && forall r | r != b.role :: SameRole(bao, next, r)
      requires b.role in next.roles && b.applied ==> next.roles[b.role] == RoleOf(b)
      ensures checks.sound(Durable(store, next)) && checks.applying(d, {b.id}, Durable(store, next))
    {
      RoleWritten(checks, Now(), b.id, next);
      ApplyingThen(checks, d, {b.id}, Now(), {b.id}, Durable(store, next));
    }

    method MarkBindingApplied(b: Binding, ghost from: nat, ghost d: Durable) returns (ok: bool)
      requires Standing() && b.id in store.bindings && store.bindings[b.id] == b
      requires b.role in bao.roles && bao.roles[b.role] == RoleOf(b)
      requires Along(from, d, {b.id})
      modifies this`store, this`trail
      ensures Standing() && old(trail) <= trail && Along(from, d, {b.id})
      ensures ok ==> b.id in store.bindings && store.bindings[b.id] == b.(applied := true)
      ensures reliable ==> ok
    {
      ApplyStep(checks, Now(), b.id);
      ApplyingThen(checks, d, {b.id}, Now(), {b.id}, Durable(MarkApplied(store, b.id), bao));
      ok := Commit(MarkApplied(store, b.id));
    }

    // ----- Applying an assignment -----

    /** Gives the binding's role its assignment's identities and revokes the token of the earlier one. */
    method ApplyBinding(b: Binding) returns (ok: bool)
      requires Standing() && b.id in store.bindings && store.bindings[b.id] == b
      modifies this`store, this`bao, this`trail
      ensures Standing() && old(trail) <= trail
      ensures Along(old(|trail|), old(Now()), {b.id})
      ensures ok ==> b.id in store.bindings && store.bindings[b.id] == b.(applied := true)
      ensures ok && !b.applied ==> b.role in bao.roles
      ensures ok && !b.applied && b.settings.values != map[] ==> Voided(old(|trail|), b.role)
      ensures reliable && b.policies == b.effective.Names() ==> ok
      ensures b.applied ==> store == old(store) && bao == old(bao) && trail == old(trail)
    {
      ApplyingNothing(checks, Now(), {b.id});
      if b.policies != b.effective.Names() {
        return false;
      }
      if b.applied {
        return true;
      }
      ok := ApplyPending(b, |trail|, Now());
    }

    /** Since entry `from` the role was gone at some point, which voids every identifier issued under it. */
    ghost predicate Voided(from: nat, role: string)
      reads this
    {
      exists i | from <= i < |trail| :: role !in trail[i].bao.roles
    }

    method ApplyPending(b: Binding, ghost from: nat, ghost d: Durable) returns (ok: bool)
      requires Standing() && b.id in store.bindings && store.bindings[b.id] == b && !b.applied
      requires Along(from, d, {b.id})
      modifies this`store, this`bao, this`trail
      ensures Standing() && old(trail) <= trail && Along(from, d, {b.id})
      ensures ok ==> b.id in store.bindings && store.bindings[b.id] == b.(applied := true) && b.role in bao.roles
      ensures ok && b.settings.values != map[] ==> Voided(from, b.role)
      ensures reliable ==> ok
    {
      ghost var voided := |trail|;
      if b.settings.values != map[] {
        ok := DeleteRole(b, from, d);
        if !ok {
          return;
        }
        voided := |trail| - 1;
      }
      ok := WriteRole(b, from, d);
      if !ok {
        return;
      }
      ok := Succeeds();  // reading and revoking the earlier token's accessor, when there is one
      if ok {
        ok := MarkBindingApplied(b, from, d);
      }
      assert b.settings.values != map[] ==> b.role !in trail[voided].bao.roles;
    }

    lemma AlongThen(before: seq<Durable>, from: nat, d: Durable, ids: set<string>, ids': set<string>)
      requires Standing() && from <= |before| && before != [] && before <= trail && ids' <= ids
      requires checks.ApplyingSince(before, from, d, ids) && checks.applying(d, ids, before[|before| - 1])
      requires Along(|before|, before[|before| - 1], ids')
      ensures Along(from, d, ids)
    {
      ApplyingSinceThen(checks, before, from, d, ids, trail, ids');
      ApplyingThen(checks, d, ids, before[|before| - 1], ids', Now());
    }

    static ghost predicate Consistent(updates: map<string, Binding>) {
      forall id | id in updates :: updates[id].policies == updates[id].effective.Names()
    }

    method ApplyNext(updates: map<string, Binding>, ghost rest: set<string>, id: string, ghost from: nat, ghost d: Durable,
                     sofar: bool) returns (ok: bool)
      requires Standing() && Along(from, d, updates.Keys) && AppliedBut(store, updates, rest, sofar)
      requires id in rest && rest <= updates.Keys
      modifies this`store, this`bao, this`trail
      ensures Standing() && old(trail) <= trail && Along(from, d, updates.Keys)
      ensures AppliedBut(store, updates, rest - {id}, ok)
      ensures reliable && Consistent(updates) && sofar ==> ok
    {
      var applied := ApplyBinding(updates[id]);
      AlongThen(old(trail), from, d, updates.Keys, {id});
      AppliedNext(checks, old(Now()), Now(), updates, rest, id, sofar, applied);
      ok := sofar && applied;
    }

    /** The loop that every mutation runs over the assignments it made durable. */
    method ApplyAll(updates: map<string, Binding>) returns (ok: bool)
      requires Standing() && AppliedBut(store, updates, updates.Keys, true)
      modifies this`store, this`bao, this`trail
      ensures Standing() && old(trail) <= trail && Along(old(|trail|), old(Now()), updates.Keys)
      ensures AppliedBut(store, updates, {}, ok)
      ensures reliable && Consistent(updates) ==> ok
    {
      ok := true;
      ApplyingNothing(checks, Now(), updates.Keys);
      var rest := updates.Keys;
      while rest != {}
        invariant rest <= updates.Keys && Standing() && old(trail) <= trail
        invariant Along(old(|trail|), old(Now()), updates.Keys) && AppliedBut(store, updates, rest, ok)
        invariant reliable && Consistent(updates) ==> ok
        decreases |rest|
      {
        var id :| id in rest;
        ok := ApplyNext(updates, rest, id, old(|trail|), old(Now()), ok);
        rest := rest - {id};
      }
    }

    // ----- Composition by name -----

    function Sources(replacement: Option<Policy>): map<string, Policy>
      reads this
    {
      if replacement.Some? then store.policies[replacement.value.name := replacement.value] else store.policies
    }

    /** The assignment of a selection, with `replacement` standing in for the stored policy of its name. */
    method Compose(names: seq<string>, settings: Settings, replacement: Option<Policy>) returns (r: Option<Effective>)
      ensures r.Some? ==> Resolves(rules, Sources(replacement), names, settings, r.value)
      ensures reliable && Known(Sources(replacement), names) ==>
                r == rules.compose(Documents(Sources(replacement), names), settings)
    {
      var sources := [];
      for i := 0 to |names|
        invariant Known(Sources(replacement), names[..i]) && sources == Documents(Sources(replacement), names[..i])
      {
        if replacement.Some? && names[i] == replacement.value.name {
          sources := sources + [replacement.value];
        } else {
          var read := Succeeds();
          if !read || names[i] !in store.policies {
            return None;
          }
          sources := sources + [store.policies[names[i]]];
        }
        assert names[..i + 1] == names[..i] + [names[i]];
      }
      assert names[..|names|] == names;
      r := rules.compose(sources, settings);
    }

    // ----- Publishing every stored policy -----

    /** Since entry `from` no identity in `marks` lost its owner, and since entry `spare` nothing in use was deleted. */
    ghost predicate Clean(from: nat, marks: set<string>, spare: Option<nat>)
      reads this
    {
      && 0 < from <= |trail| && (spare.Some? ==> spare.value <= |trail| && checks.SafeSince(trail, spare.value))
      && checks.TracedSince(trail, from, marks) && checks.traced(Now(), marks)
    }

    method PublishPolicy(n: string, ghost rest: set<string>, ghost from: nat, ghost marks: set<string>, ghost spare: Option<nat>)
      returns (ok: bool)
      requires Standing() && n in store.policies && n in rest && Clean(from, marks, spare)
      requires checks.published(Now(), store.policies.Keys - rest)
      modifies this`bao, this`trail
      ensures Standing() && old(trail) <= trail && bao.roles == old(bao.roles) && Clean(from, marks, spare)
      ensures ok ==> checks.published(Now(), store.policies.Keys - (rest - {n}))
      ensures reliable ==> ok
    {
      var p := store.policies[n];
      PublishNext(checks, Now(), store.policies.Keys - rest, n);
      PublishTraces(checks, Now(), n, marks);
      NothingDeleted(checks, Now(), Now());
      assert store.policies.Keys - (rest - {n}) == (store.policies.Keys - rest) + {n};
      var answer := WritePolicy(p.Identity(), rules.publish(p));
      assert answer.Done? || bao != old(bao) ==> bao == Publishing(old(bao), rules, p);
      ok := answer.Done?;
    }

    method PublishAll(ghost from: nat, ghost marks: set<string>, ghost spare: Option<nat>) returns (ok: bool)
      requires Standing() && Clean(from, marks, spare)
      modifies this`bao, this`trail
      ensures Standing() && old(trail) <= trail && bao.roles == old(bao.roles) && Clean(from, marks, spare)
      ensures ok ==> checks.agree(Now())
      ensures reliable ==> ok
    {
      NothingPublished(checks, Now());
      var rest := store.policies.Keys;
      assert store.policies.Keys - rest == {};
      while rest != {}
        invariant Standing() && old(trail) <= trail && bao.roles == old(bao.roles) && Clean(from, marks, spare)
        invariant rest <= store.policies.Keys && checks.published(Now(), store.policies.Keys - rest)
        decreases |rest|
      {
        var n :| n in rest;
        ok := PublishPolicy(n, rest, from, marks, spare);
        if !ok {
          return;
        }
        rest := rest - {n};
      }
      assert store.policies.Keys - rest == store.policies.Keys;
      PublishedAll(checks, Now());
      ok := true;
    }

    /** The store is the authority after a partial publication. */
    method SyncPolicies(ghost from: nat, ghost marks: set<string>, ghost spare: Option<nat>) returns (ok: bool)
      requires Standing() && Clean(from, marks, spare)
      modifies this`bao, this`syncPending, this`trail
      ensures Valid() && old(trail) <= trail && syncPending == !ok
      ensures bao.roles == old(bao.roles) && Clean(from, marks, spare)
      ensures reliable ==> ok
    {
      syncPending := true;
      ok := Succeeds();
      if ok {
        ok := PublishAll(from, marks, spare);
        syncPending := !ok;
      }
    }

    // ----- Credentials -----

    lemma NoMarks()
      requires Standing()
      ensures Clean(|trail|, {}, Some(|trail|))
    {
      OpenTraced(checks, Now(), {});
    }

    /** A credential for the agent's binding, unless its assignment was superseded or a call failed. */
    method PrepareCredential(agent: string, binding: Binding) returns (c: Option<Credential>)
      requires Valid()
      modifies this`store, this`bao, this`syncPending, this`trail
      ensures Valid() && old(trail) <= trail
      ensures c.Some? ==> Backed(rules, Now(), c.value)
      ensures c.Some? ==> c.value.binding == binding.id && c.value.assignment == binding.Assignment()
      ensures c.Some? ==> binding.id in store.bindings && store.bindings[binding.id].agent == agent
      ensures reliable && Offered(agent, binding, old(Now())) ==> c.Some?
    {
      NoMarks();
      if syncPending {
        var synced := SyncPolicies(|trail|, {}, Some(|trail|));
        if !synced {
          return None;
        }
      }
      var read := Succeeds();
      if !read || binding.id !in store.bindings {
        return None;
      }
      var current := store.bindings[binding.id];
      if current.agent != agent || current.Assignment() != binding.Assignment() {
        return None;
      }
      StoredIsConsistent(checks, Now(), binding.id);
      c := Issue(current);
    }

    /** The binding is the agent's, its assignment is current, and its role is there if it should be. */
    ghost predicate Offered(agent: string, binding: Binding, d: Durable) {
      && binding.id in d.store.bindings
      && var b := d.store.bindings[binding.id];
         b.agent == agent && b.Assignment() == binding.Assignment() && (b.applied ==> b.role in d.bao.roles)
    }

    method Issue(b: Binding) returns (c: Option<Credential>)
      requires Valid() && !syncPending && b.id in store.bindings && store.bindings[b.id] == b
      modifies this`store, this`bao, this`trail
      ensures Valid() && old(trail) <= trail
      ensures c.Some? ==> Backed(rules, Now(), c.value)
      ensures c.Some? ==> b.id in store.bindings && store.bindings[b.id] == b.(applied := true)
      ensures c.Some? ==> c.value.binding == b.id && c.value.assignment == b.Assignment()
      ensures reliable && b.policies == b.effective.Names() && (b.applied ==> b.role in old(bao.roles)) ==> c.Some?
    {
      var applied := ApplyBinding(b);
      ApplyingKeeps(checks, old(Now()), {b.id}, Now());
      if !applied || b.role !in bao.roles {
        return None;
      }
      var identified := Succeeds();
      if !identified {
        return None;
      }
      var wrapped := Succeeds();
      if !wrapped {
        return None;
      }
      AppliedIsBacked(checks, Now(), b.id);
      c := Some(Credential(b.id, b.Assignment(), b.role));
    }

    // ----- Bindings -----

    /** Since entry `from`, when the state was `d`, nothing outside `ids` and `names` changed. */
    ghost predicate Within(from: nat, d: Durable, ids: set<string>, names: set<string>)
      reads this
    {
      checks.ConfinedSince(trail, from, d, ids, names) && checks.confined(d, ids, names, Now())
    }

    lemma WithinApplying(before: seq<Durable>, from: nat, d: Durable, ids: set<string>, names: set<string>)
      requires Standing() && before != [] && before <= trail && checks.ConfinedSince(before, from, d, ids, names)
      requires checks.confined(d, ids, names, before[|before| - 1]) && Along(|before|, before[|before| - 1], ids)
      ensures Within(from, d, ids, names)
    {
      ConfinedSinceApplying(checks, before, from, d, ids, names, trail);
      ApplyingIsConfined(checks, before[|before| - 1], ids, names, Now());
      ConfinedThen(checks, d, ids, names, before[|before| - 1], Now());
    }

    /** Applies the binding a mutation has just made durable. */
    method ApplyWithin(b: Binding, ghost from: nat, ghost d: Durable) returns (outcome: Outcome)
      requires Valid() && Within(from, d, {b.id}, {}) && b.id in store.bindings && store.bindings[b.id] == b
      modifies this`store, this`bao, this`trail
      ensures Valid() && old(trail) <= trail && Within(from, d, {b.id}, {})
      ensures outcome != Failed && b.id in store.bindings && store.policies == old(store.policies)
      ensures store.bindings[b.id] == b || store.bindings[b.id] == b.(applied := true)
      ensures outcome.Completed? ==> store.bindings[b.id] == b.(applied := true)
      ensures reliable && b.policies == b.effective.Names() ==> outcome.Completed?
    {
      var applied := ApplyBinding(b);
      ApplyingKeeps(checks, old(Now()), {b.id}, Now());
      WithinApplying(old(trail), from, d, {b.id}, {});
      AppliedRow(checks, old(Now()), {b.id}, Now(), b.id);
      outcome := if applied then Completed else Pending;
    }

    /**
     * Binds a container key to a selection. `id` is the new identifier; `admitted`
     * says that the key is valid, the agent approved and the access group assignable.
     */
    method CreateBinding(id: string, agent: string, key: Key, names: seq<string>, settings: Settings, admitted: bool)
      returns (outcome: Outcome)
      requires Valid() && |id| == BINDING_ID_LENGTH
      modifies this`store, this`bao, this`trail
      ensures Valid() && old(trail) <= trail && Within(old(|trail|), old(Now()), {id}, {})
      ensures !outcome.Failed? ==> id !in old(store.bindings) && id in store.bindings
      ensures !outcome.Failed? ==> Assigned(id, agent, key, names, settings, 1, outcome.Completed?)
      ensures id in old(store.bindings) ==> outcome.Failed? && store == old(store) && trail == old(trail)
      ensures id in store.bindings && id !in old(store.bindings) ==>
                store.bindings[id].agent == agent && store.bindings[id].policies == SortNames(names)
      ensures reliable && admitted && Creatable(old(store), id, agent, key, names, settings) ==> outcome.Completed?
    {
      ConfinedNothing(checks, Now(), {id}, {});
      if !admitted {
        return Failed;
      }
      var composed := Compose(names, settings, None);
      if composed.None? {
        return Failed;
      }
      var e := composed.value;
      var b := Binding(id, agent, key, e.Names(), e.settings, 1, e, false, RoleName(agent, id));
      ComposedRow(checks, Now(), names, settings, e, b);
      var fits := Succeeds();
      if !fits {
        return Failed;
      }
      if Selectable(store, names) {
        SelectableSorted(store, names);
      }
      outcome := StoreNew(b, old(|trail|), old(Now()));
    }

    method StoreNew(b: Binding, ghost from: nat, ghost d: Durable) returns (outcome: Outcome)
      requires Valid() && Within(from, d, {b.id}, {}) && !b.applied && b.revision > 0
      requires |b.id| == BINDING_ID_LENGTH && b.role == RoleName(b.agent, b.id)
      requires b.settings.Defaulted() && b.policies == b.effective.Names() && Fresh(rules, store.policies, b)
      modifies this`store, this`bao, this`trail
      ensures Valid() && old(trail) <= trail && Within(from, d, {b.id}, {})
      ensures Stored(old(store), b, outcome)
      ensures !outcome.Failed? ==> b.id !in old(store.bindings)
      ensures b.id in old(store.bindings) ==> store == old(store) && trail == old(trail)
      ensures reliable && Transactions.CreateBinding(old(store), b).Some? ==> outcome.Completed?
    {
      var next := Transactions.CreateBinding(store, b);
      if next.None? {
        return Failed;
      }
      CreateStep(checks, Now(), b, next.value);
      ConfinedThen(checks, d, {b.id}, {}, Now(), Durable(next.value, bao));
      var created := Commit(next.value);
      if !created {
        return Failed;
      }
      outcome := ApplyWithin(b, from, d);
    }

    /** The row is as computed, up to having been applied; after a failure it may also be as it was. */
    ghost predicate Stored(was: Store, b: Binding, outcome: Outcome)
      reads this
    {
      && store.policies == was.policies
      && (outcome.Failed? ==> store.bindings == was.bindings || (b.id in store.bindings && store.bindings[b.id] == b))
      && (!outcome.Failed? ==>
            && b.id in store.bindings
            && (store.bindings[b.id] == b.(applied := true) || (outcome.Pending? && store.bindings[b.id] == b)))
    }

    /** The row holds this selection's composition. */
    ghost predicate Assigned(id: string, agent: string, key: Key, names: seq<string>, settings: Settings, revision: nat, applied: bool)
      reads this
    {
      && id in store.bindings && var b := store.bindings[id];
      && b.id == id && b.agent == agent && b.key == key && b.policies == SortNames(names) && b.settings == settings.Defaults()
      && b.revision == revision && (applied ==> b.applied)
      && Resolves(rules, store.policies, names, settings, b.effective)
    }

    /** No row has this identifier or this key, and the selection composes. */
    ghost predicate Creatable(s: Store, id: string, agent: string, key: Key, names: seq<string>, settings: Settings) {
      && id !in s.bindings && (forall other | other in s.bindings :: s.bindings[other].agent != agent || s.bindings[other].key != key)
      && Selectable(s, names) && rules.compose(Documents(s.policies, names), settings).Some?
    }

    /** Replaces a binding's complete selection and settings, as seen at `revision`. */
    method ChangeBinding(id: string, revision: nat, names: seq<string>, settings: Settings, admitted: bool) returns (outcome: Outcome)
      requires Valid()
      modifies this`store, this`bao, this`trail
      ensures Valid() && old(trail) <= trail && Within(old(|trail|), old(Now()), {id}, {})
      ensures !outcome.Failed? ==> id in old(store.bindings) && revision == old(store).bindings[id].revision
      ensures !outcome.Failed? && store.bindings != old(store.bindings) ==>
                var was := old(store).bindings[id];
                Assigned(id, was.agent, was.key, names, settings, revision + 1, outcome.Completed?)
      ensures outcome.Completed? && store.bindings == old(store.bindings) ==>
                Resolves(rules, store.policies, names, settings, store.bindings[id].effective)
      ensures reliable && admitted && Changeable(old(store), id, revision, names, settings) ==> outcome.Completed?
    {
      ConfinedNothing(checks, Now(), {id}, {});
      var read := Succeeds();
      if !read || id !in store.bindings || revision != store.bindings[id].revision || !admitted {
        return Failed;
      }
      var composed := Compose(names, settings, None);
      if composed.None? {
        return Failed;
      }
      var e := composed.value;
      if e == store.bindings[id].effective {
        return Completed;
      }
      StoredIsConsistent(checks, Now(), id);
      var b := store.bindings[id].(policies := e.Names(), settings := e.settings, effective := e,
                                   revision := revision + 1, applied := false);
      ComposedRow(checks, Now(), names, settings, e, b);
      var fits := Succeeds();
      if !fits {
        return Failed;
      }
      if Selectable(store, names) {
        SelectableSorted(store, names);
      }
      outcome := StoreChanged(b, old(|trail|), old(Now()));
    }

    /** The caller saw the present row, and the selection composes. */
    ghost predicate Changeable(s: Store, id: string, revision: nat, names: seq<string>, settings: Settings) {
      && id in s.bindings && revision == s.bindings[id].revision
      && Selectable(s, names) && rules.compose(Documents(s.policies, names), settings).Some?
    }

    method StoreChanged(b: Binding, ghost from: nat, ghost d: Durable) returns (outcome: Outcome)
      requires Valid() && Within(from, d, {b.id}, {}) && b.id in store.bindings
      requires NextAssignment(rules, store.policies, store.bindings[b.id], b)
      modifies this`store, this`bao, this`trail
      ensures Valid() && old(trail) <= trail && Within(from, d, {b.id}, {})
      ensures Stored(old(store), b, outcome)
      ensures reliable && Selectable(old(store), b.policies) ==> outcome.Completed?
    {
      var next := Transactions.ChangeBinding(store, b);
      if next.None? {
        return Failed;
      }
      ChangeStep(checks, Now(), b, next.value);
      ConfinedThen(checks, d, {b.id}, {}, Now(), Durable(next.value, bao));
      var changed := Commit(next.value);
      if !changed {
        return Failed;
      }
      outcome := ApplyWithin(b, from, d);
    }

    /** Retires a binding: its role first, then its row. A failed removal may still have happened. */
    method DeleteBinding(id: string) returns (outcome: Outcome)
      requires Valid()
      modifies this`store, this`bao, this`trail
      ensures Valid() && old(trail) <= trail && Within(old(|trail|), old(Now()), {id}, {})
      ensures !outcome.Failed? ==> id in old(store.bindings) && store.bindings == old(store.bindings) - {id}
      ensures outcome.Completed? ==> old(store).bindings[id].role !in bao.roles
      ensures store == old(store) || store == old(store).(bindings := old(store.bindings) - {id})
      ensures reliable && id in old(store.bindings) ==> outcome.Completed?
    {
      ConfinedNothing(checks, Now(), {id}, {});
      ApplyingNothing(checks, Now(), {id});
      var read := Succeeds();
      if !read || id !in store.bindings {
        return Failed;
      }
      StoredIsConsistent(checks, Now(), id);
      var deleted := DeleteRole(store.bindings[id], |trail|, Now());
      ApplyingKeeps(checks, old(Now()), {id}, Now());
      WithinApplying(old(trail), old(|trail|), old(Now()), {id}, {});
      outcome := Retire(id, deleted, old(|trail|), old(Now()));
    }

    method Retire(id: string, deleted: bool, ghost from: nat, ghost d: Durable) returns (outcome: Outcome)
      requires Valid() && Within(from, d, {id}, {}) && id in store.bindings
      modifies this`store, this`trail
      ensures Valid() && old(trail) <= trail && Within(from, d, {id}, {})
      ensures store == old(store) || store == old(store).(bindings := old(store.bindings) - {id})
      ensures !outcome.Failed? ==> store.bindings == old(store.bindings) - {id}
      ensures outcome.Completed? ==> deleted
      ensures reliable && deleted ==> outcome.Completed?
    {
      var next := RetireBinding(store, id).value;
      RetireStep(checks, Now(), id, next);
      ConfinedThen(checks, d, {id}, {}, Now(), Durable(next, bao));
      var retired := Commit(next);
      if !retired {
        return Failed;
      }
      var revoked := Succeeds();
      outcome := if revoked && deleted then Completed else Pending;
    }

    // ----- Saving a policy -----

    /** The next assignment of one binding that selects the document. */
    method NextSaved(b: Binding, document: Policy) returns (r: Option<Binding>)
      requires Standing() && b.id in store.bindings && store.bindings[b.id] == b
      requires SavedDocument(store, document) == document
      ensures r.Some? ==> SaveUpdate(rules, store, document, b, r.value) && r.value.policies == r.value.effective.Names()
      ensures reliable && Recomposes(store, document, b) ==> r.Some?
    {
      StoredIsConsistent(checks, Now(), b.id);
      var e := Compose(b.policies, b.settings, Some(document));
      if e.None? {
        return None;
      }
      SaveUpdateReady(checks, Now(), document, b, e.value);
      r := Some(b.(effective := e.value, revision := b.revision + 1, applied := false));
    }

    /** The binding's selection still composes once `document` is stored. */
    ghost predicate Recomposes(s: Store, document: Policy, b: Binding) {
      var m := s.policies[document.name := document];
      Known(m, b.policies) ==> rules.compose(Documents(m, b.policies), b.settings).Some?
    }

    /** Every binding outside `rest` that selects the document has its next assignment in `updates`. */
    ghost predicate SavedBut(document: Policy, updates: map<string, Binding>, rest: set<string>)
      reads this
    {
      && (forall id | id in updates :: id in store.bindings && SaveUpdate(rules, store, document, store.bindings[id], updates[id]))
      && (forall id | id in store.bindings && store.bindings[id].HasPolicy(document.name) && id !in rest :: id in updates)
    }

    method SaveUpdates(document: Policy) returns (r: Option<map<string, Binding>>)
      requires Standing() && SavedDocument(store, document) == document && ValidName(document.name)
      ensures r.Some? ==> SaveReady(rules, store, document, r.value) && Consistent(r.value)
      ensures r.Some? ==> r.value.Keys == SelectedBy(store, document.name)
      ensures reliable && (forall id | id in SelectedBy(store, document.name) :: Recomposes(store, document, store.bindings[id])) ==> r.Some?
    {
      var updates: map<string, Binding> := map[];
      var rest := store.bindings.Keys;
      while rest != {}
        invariant rest <= store.bindings.Keys && SavedBut(document, updates, rest) && Consistent(updates)
        invariant forall id | id in updates :: id in SelectedBy(store, document.name)
        decreases |rest|
      {
        var id :| id in rest;
        var b := store.bindings[id];
        if b.HasPolicy(document.name) {
          StoredIsConsistent(checks, Now(), id);
          var next := NextSaved(b, document);
          if next.None? {
            return None;
          }
          updates := updates[id := next.value];
        }
        rest := rest - {id};
      }
      r := Some(updates);
    }

    /** What a publication of `name` must leave: the others still published, unless a sync is owed. */
    ghost predicate OthersAgree(name: string)
      reads this
    {
      !syncPending ==> checks.published(Now(), store.policies.Keys - {name})
    }

    /**
     * Puts back what the store says after a publication that failed or was not
     * recorded: the previous document, or nothing.
     */
    method RestorePolicy(attempted: Policy, ghost from: nat, ghost d: Durable, ghost ids: set<string>) returns (ok: bool)
      requires Standing() && OthersAgree(attempted.name) && ValidName(attempted.name)
      requires attempted.name in store.policies ==> attempted.generation == store.policies[attempted.name].generation
      requires Within(from, d, ids, {attempted.name})
      modifies this`bao, this`syncPending, this`trail
      ensures Valid() && trail == old(trail) + [Now()] && Within(from, d, ids, {attempted.name})
      ensures reliable ==> ok
    {
      var name := attempted.name;
      var next: Bao;
      if name in store.policies {
        var previous := store.policies[name];
        StoredName(checks, Now(), name);
        next := Publishing(bao, rules, previous);
      } else {
        next := bao.(policies := bao.policies - {attempted.Identity()});
      }
      OwnIdentity(checks, Now(), name, attempted.generation, next, ids);
      PolicyWriteSound(checks, Now(), next);
      ConfinedThen(checks, d, ids, {name}, Now(), Durable(store, next));
      var answer := Send(next);
      ok := answer.Done?;
      if !ok {
        syncPending := true;
      } else if !syncPending {
        LastPublished(checks, Now(), name);
      }
    }

    /** Publishes the document, commits it with its updates, and applies those. */
    method PublishAndSave(document: Policy, updates: map<string, Binding>) returns (outcome: Outcome)
      requires Valid() && SaveReady(rules, store, document, updates) && Consistent(updates)
      requires SavedDocument(store, document) == document
      modifies this`store, this`bao, this`syncPending, this`trail
      ensures Valid() && old(trail) <= trail && Within(old(|trail|), old(Now()), updates.Keys, {document.name})
      ensures SavedAs(old(store), document, updates, outcome)
      ensures reliable ==> outcome.Completed?
    {
      var name := document.name;
      if !syncPending {
        AgreeIsPublished(checks, Now(), store.policies.Keys - {name});
      }
      var next := Publishing(bao, rules, document);
      OwnIdentity(checks, Now(), name, document.generation, next, updates.Keys);
      ConfinedNothing(checks, Now(), updates.Keys, {name});
      var answer := WritePolicy(document.Identity(), rules.publish(document));
      assert bao == next || (answer != Done && bao == old(bao));
      if answer.Invalid? {
        return Failed;
      }
      if answer.Unknown? {
        var restored := RestorePolicy(document, old(|trail|), old(Now()), updates.Keys);
        return Failed;
      }
      outcome := CommitSave(document, updates, old(|trail|), old(Now()));
    }

    /** After a failure the store is unchanged; otherwise the row and its bindings' assignments are the new ones. */
    ghost predicate SavedAs(was: Store, document: Policy, updates: map<string, Binding>, outcome: Outcome)
      reads this
    {
      if outcome.Failed? then store == was
      else store.policies == was.policies[document.name := document] && AppliedBut(store, updates, {}, outcome.Completed?)
    }

    method CommitSave(document: Policy, updates: map<string, Binding>, ghost from: nat, ghost d: Durable) returns (outcome: Outcome)
      requires Standing() && OthersAgree(document.name) && Within(from, d, updates.Keys, {document.name})
      requires SaveReady(rules, store, document, updates) && Consistent(updates)
      requires SavedDocument(store, document) == document
      requires document.Identity() in bao.policies && bao.policies[document.Identity()] == rules.publish(document)
      modifies this`store, this`bao, this`syncPending, this`trail
      ensures Valid() && old(trail) <= trail && Within(from, d, updates.Keys, {document.name})
      ensures SavedAs(old(store), document, updates, outcome)
      ensures reliable ==> outcome.Completed?
    {
      SaveCommits(checks, store, document, updates);
      var next := SavePolicyBindings(store, document, updates).value;
      SaveStep(checks, Now(), document, updates, next);
      ConfinedThen(checks, d, updates.Keys, {document.name}, Now(), Durable(next, bao));
      if !syncPending {
        RowTakesDocument(checks, Now(), document, next);
      }
      var saved := CommitOrFail(next);
      if !saved {
        var restored := RestorePolicy(document, from, d, updates.Keys);
        return Failed;
      }
      ghost var before := trail;
      var applied := ApplyAll(updates);
      ApplyingKeeps(checks, before[|before| - 1], updates.Keys, Now());
      WithinApplying(before, from, d, updates.Keys, {document.name});
      outcome := if applied then Completed else Pending;
    }

    /**
     * Saves a document under the name it carries. `confirmed` says that OpenBao
     * knows the Transit keys and SSH roles it offers.
     */
    method SavePolicy(input: Policy, confirmed: bool) returns (outcome: Outcome)
      requires Valid()
      modifies this`store, this`bao, this`syncPending, this`trail
      ensures Valid() && old(trail) <= trail
      ensures Within(old(|trail|), old(Now()), SelectedBy(old(store), input.name), {input.name})
      ensures outcome.Failed? ==> store == old(store)
      ensures !outcome.Failed? ==> rules.valid(input) && confirmed && input.name in store.policies
      ensures !outcome.Failed? ==> store.policies[input.name].(revision := 0, generation := 0) == input.(revision := 0, generation := 0)
      ensures store.policies == old(store.policies) || store.policies == old(store.policies)[input.name := SavedDocument(old(store), input)]
      ensures outcome.Completed? && store.policies != old(store.policies) ==>
                forall id | id in SelectedBy(old(store), input.name) :: id in store.bindings && store.bindings[id].applied
      ensures reliable && confirmed && rules.valid(input) && Savable(old(store), input) ==> outcome.Completed?
    {
      ConfinedNothing(checks, Now(), SelectedBy(store, input.name), {input.name});
      var read := Succeeds();
      if !rules.valid(input) || !confirmed || !read {
        return Failed;
      }
      var document := SavedDocument(store, input);
      if input.name in store.policies {
        var previous := store.policies[input.name];
        if previous.(revision := 0) == document.(revision := 0) {
          return Completed;
        }
      }
      var updates := SaveUpdates(document);
      if updates.None? {
        return Failed;
      }
      var fits := Succeeds();
      if !fits {
        return Failed;
      }
      outcome := PublishAndSave(document, updates.value);
    }

    /** Every binding that selects the document still composes with it. */
    ghost predicate Savable(s: Store, input: Policy) {
      forall id | id in SelectedBy(s, input.name) :: Recomposes(s, SavedDocument(s, input), s.bindings[id])
    }

    // ----- Deleting a policy -----

    /** Since entry `from` the identity was in OpenBao only beside its row. */
    ghost predicate NeverOutlives(from: nat, name: string, identity: string)
      reads this
    {
      forall i | from <= i < |trail| :: name !in trail[i].store.policies ==> identity !in trail[i].bao.policies
    }

    /** Deletes an unselected policy in the order that never leaves its identity without a row. */
    method DeletePolicy(name: string) returns (outcome: Outcome)
      requires Valid()
      modifies this`store, this`bao, this`syncPending, this`trail
      ensures Valid() && old(trail) <= trail && Within(old(|trail|), old(Now()), {}, {name})
      ensures outcome.Completed? ==>
                && name in old(store.policies) && SelectedBy(old(store), name) == {}
                && store == old(store).(policies := old(store.policies) - {name})
                && old(store).policies[name].Identity() !in bao.policies
      ensures name in old(store.policies) ==> NeverOutlives(old(|trail|), name, old(store).policies[name].Identity())
      ensures store == old(store) || store == old(store).(policies := old(store.policies) - {name})
      ensures reliable && name in old(store.policies) && SelectedBy(old(store), name) == {} ==> outcome.Completed?
    {
      ConfinedNothing(checks, Now(), {}, {name});
      var read := Succeeds();
      if !ValidName(name) || !read || name !in store.policies {
        if name in store.policies {
          StoredName(checks, Now(), name);
        }
        return Failed;
      }
      if SelectedBy(store, name) != {} {
        return Failed;
      }
      var stored := store.policies[name];
      StoredName(checks, Now(), name);
      if !syncPending {
        AgreeIsPublished(checks, Now(), store.policies.Keys - {name});
      }
      OwnIdentity(checks, Now(), name, stored.generation, bao.(policies := bao.policies - {stored.Identity()}), {});
      var deleted := DeletePolicyIdentity(stored.Identity());
      if !deleted {
        var restored := RestorePolicy(stored, old(|trail|), old(Now()), {});
        return Failed;
      }
      outcome := DeleteRow(name, stored, old(|trail|), old(Now()));
    }

    method DeleteRow(name: string, stored: Policy, ghost from: nat, ghost d: Durable) returns (outcome: Outcome)
      requires Standing() && OthersAgree(name) && Within(from, d, {}, {name})
      requires name in store.policies && stored == store.policies[name] && stored.name == name && ValidName(name)
      requires stored.Identity() !in bao.policies
      requires SelectedBy(store, name) == {} && NeverOutlives(from, name, stored.Identity())
      modifies this`store, this`bao, this`syncPending, this`trail
      ensures Valid() && old(trail) <= trail && Within(from, d, {}, {name}) && NeverOutlives(from, name, stored.Identity())
      ensures outcome.Completed? ==>
                store == old(store).(policies := old(store.policies) - {name}) && bao.policies == old(bao.policies)
      ensures store == old(store) || store == old(store).(policies := old(store.policies) - {name})
      ensures reliable ==> outcome.Completed?
    {
      var next := Transactions.DeletePolicy(store, name).value;
      DeleteStep(checks, Now(), name, next);
      ConfinedThen(checks, d, {}, {name}, Now(), Durable(next, bao));
      if !syncPending {
        RowLeaves(checks, Now(), name, next);
      }
      var removed := Commit(next);
      if removed {
        return Completed;
      }
      outcome := SettleFailedDelete(stored, from, d);
    }

    /** After an ambiguous deletion: complete if the row is not there, otherwise OpenBao gets its text back. */
    method SettleFailedDelete(stored: Policy, ghost from: nat, ghost d: Durable) returns (outcome: Outcome)
      requires Standing() && OthersAgree(stored.name) && ValidName(stored.name) && Within(from, d, {}, {stored.name})
      requires stored.name in store.policies ==> stored == store.policies[stored.name]
      requires stored.name !in store.policies && !syncPending ==> checks.agree(Now())
      requires NeverOutlives(from, stored.name, stored.Identity())
      modifies this`bao, this`syncPending, this`trail
      ensures Valid() && old(trail) <= trail && Within(from, d, {}, {stored.name})
      ensures NeverOutlives(from, stored.name, stored.Identity())
      ensures outcome.Completed? ==> stored.name !in store.policies && bao == old(bao)
      ensures reliable && stored.name !in store.policies ==> outcome.Completed?
    {
      var read := Succeeds();
      if !read {
        syncPending := true;
        return Failed;
      }
      if stored.name !in store.policies {
        return Completed;
      }
      var restored := RestorePolicy(stored, from, d, {});
      outcome := Failed;
    }

    // ----- Retiring identities -----

    /** Ends the record of an identity that is gone from OpenBao or held by a stored policy. */
    method ForgetRetirement(identity: string, ghost from: nat, ghost marks: set<string>, ghost spare: Option<nat>) returns (ok: bool)
      requires Valid() && Clean(from, marks, spare) && (identity in marks && identity in bao.policies ==> Held(store, identity))
      modifies this`store, this`trail
      ensures Valid() && old(trail) <= trail && Clean(from, marks, spare)
      ensures store == Transactions.ForgetRetirement(old(store), identity) || (!ok && store == old(store))
      ensures reliable ==> ok
    {
      var next := Transactions.ForgetRetirement(store, identity);
      RetirementStep(checks, Now(), next);
      ForgetTraces(checks, Now(), identity, marks);
      NothingDeleted(checks, Now(), Now());
      NothingDeleted(checks, Now(), Durable(next, bao));
      ok := Commit(next);
    }

    method DeleteUnheld(identity: string, ghost from: nat, ghost marks: set<string>, ghost spare: Option<nat>) returns (ok: bool)
      requires Valid() && Clean(from, marks, spare) && !Held(store, identity) && (spare.Some? ==> !Named(Now(), identity))
      modifies this`bao, this`trail
      ensures Valid() && old(trail) <= trail && Clean(from, marks, spare)
      ensures bao.roles == old(bao.roles)
      ensures bao.policies == old(bao.policies) - {identity} || (!ok && bao.policies == old(bao.policies))
      ensures reliable ==> ok
    {
      var next := bao.(policies := bao.policies - {identity});
      RemovalTraces(checks, Now(), identity, marks, spare);
      NothingDeleted(checks, Now(), Now());
      ok := DeletePolicyIdentity(identity);
      assert bao == next || bao == old(bao);
    }

    /** Deletes an identity; its record ends only once OpenBao has been seen not to hold it. */
    method RemovePolicyIdentity(identity: string, ghost from: nat, ghost marks: set<string>, ghost spare: Option<nat>) returns (ok: bool)
      requires Valid() && Clean(from, marks, spare) && !Held(store, identity) && (spare.Some? ==> !Named(Now(), identity))
      modifies this`store, this`bao, this`trail
      ensures Valid() && old(trail) <= trail && Clean(from, marks, spare)
      ensures store == old(store) || store == Transactions.ForgetRetirement(old(store), identity)
      ensures bao.roles == old(bao.roles)
      ensures bao.policies == old(bao.policies) || bao.policies == old(bao.policies) - {identity}
      ensures ok ==> identity !in bao.policies && identity !in store.retirements
      ensures identity in old(store.retirements) && identity !in store.retirements ==> identity !in bao.policies
      ensures reliable ==> ok
    {
      ok := DeleteUnheld(identity, from, marks, spare);
      if !ok {
        return;
      }
      var present := PolicyExists(identity);
      if present.None? || present.value {
        return false;
      }
      ok := ForgetRetirement(identity, from, marks, spare);
    }

    ghost predicate AllApplied()
      reads this
    {
      forall id | id in store.bindings :: store.bindings[id].applied
    }

    /** The records in `done` are ended and those identities are gone, unless a stored policy holds them. */
    ghost predicate Gone(done: set<string>)
      reads this
    {
      forall x | x in done :: x !in store.retirements && (Held(store, x) || x !in bao.policies)
    }

    method RetireOne(identity: string, ghost done: set<string>, ghost from: nat, ghost marks: set<string>, ghost spare: Option<nat>)
      returns (ok: bool)
      requires Valid() && Clean(from, marks, spare) && AllApplied() && Gone(done)
      modifies this`store, this`bao, this`trail
      ensures Valid() && old(trail) <= trail && Clean(from, marks, spare) && AllApplied() && Gone(done)
      ensures store == old(store) || store == Transactions.ForgetRetirement(old(store), identity)
      ensures ok ==> Gone(done + {identity})
      ensures reliable ==> ok
    {
      if Held(store, identity) {
        ok := ForgetRetirement(identity, from, marks, spare);
      } else {
        UnheldIsUnnamed(checks, Now(), identity);
        ok := RemovePolicyIdentity(identity, from, marks, spare);
      }
      assert store.policies == old(store).policies;
      assert forall x :: Held(store, x) == Held(old(store), x);
    }

    method RetireAll(identities: set<string>, ghost from: nat, ghost marks: set<string>, ghost spare: Option<nat>) returns (ok: bool)
      requires Valid() && Clean(from, marks, spare) && AllApplied() && store.retirements <= identities
      modifies this`store, this`bao, this`trail
      ensures Valid() && old(trail) <= trail && Clean(from, marks, spare)
      ensures store == old(store).(retirements := store.retirements) && store.retirements <= old(store).retirements
      ensures ok ==> Gone(identities) && store.retirements == {}
      ensures reliable ==> ok
    {
      ok := true;
      var rest := identities;
      ghost var done := {};
      while rest != {}
        invariant Valid() && old(trail) <= trail && Clean(from, marks, spare) && AllApplied()
        invariant store == old(store).(retirements := store.retirements) && store.retirements <= old(store).retirements
        invariant done + rest <= identities && Gone(done) && (ok ==> done + rest == identities)
        invariant reliable ==> ok
        decreases |rest|
      {
        var identity :| identity in rest;
        var gone := RetireOne(identity, done, from, marks, spare);
        if gone {
          done := done + {identity};
        }
        ok, rest := ok && gone, rest - {identity};
      }
      assert ok ==> done == identities;
    }

    lemma PendingIsConsistent(pending: map<string, Binding>)
      requires Standing() && forall id | id in pending :: id in store.bindings && pending[id] == store.bindings[id]
      ensures Consistent(pending) && forall id | id in pending :: pending[id].id == id
    {
      forall id | id in pending ensures pending[id].id == id && pending[id].policies == pending[id].effective.Names() {
        StoredIsConsistent(checks, Now(), id);
      }
    }

    /** Every binding is applied, and only that changed. */
    method FinishTransitions(ghost from: nat, ghost marks: set<string>, ghost spare: Option<nat>) returns (ok: bool)
      requires Valid() && Clean(from, marks, spare)
      modifies this`store, this`bao, this`trail
      ensures Valid() && old(trail) <= trail && Clean(from, marks, spare)
      ensures checks.applying(old(Now()), store.bindings.Keys, Now())
      ensures ok ==> AllApplied()
      ensures reliable ==> ok
    {
      var pending := map id | id in store.bindings && !store.bindings[id].applied :: store.bindings[id];
      PendingIsConsistent(pending);
      ok := ApplyAll(pending);
      ApplyingKeeps(checks, old(Now()), pending.Keys, Now());
      ApplyingWider(checks, old(Now()), pending.Keys, Now(), store.bindings.Keys);
      AppliedStayApplied(checks, old(Now()), pending.Keys, Now());
      CleanApplying(checks, old(trail), trail, pending.Keys, from, marks, spare);
    }

    /**
     * Applies every binding that is not applied yet; only when all are, goes through
     * the records and deletes those identities that no row holds.
     */
    method SettleRetirements(ghost from: nat, ghost marks: set<string>, ghost spare: Option<nat>) returns (ok: bool)
      requires Valid() && Clean(from, marks, spare)
      modifies this`store, this`bao, this`syncPending, this`trail
      ensures Valid() && old(trail) <= trail && Clean(from, marks, spare)
      ensures store == old(store).(bindings := store.bindings, retirements := store.retirements)
      ensures SameRows(old(store), store)
      ensures store.retirements <= old(store.retirements)
      ensures ok ==> store.retirements == {} && Gone(old(store.retirements))
      ensures ok && old(store.retirements) != {} ==> AllApplied() && !syncPending
      ensures reliable ==> ok
    {
      var read := Succeeds();
      if !read {
        return false;
      }
      var identities := store.retirements;
      if identities == {} {
        return true;
      }
      if syncPending {
        ok := SyncPolicies(from, marks, spare);
        if !ok {
          return;
        }
      }
      assert store == old(store);
      ghost var synced := Now();
      ok := FinishTransitions(from, marks, spare);
      ApplyingKeeps(checks, synced, store.bindings.Keys, Now());
      ApplyingRows(checks, synced, store.bindings.Keys, Now());
      if !ok {
        return;
      }
      ok := RetireAll(identities, from, marks, spare);
    }

    // ----- Renaming a policy -----

    method NextRenamed(b: Binding, oldName: string, document: Policy) returns (r: Option<Binding>)
      requires Standing() && b.id in store.bindings && store.bindings[b.id] == b && b.HasPolicy(oldName)
      requires document.name !in store.policies && oldName in store.policies
      ensures r.Some? ==> RenameUpdate(rules, store, oldName, document, b, r.value)
                          && r.value.policies == r.value.effective.Names()
      ensures reliable && RecomposesRenamed(store, oldName, document, b) ==> r.Some?
    {
      var names := RenameIn(b.policies, oldName, document.name);
      var e := Compose(names, b.settings, Some(document));
      if e.None? {
        return None;
      }
      RenameUpdateReady(checks, Now(), oldName, document, b, e.value);
      r := Some(b.(policies := e.value.Names(), effective := e.value, revision := b.revision + 1, applied := false));
    }

    /** The binding's selection still composes once the policy has its new name. */
    ghost predicate RecomposesRenamed(s: Store, oldName: string, document: Policy, b: Binding) {
      var m, names := s.policies[document.name := document], RenameIn(b.policies, oldName, document.name);
      Known(m, names) && rules.compose(Documents(m, names), b.settings).Some?
    }

    ghost predicate AllRecompose(oldName: string, document: Policy)
      reads this
    {
      forall id | id in SelectedBy(store, oldName) :: RecomposesRenamed(store, oldName, document, store.bindings[id])
    }

    ghost predicate RenamedBut(oldName: string, document: Policy, updates: map<string, Binding>, rest: set<string>)
      reads this
    {
      && (forall id | id in updates ::
            id in store.bindings && RenameUpdate(rules, store, oldName, document, store.bindings[id], updates[id]))
      && (forall id | id in store.bindings && store.bindings[id].HasPolicy(oldName) && id !in rest :: id in updates)
    }

    /** The rows that a rename moves on: those that select the old name, and no other. */
    method RenamedBindings(oldName: string, document: Policy) returns (r: Option<map<string, Binding>>)
      requires Standing() && ValidName(document.name)
      requires document.name !in store.policies && oldName in store.policies
      ensures r.Some? ==> RenameReady(rules, store, oldName, document, r.value) && Consistent(r.value)
      ensures r.Some? ==> r.value.Keys == SelectedBy(store, oldName)
      ensures reliable && AllRecompose(oldName, document) ==> r.Some?
    {
      var updates: map<string, Binding> := map[];
      var rest := store.bindings.Keys;
      while rest != {}
        invariant rest <= store.bindings.Keys && RenamedBut(oldName, document, updates, rest) && Consistent(updates)
        invariant forall id | id in updates :: id in SelectedBy(store, oldName)
        decreases |rest|
      {
        var id :| id in rest;
        var b := store.bindings[id];
        if b.HasPolicy(oldName) {
          StoredIsConsistent(checks, Now(), id);
          var next := NextRenamed(b, oldName, document);
          if next.None? {
            return None;
          }
          updates := updates[id := next.value];
        }
        rest := rest - {id};
      }
      r := Some(updates);
    }

    /** The document takes the next generation of a name that no row has. */
    ghost predicate Unused(document: Policy)
      reads this
    {
      && ValidName(document.name) && document.name !in store.policies
      && document.generation == NextGeneration(store, document.name)
    }

    /** The document's identity is in OpenBao with its published text. */
    ghost predicate HasPublished(document: Policy)
      reads this
    {
      document.Identity() in bao.policies && bao.policies[document.Identity()] == rules.publish(document)
    }

    /** Puts the new text into OpenBao, with a durable record of it in place first. */
    method PublishRenamed(document: Policy, ghost from: nat, ghost marks: set<string>, ghost wide: set<string>)
      returns (ok: bool, ghost publication: Option<Answer>)
      requires Valid() && Unused(document) && Clean(from, wide, None) && marks <= wide
      requires document.Identity() in marks ==> document.Identity() !in bao.policies
      modifies this`store, this`bao, this`trail
      ensures Valid() && old(trail) <= trail && Clean(from, marks, None)
      ensures publication != Some(Invalid) ==> Clean(from, wide, None)
      ensures store == old(store).(retirements := store.retirements)
      ensures ok ==> HasPublished(document) && publication == Some(Done)
      ensures publication == Some(Unknown) ==> document.Identity() in store.retirements || document.Identity() !in bao.policies
      ensures publication == Some(Invalid) ==> bao == old(bao)
      ensures reliable ==> ok
    {
      var identity := document.Identity();
      publication := None;
      RecordTraces(checks, Now(), identity, wide);
      RetirementStep(checks, Now(), RecordRetirement(store, identity));
      ok := Commit(RecordRetirement(store, identity));
      NarrowerTraces(checks, trail, from, wide, marks);
      if ok {
        ok, publication := PublishRecorded(document, from, marks, wide);
      }
    }

    method PublishRecorded(document: Policy, ghost from: nat, ghost marks: set<string>, ghost wide: set<string>)
      returns (ok: bool, ghost publication: Option<Answer>)
      requires Valid() && Unused(document) && Clean(from, wide, None) && marks <= wide
      requires document.Identity() in marks ==> document.Identity() !in bao.policies
      requires document.Identity() in store.retirements
      modifies this`store, this`bao, this`trail
      ensures Valid() && old(trail) <= trail && Clean(from, marks, None)
      ensures publication != Some(Invalid) ==> Clean(from, wide, None)
      ensures store == old(store).(retirements := store.retirements)
      ensures ok ==> HasPublished(document) && publication == Some(Done)
      ensures publication == Some(Unknown) ==> document.Identity() in store.retirements || document.Identity() !in bao.policies
      ensures publication == Some(Invalid) ==> bao == old(bao)
      ensures reliable ==> ok
    {
      var identity := document.Identity();
      var next := Publishing(bao, rules, document);
      RecordedWriteTraces(checks, Now(), identity, rules.publish(document), wide);
      if !syncPending {
        UnheldWriteAgrees(checks, Now(), document.name, document.generation, next);
      }
      var answer := WritePolicy(identity, rules.publish(document));
      publication := Some(answer);
      assert bao == next || (answer != Done && bao == old(bao));
      NarrowerTraces(checks, trail, from, wide, marks);
      ok := answer.Done?;
      if !ok {
        Undo(document, answer, from, marks, wide);
      }
    }

    /** A rejection wrote nothing, so the record goes; anything else may have written, so the identity goes too. */
    method Undo(document: Policy, answer: Answer, ghost from: nat, ghost marks: set<string>, ghost wide: set<string>)
      requires Valid() && Unused(document) && Clean(from, wide, None) && Clean(from, marks, None) && marks <= wide
      requires answer.Invalid? && document.Identity() in marks ==> document.Identity() !in bao.policies
      requires document.Identity() in store.retirements && !answer.Done?
      modifies this`store, this`bao, this`trail
      ensures Valid() && old(trail) <= trail && Clean(from, marks, None)
      ensures !answer.Invalid? ==> Clean(from, wide, None)
      ensures store == old(store).(retirements := store.retirements)
      ensures !answer.Invalid? ==> document.Identity() in store.retirements || document.Identity() !in bao.policies
      ensures answer.Invalid? ==> bao == old(bao)
    {
      if answer.Invalid? {
        var forgotten := ForgetRetirement(document.Identity(), from, marks, None);
      } else {
        NextIsUnheld(checks, Now(), document.name);
        var removed := RemovePolicyIdentity(document.Identity(), from, wide, None);
        NarrowerTraces(checks, trail, from, wide, marks);
      }
    }

    /** After an ambiguous rename: committed if its row is there, otherwise its identity goes. */
    method SettleFailedRename(document: Policy, ghost from: nat, ghost marks: set<string>) returns (committed: bool)
      requires Valid() && Clean(from, marks, None) && ValidName(document.name)
      requires document.name in store.policies ==> store.policies[document.name] == document
      requires document.name !in store.policies ==> Unused(document)
      modifies this`store, this`bao, this`trail
      ensures Valid() && old(trail) <= trail && Clean(from, marks, None)
      ensures store == old(store).(retirements := store.retirements)
      ensures committed ==> document.name in store.policies && store == old(store)
      ensures document.Identity() in old(store.retirements) && document.name !in store.policies ==>
                document.Identity() in store.retirements || document.Identity() !in bao.policies
      ensures reliable ==> (committed <==> document.name in store.policies) && (committed || document.Identity() !in bao.policies)
    {
      var read := Succeeds();
      if !read {
        return false;
      }
      if document.name in store.policies && store.policies[document.name].generation == document.generation {
        return true;
      }
      NextIsUnheld(checks, Now(), document.name);
      var removed := RemovePolicyIdentity(document.Identity(), from, marks, None);
      committed := false;
    }

    /** The one transaction of a rename. On success its bindings' assignments are the new ones. */
    method CommitRename(oldName: string, document: Policy, updates: map<string, Binding>, ghost from: nat, ghost marks: set<string>)
      returns (ok: bool)
      requires Valid() && Clean(from, marks, None) && Unused(document) && HasPublished(document)
      requires RenameReady(rules, store, oldName, document, updates) && updates.Keys == SelectedBy(store, oldName)
      requires oldName in store.policies && document.revision == store.policies[oldName].revision + 1
      modifies this`store, this`bao, this`trail
      ensures Valid() && old(trail) <= trail && Clean(from, marks, None)
      ensures ok ==> Transactions.RenamePolicy(old(store), oldName, document, updates) == Some(store) && AppliedBut(store, updates, updates.Keys, true)
      ensures !ok ==> store.policies == old(store.policies) || store.policies == old(store.policies)[document.name := document] - {oldName}
      ensures reliable ==> ok
    {
      RenameCommits(checks, store, oldName, document, updates);
      var next := Transactions.RenamePolicy(store, oldName, document, updates).value;
      RenameStep(checks, Now(), oldName, document, updates, next);
      RenameTraces(checks, Now(), oldName, document, updates, next, marks);
      if !syncPending {
        RenameAgrees(checks, Now(), oldName, document, updates, next);
      }
      assert document.name in next.policies && next.policies[document.name] == document;
      ok := Commit(next);
      if !ok {
        ok := SettleFailedRename(document, from, marks);
      }
    }

    /** Applies the renamed assignments and retires the old identity. */
    method FinishRename(updates: map<string, Binding>, ghost from: nat, ghost marks: set<string>) returns (outcome: Outcome)
      requires Valid() && Clean(from, marks, None) && AppliedBut(store, updates, updates.Keys, true)
      requires reliable ==> Consistent(updates)
      modifies this`store, this`bao, this`syncPending, this`trail
      ensures Valid() && old(trail) <= trail && Clean(from, marks, Some(old(|trail|)))
      ensures outcome != Failed && store.policies == old(store.policies) && SameRows(old(store), store)
      ensures outcome.Completed? ==> store.retirements == {} && Gone(old(store.retirements))
      ensures outcome.Completed? && old(store.retirements) != {} ==> AllApplied() && !syncPending
      ensures reliable ==> outcome.Completed?
    {
      var applied := ApplyAll(updates);
      ApplyingKeeps(checks, old(Now()), updates.Keys, Now());
      ApplyingRows(checks, old(Now()), updates.Keys, Now());
      CleanApplying(checks, old(trail), trail, updates.Keys, from, marks, Some(old(|trail|)));
      if !applied {
        return Pending;
      }
      ghost var was := store;
      var settled := SettleRetirements(from, marks, Some(old(|trail|)));
      SameRowsThen(old(store), was, store);
      outcome := if settled then Completed else Pending;
    }

    /** From some entry on at which these were the policies, only identities that nothing depends on were deleted. */
    ghost predicate SparedSince(first: nat, policies: map<string, Policy>)
      reads this
    {
      exists c | 0 < c && first <= c <= |trail| :: trail[c - 1].store.policies == policies && checks.SafeSince(trail, c)
    }

    /**
     * A rejected publication changed nothing but records, and left the new identity an
     * orphan exactly if OpenBao already had it and its record has ended.
     */
    ghost predicate Rejected(d: Durable, newName: string)
      reads this
    {
      var identity := OpenBaoPolicyName(newName, NextGeneration(d.store, newName));
      && bao == d.bao && store == d.store.(retirements := store.retirements)
      && (checks.traced(Now(), {identity}) <==> identity !in d.bao.policies || identity in store.retirements)
    }

    /** Gives a policy, if it still is what the caller saw, another name and a fresh identity. */
    method RenamePolicy(name: string, newName: string, revision: int, generation: int)
      returns (outcome: Outcome, ghost publication: Option<Answer>)
      requires Valid()
      modifies this`store, this`bao, this`syncPending, this`trail
      ensures Valid() && old(trail) <= trail
      ensures checks.TracedSince(trail, old(|trail|), RenameMarks(old(store), old(bao), name, newName))
      ensures publication != Some(Invalid) ==>
                checks.TracedSince(trail, old(|trail|), RecordedMarks(old(store), old(bao), name, newName))
      ensures publication == Some(Invalid) ==> outcome.Failed? && Rejected(old(Now()), newName)
      ensures !outcome.Failed? && name != newName ==> publication == Some(Done)
      ensures outcome.Failed? ==>
                || store.policies == old(store.policies)
                || (name in old(store.policies)
                    && store.policies == old(store.policies)[newName := Renamed(old(store), name, newName)] - {name})
      ensures !outcome.Failed? && name != newName ==>
                && name in old(store.policies) && newName !in old(store.policies)
                && store.policies == old(store.policies)[newName := Renamed(old(store), name, newName)] - {name}
      ensures !outcome.Failed? && name != newName ==> MembershipsMoved(old(store), store, name, newName)
      ensures !outcome.Failed? && name != newName ==> SparedSince(old(|trail|), store.policies)
      ensures outcome.Completed? && name != newName ==>
                AllApplied() && !syncPending && store.retirements == {} && old(store).policies[name].Identity() !in bao.policies
      ensures reliable && Renamable(old(store), name, newName, revision, generation) ==> outcome.Completed?
    {
      var read := Succeeds();
      if !ValidName(name) || !read || name !in store.policies || !ValidName(newName) {
        if name in store.policies {
          StoredName(checks, Now(), name);
        }
        return Failed, None;
      }
      if newName == name {
        return Completed, None;
      }
      var stored := store.policies[name];
      if revision != stored.revision || generation != stored.generation || newName in store.policies {
        return Failed, None;
      }
      var document := Renamed(store, name, newName);
      var updates := RenamedBindings(name, document);
      if updates.None? {
        return Failed, None;
      }
      var fits := Succeeds();
      if !fits {
        return Failed, None;
      }
      outcome, publication := PublishAndRename(name, document, updates.value, RenameMarks(store, bao, name, newName),
                                               RecordedMarks(store, bao, name, newName));
    }

    ghost predicate Renamable(s: Store, name: string, newName: string, revision: int, generation: int) {
      && ValidName(newName) && name in s.policies && newName !in s.policies
      && revision == s.policies[name].revision && generation == s.policies[name].generation
      && forall id | id in SelectedBy(s, name) :: RecomposesRenamed(s, name, Renamed(s, name, newName), s.bindings[id])
    }

    method PublishAndRename(name: string, document: Policy, updates: map<string, Binding>, ghost marks: set<string>,
                            ghost wide: set<string>)
      returns (outcome: Outcome, ghost publication: Option<Answer>)
      requires Valid() && Unused(document) && name in store.policies && document == Renamed(store, name, document.name)
      requires RenameReady(rules, store, name, document, updates) && updates.Keys == SelectedBy(store, name) && Consistent(updates)
      requires marks == RenameMarks(store, bao, name, document.name) && wide == RecordedMarks(store, bao, name, document.name)
      modifies this`store, this`bao, this`syncPending, this`trail
      ensures Valid() && old(trail) <= trail && checks.TracedSince(trail, old(|trail|), marks)
      ensures publication != Some(Invalid) ==> checks.TracedSince(trail, old(|trail|), wide)
      ensures publication == Some(Invalid) ==> outcome.Failed? && Rejected(old(Now()), document.name)
      ensures !outcome.Failed? ==> publication == Some(Done)
      ensures outcome.Failed? ==>
                store.policies == old(store.policies) || store.policies == old(store.policies)[document.name := document] - {name}
      ensures !outcome.Failed? ==> store.policies == old(store.policies)[document.name := document] - {name}
      ensures !outcome.Failed? ==> MembershipsMoved(old(store), store, name, document.name)
      ensures !outcome.Failed? ==> SparedSince(old(|trail|), store.policies)
      ensures outcome.Completed? ==>
                AllApplied() && !syncPending && store.retirements == {} && old(store).policies[name].Identity() !in bao.policies
      ensures reliable ==> outcome.Completed?
    {
      RenameStarts(checks, Now(), name, document, marks, wide);
      var published;
      published, publication := PublishRenamed(document, |trail|, marks, wide);
      if !published {
        if publication == Some(Invalid) {
          RejectedRenameTraces(checks, old(Now()), Now(), document.name);
        }
        return Failed, publication;
      }
      RenameReadyElsewhere(checks, old(store), store, name, document, updates);
      outcome := CommitAndFinish(name, document, updates, old(|trail|), wide);
      NarrowerTraces(checks, trail, old(|trail|), wide, marks);
    }

    method CommitAndFinish(name: string, document: Policy, updates: map<string, Binding>, ghost from: nat, ghost marks: set<string>)
      returns (outcome: Outcome)
      requires Valid() && Clean(from, marks, None) && Unused(document) && HasPublished(document)
      requires RenameReady(rules, store, name, document, updates) && updates.Keys == SelectedBy(store, name) && Consistent(updates)
      requires name in store.policies && document.revision == store.policies[name].revision + 1
      modifies this`store, this`bao, this`syncPending, this`trail
      ensures Valid() && old(trail) <= trail && Clean(from, marks, None)
      ensures outcome.Failed? ==>
                store.policies == old(store.policies) || store.policies == old(store.policies)[document.name := document] - {name}
      ensures !outcome.Failed? ==> store.policies == old(store.policies)[document.name := document] - {name}
      ensures !outcome.Failed? ==> MembershipsMoved(old(store), store, name, document.name)
      ensures !outcome.Failed? ==> SparedSince(old(|trail|), store.policies)
      ensures outcome.Completed? ==>
                AllApplied() && !syncPending && store.retirements == {} && old(store).policies[name].Identity() !in bao.policies
      ensures reliable ==> outcome.Completed?
    {
      var committed := CommitRename(name, document, updates, from, marks);
      if !committed {
        return Failed;
      }
      ghost var renamed, done := store, trail;
      OldIsUnheld(checks, old(Now()), Now(), name, document, updates);
      outcome := FinishRename(updates, from, marks);
      assert trail[|done| - 1] == done[|done| - 1];
      MembershipsFollow(old(store), renamed, store, name, document, updates);
      StillUnheld(renamed, store, old(store).policies[name].Identity());
    }

    // ----- The consumer of retirement records, and startup -----

    /** One pass deletes only identities that no stored policy holds and no existing role of a stored binding names. */
    method RetirePolicies() returns (ok: bool)
      requires Valid()
      modifies this`store, this`bao, this`syncPending, this`trail
      ensures Valid() && old(trail) <= trail && checks.SafeSince(trail, old(|trail|))
      ensures store == old(store).(bindings := store.bindings, retirements := store.retirements) && SameRows(old(store), store)
      ensures ok ==> store.retirements == {} && Gone(old(store.retirements))
      ensures reliable ==> ok
    {
      NoMarks();
      ok := SettleRetirements(|trail|, {}, Some(|trail|));
    }

    /** What a start does first: publish every row, then apply every binding. */
    method ReconcileBindings() returns (ok: bool)
      requires Standing()
      modifies this`store, this`bao, this`syncPending, this`trail
      ensures Valid() && old(trail) <= trail
      ensures store == old(store).(bindings := store.bindings) && SameRows(old(store), store)
      ensures ok ==> AllApplied() && !syncPending
      ensures reliable ==> ok
    {
      NoMarks();
      ok := SyncPolicies(|trail|, {}, Some(|trail|));
      assert SameRows(store, store);
      if !ok {
        return;
      }
      ghost var synced := Now();
      ok := FinishTransitions(old(|trail|), {}, Some(old(|trail|)));
      ApplyingKeeps(checks, synced, store.bindings.Keys, Now());
      ApplyingRows(checks, synced, store.bindings.Keys, Now());
    }

    /** A crash at some durable write: memory is lost, and startup works from what was durable then. */
    method Restart(entry: nat) returns (ok: bool)
      requires Standing() && entry < |trail|
      modifies this`store, this`bao, this`syncPending, this`trail
      ensures Valid() && old(trail)[..entry + 1] <= trail
      ensures store == old(trail)[entry].store.(bindings := store.bindings) && SameRows(old(trail)[entry].store, store)
      ensures ok ==> AllApplied() && !syncPending
      ensures reliable ==> ok
    {
      store, bao, trail, syncPending := trail[entry].store, trail[entry].bao, trail[..entry + 1], false;
      ok := ReconcileBindings();
    }

    method SetReliable(value: bool)
      modifies this`reliable
      ensures reliable == value
    {
      reliable := value;
    }
  }
}
