/**
 * Histories of the durable state: what one step may do, and what a run of steps keeps.
 * A history has one entry per durable write, so every entry is a point at which
 * the controller may crash.
 *
 * How the controller's sections are proved. What must hold of an entry (`Sound`), of
 * two neighbours (`Follows`, `SafeDeletion`) and of an entry against the section's
 * start (`Applying`, `Confined`) are quantified statements over all rows. Unfolding
 * them at each of a section's writes would drown the proof, so a section sees them
 * only as the function values of a `Checks`: it can pass `checks.sound(d)` on but not
 * look inside. `Faithful` says that each value means its predicate, and does so only
 * for entries that are named by one of the `Opened...` markers, which is what the
 * `Open...` lemmas do.
 *
 * One step as an example. To write a policy's text, a section must show that the state
 * after the write is sound. It calls `PolicyWriteSound(checks, Now(), next)`, whose
 * contract speaks of `checks.sound` only. Inside, that lemma calls `OpenEntry` for the
 * two states, which turns `checks.sound` into `Sound` on both; `Sound` looks at roles,
 * the write left them alone, and the solver sees that the second follows from the
 * first. Back in the section, `Send` appends the entry, and `Recorded` grows by one.
 */
module History {
  import opened Basics
  import opened Naming
  import opened Composition
  import opened Records
  import opened Storage
  import opened Transactions

  // ----- Applying assignments -----

  ghost predicate RowApplying(b: Binding, b': Binding, mine: bool) { b' == b || (mine && b' == b.(applied := true)) }

  ghost predicate SameRole(bao: Bao, bao': Bao, role: string) {
    (role in bao.roles <==> role in bao'.roles) && (role in bao.roles ==> bao.roles[role] == bao'.roles[role])
  }

  /** From `d` to `e` only the bindings in `ids` were applied, and only their roles were written. */
  ghost predicate Applying(d: Durable, ids: set<string>, e: Durable) {
    && e.store == d.store.(bindings := e.store.bindings) && e.store.bindings.Keys == d.store.bindings.Keys
    && e.bao.policies == d.bao.policies
    && (forall id | id in d.store.bindings :: RowApplying(d.store.bindings[id], e.store.bindings[id], id in ids))
    && (forall id | id in d.store.bindings && id !in ids :: SameRole(d.bao, e.bao, d.store.bindings[id].role))
  }

  // ----- What a section leaves alone -----

  ghost predicate SameBinding(s: Store, t: Store, id: string) {
    (id in s.bindings <==> id in t.bindings) && (id in s.bindings ==> t.bindings[id] == s.bindings[id])
  }

  ghost predicate SamePolicy(s: Store, t: Store, name: string) {
    (name in s.policies <==> name in t.policies) && (name in s.policies ==> t.policies[name] == s.policies[name])
  }

  ghost predicate SamePublication(bao: Bao, bao': Bao, identity: string) {
    && (identity in bao.policies <==> identity in bao'.policies)
    && (identity in bao.policies ==> bao.policies[identity] == bao'.policies[identity])
  }

  /**
   * From `d` to `e` every binding outside `ids` kept its row and its role, and
   * every policy outside `names` kept its row and its publication.
   */
  ghost predicate Confined(d: Durable, ids: set<string>, names: set<string>, e: Durable) {
    && (forall id | id !in ids :: SameBinding(d.store, e.store, id))
    && (forall n | n !in names :: SamePolicy(d.store, e.store, n))
    && (forall id | id in d.store.bindings && id !in ids :: SameRole(d.bao, e.bao, d.store.bindings[id].role))
    && (forall n | n in d.store.policies && n !in names :: SamePublication(d.bao, e.bao, d.store.policies[n].Identity()))
  }

  // ----- What becomes of an OpenBao identity -----

  /** Some stored binding's existing role names the identity. */
  ghost predicate Named(d: Durable, identity: string) {
    exists id | id in d.store.bindings ::
      d.store.bindings[id].role in d.bao.roles && identity in d.bao.roles[d.store.bindings[id].role].policies
  }

  /** Only identities that nothing depends on left OpenBao. */
  ghost predicate SafeDeletion(d: Durable, e: Durable) {
    forall x | x in d.bao.policies && x !in e.bao.policies :: !Held(d.store, x) && !Named(d, x)
  }

  /** An identity in OpenBao belongs to a stored policy or has a durable retirement record. */
  ghost predicate Traced(d: Durable, marks: set<string>) {
    forall x | x in marks && x in d.bao.policies :: Held(d.store, x) || x in d.store.retirements
  }

  // ----- The predicates of a history, as values -----

  ghost predicate Opened(d: Durable) { true }
  ghost predicate OpenedStep(s: Store, t: Store) { true }
  ghost predicate OpenedPair(d: Durable, e: Durable) { true }

  /**
   * What a history is checked with. Sections of the controller pass these
   * predicates along unopened; the lemmas below open them where they matter.
   */
  datatype Checks = Checks(
    rules: Rules, sound: Durable -> bool, agree: Durable -> bool, follows: (Store, Store) -> bool,
    applying: (Durable, set<string>, Durable) -> bool,
    confined: (Durable, set<string>, set<string>, Durable) -> bool,
    safe: (Durable, Durable) -> bool, traced: (Durable, set<string>) -> bool,
    published: (Durable, set<string>) -> bool)
  {
    ghost predicate Faithful() {
      && rules.Lawful()
      && (forall d: Durable {:trigger Opened(d)} :: (sound(d) <==> Sound(rules, d)) && (agree(d) <==> Agree(rules, d)))
      && (forall d: Durable, marks: set<string> {:trigger Opened(d), traced(d, marks)} :: traced(d, marks) <==> Traced(d, marks))
      && (forall d: Durable, names: set<string> {:trigger Opened(d), published(d, names)} ::
            published(d, names) <==> Published(rules, d, names))
      && (forall s: Store, t: Store {:trigger OpenedStep(s, t)} :: follows(s, t) <==> Follows(s, t))
      && (forall d: Durable, e: Durable {:trigger OpenedPair(d, e)} :: safe(d, e) <==> SafeDeletion(d, e))
      && (forall d: Durable, ids: set<string>, e: Durable {:trigger OpenedPair(d, e), applying(d, ids, e)} ::
            applying(d, ids, e) <==> Applying(d, ids, e))
      && (forall d: Durable, ids: set<string>, names: set<string>, e: Durable
            {:trigger OpenedPair(d, e), confined(d, ids, names, e)} ::
            confined(d, ids, names, e) <==> Confined(d, ids, names, e))
    }

    /** Every entry is sound and the stores follow the generation discipline. */
    ghost predicate Recorded(trail: seq<Durable>) {
      && trail != [] && (forall i | 0 <= i < |trail| :: sound(trail[i]))
      && (forall i | 0 < i < |trail| :: follows(trail[i - 1].store, trail[i].store))
    }

    /** Every entry from `from` on came from `d` by applying bindings in `ids`. */
    ghost predicate ApplyingSince(trail: seq<Durable>, from: nat, d: Durable, ids: set<string>) {
      forall i | from <= i < |trail| :: applying(d, ids, trail[i])
    }

    /** Every entry from `from` on left alone what lies outside `ids` and `names`. */
    ghost predicate ConfinedSince(trail: seq<Durable>, from: nat, d: Durable, ids: set<string>, names: set<string>) {
      forall i | from <= i < |trail| :: confined(d, ids, names, trail[i])
    }

    /** Every step that made an entry from `from` on deleted only what nothing depends on. */
    ghost predicate SafeSince(trail: seq<Durable>, from: nat) {
      0 < from && forall i | from <= i < |trail| :: safe(trail[i - 1], trail[i])
    }

    ghost predicate TracedSince(trail: seq<Durable>, from: nat, marks: set<string>) {
      forall i | from <= i < |trail| :: traced(trail[i], marks)
    }
  }

  ghost function ChecksOf(rules: Rules): Checks {
    Checks(rules, d => Sound(rules, d), d => Agree(rules, d), (s, t) => Follows(s, t),
           (d, ids, e) => Applying(d, ids, e), (d, ids, names, e) => Confined(d, ids, names, e),
           (d, e) => SafeDeletion(d, e), (d, marks) => Traced(d, marks), (d, names) => Published(rules, d, names))
  }

  /** Lawful rules always have faithful checks. */
  lemma ChecksExist(rules: Rules)
    requires rules.Lawful()
    ensures ChecksOf(rules).Faithful() && ChecksOf(rules).rules == rules
  {
  }

  lemma OpenEntry(k: Checks, d: Durable)
    requires k.Faithful()
    ensures (k.sound(d) <==> Sound(k.rules, d)) && (k.agree(d) <==> Agree(k.rules, d))
  {
    assert Opened(d);
  }

  lemma OpenTraced(k: Checks, d: Durable, marks: set<string>)
    requires k.Faithful()
    ensures k.traced(d, marks) <==> Traced(d, marks)
  {
    assert Opened(d);
  }

  lemma OpenStep(k: Checks, s: Store, t: Store)
    requires k.Faithful()
    ensures k.follows(s, t) <==> Follows(s, t)
  {
    assert OpenedStep(s, t);
  }

  lemma OpenSafe(k: Checks, d: Durable, e: Durable)
    requires k.Faithful()
    ensures k.safe(d, e) <==> SafeDeletion(d, e)
  {
    assert OpenedPair(d, e);
  }

  lemma OpenApplying(k: Checks, d: Durable, ids: set<string>, e: Durable)
    requires k.Faithful()
    ensures k.applying(d, ids, e) <==> Applying(d, ids, e)
  {
    assert OpenedPair(d, e);
  }

  lemma OpenConfined(k: Checks, d: Durable, ids: set<string>, names: set<string>, e: Durable)
    requires k.Faithful()
    ensures k.confined(d, ids, names, e) <==> Confined(d, ids, names, e)
  {
    assert OpenedPair(d, e);
  }

  function Stores(trail: seq<Durable>): seq<Store> { seq(|trail|, i requires 0 <= i < |trail| => trail[i].store) }

  /**
   * In every history, an OpenBao identity that a stored policy gave up, by a
   * deletion or a rename, is never held by a stored policy again.
   */
  lemma IdentityIsNeverReused(k: Checks, trail: seq<Durable>, identity: string, i: nat, j: nat, n: nat)
    requires k.Faithful() && k.Recorded(trail) && i <= j <= n < |trail|
    requires Held(trail[i].store, identity) && !Held(trail[j].store, identity)
    ensures !Held(trail[n].store, identity)
  {
    var run := Stores(trail);
    forall m | 0 <= m < |run| ensures StoreOk(k.rules, run[m]) && (m > 0 ==> Follows(run[m - 1], run[m])) {
      OpenEntry(k, trail[m]);
      if m > 0 {
        assert k.follows(trail[m - 1].store, trail[m].store);
        OpenStep(k, run[m - 1], run[m]);
      }
    }
    IdentityNeverReturns(k.rules, run, identity, i, j, n);
  }

  /** In every entry of a history, each stored assignment is a fresh composition of its stored policies. */
  lemma AssignmentsStayFresh(k: Checks, trail: seq<Durable>, n: nat, id: string)
    requires k.Faithful() && k.Recorded(trail) && n < |trail| && id in trail[n].store.bindings
    ensures Fresh(k.rules, trail[n].store.policies, trail[n].store.bindings[id])
  {
    OpenEntry(k, trail[n]);
    assert BindingOk(k.rules, trail[n].store.policies, id, trail[n].store.bindings[id]);
  }

  lemma NothingFollows(k: Checks, d: Durable)
    requires k.Faithful() && k.sound(d)
    ensures k.follows(d.store, d.store)
  {
    OpenEntry(k, d);
    OpenStep(k, d.store, d.store);
    SameDocumentsFollow(k.rules, d.store, d.store);
  }

  lemma ApplyingNothing(k: Checks, d: Durable, ids: set<string>)
    requires k.Faithful()
    ensures k.applying(d, ids, d)
  {
    OpenApplying(k, d, ids, d);
  }

  lemma ApplyingThen(k: Checks, d: Durable, ids: set<string>, e: Durable, ids': set<string>, f: Durable)
    requires k.Faithful() && k.applying(d, ids, e) && k.applying(e, ids', f) && ids' <= ids
    ensures k.applying(d, ids, f)
  {
    OpenApplying(k, d, ids, e);
    OpenApplying(k, e, ids', f);
    OpenApplying(k, d, ids, f);
    forall id | id in d.store.bindings
      ensures RowApplying(d.store.bindings[id], f.store.bindings[id], id in ids)
    {
      assert RowApplying(d.store.bindings[id], e.store.bindings[id], id in ids);
      assert RowApplying(e.store.bindings[id], f.store.bindings[id], id in ids');
    }
    forall id | id in d.store.bindings && id !in ids ensures SameRole(d.bao, f.bao, d.store.bindings[id].role) {
      assert RowApplying(d.store.bindings[id], e.store.bindings[id], false);
      assert SameRole(d.bao, e.bao, d.store.bindings[id].role) && SameRole(e.bao, f.bao, e.store.bindings[id].role);
    }
  }

  /** Writing or deleting one binding's own role leaves every other binding's role alone. */
  lemma OwnRole(rules: Rules, d: Durable, id: string, bao': Bao)
    requires StoreOk(rules, d.store) && id in d.store.bindings && bao'.policies == d.bao.policies
    requires forall r | r != d.store.bindings[id].role :: SameRole(d.bao, bao', r)
    ensures Applying(d, {id}, Durable(d.store, bao'))
  {
    var b := d.store.bindings[id];
    forall other | other in d.store.bindings && other != id ensures SameRole(d.bao, bao', d.store.bindings[other].role) {
      assert BindingOk(rules, d.store.policies, id, b);
      assert BindingOk(rules, d.store.policies, other, d.store.bindings[other]);
      if d.store.bindings[other].role == b.role {
        RoleNameInjective(b.agent, id, d.store.bindings[other].agent, other);
      }
    }
  }

  /** A role may change while its binding is not applied, and may always become its assignment's or go away. */
  lemma OwnRoleSound(rules: Rules, d: Durable, id: string, bao': Bao)
    requires Sound(rules, d) && id in d.store.bindings && bao'.policies == d.bao.policies
    requires forall r | r != d.store.bindings[id].role :: SameRole(d.bao, bao', r)
    requires d.store.bindings[id].role in bao'.roles ==>
               !d.store.bindings[id].applied || bao'.roles[d.store.bindings[id].role] == RoleOf(d.store.bindings[id])
    ensures Sound(rules, Durable(d.store, bao')) && Applying(d, {id}, Durable(d.store, bao'))
  {
    OwnRole(rules, d, id, bao');
    forall other | other in d.store.bindings && d.store.bindings[other].applied && d.store.bindings[other].role in bao'.roles
      ensures bao'.roles[d.store.bindings[other].role] == RoleOf(d.store.bindings[other])
    {
      if other != id {
        assert SameRole(d.bao, bao', d.store.bindings[other].role);
      }
    }
  }

  lemma RoleWritten(k: Checks, d: Durable, id: string, bao': Bao)
    requires k.Faithful() && k.sound(d) && id in d.store.bindings && bao'.policies == d.bao.policies
    requires forall r | r != d.store.bindings[id].role :: SameRole(d.bao, bao', r)
    requires d.store.bindings[id].role in bao'.roles ==>
               !d.store.bindings[id].applied || bao'.roles[d.store.bindings[id].role] == RoleOf(d.store.bindings[id])
    ensures k.sound(Durable(d.store, bao')) && k.applying(d, {id}, Durable(d.store, bao'))
  {
    OpenEntry(k, d);
    OpenEntry(k, Durable(d.store, bao'));
    OpenApplying(k, d, {id}, Durable(d.store, bao'));
    OwnRoleSound(k.rules, d, id, bao');
  }

  /** Soundness speaks of roles only. */
  lemma PolicyWriteSound(k: Checks, d: Durable, bao': Bao)
    requires k.Faithful() && k.sound(d) && bao'.roles == d.bao.roles
    ensures k.sound(Durable(d.store, bao'))
  {
    OpenEntry(k, d);
    OpenEntry(k, Durable(d.store, bao'));
  }

  lemma MarkingApplies(d: Durable, id: string)
    requires id in d.store.bindings
    ensures Applying(d, {id}, Durable(MarkApplied(d.store, id), d.bao))
  {
  }

  lemma ApplyStep(k: Checks, d: Durable, id: string)
    requires k.Faithful() && k.sound(d) && id in d.store.bindings
    requires var b := d.store.bindings[id]; b.role in d.bao.roles ==> d.bao.roles[b.role] == RoleOf(b)
    ensures var s := MarkApplied(d.store, id);
            k.sound(Durable(s, d.bao)) && k.follows(d.store, s) && k.applying(d, {id}, Durable(s, d.bao))
  {
    var s := MarkApplied(d.store, id);
    OpenEntry(k, d);
    ApplyKeeps(k.rules, d.store, d.bao, id);
    MarkingApplies(d, id);
    OpenEntry(k, Durable(s, d.bao));
    OpenStep(k, d.store, s);
    OpenApplying(k, d, {id}, Durable(s, d.bao));
  }

  // ----- Sequences of steps -----

  lemma ApplyingSinceThen(k: Checks, trail: seq<Durable>, from: nat, d: Durable, ids: set<string>, later: seq<Durable>,
                          ids': set<string>)
    requires k.Faithful() && from <= |trail| && trail != [] && trail <= later && ids' <= ids
    requires k.ApplyingSince(trail, from, d, ids) && k.applying(d, ids, trail[|trail| - 1])
    requires k.ApplyingSince(later, |trail|, trail[|trail| - 1], ids')
    ensures k.ApplyingSince(later, from, d, ids)
  {
    forall i | from <= i < |later| ensures k.applying(d, ids, later[i]) {
      if i < |trail| {
        assert later[i] == trail[i];
      } else {
        ApplyingThen(k, d, ids, trail[|trail| - 1], ids', later[i]);
      }
    }
  }

  lemma AppliedElsewhere(k: Checks, d: Durable, ids: set<string>, e: Durable, id: string)
    requires k.Faithful() && k.applying(d, ids, e) && id !in ids
    ensures SameBinding(d.store, e.store, id)
  {
    OpenApplying(k, d, ids, e);
    if id in d.store.bindings {
      assert RowApplying(d.store.bindings[id], e.store.bindings[id], false);
    }
  }

  lemma AppliedRow(k: Checks, d: Durable, ids: set<string>, e: Durable, id: string)
    requires k.Faithful() && k.applying(d, ids, e) && id in d.store.bindings
    ensures id in e.store.bindings && RowApplying(d.store.bindings[id], e.store.bindings[id], true)
  {
    OpenApplying(k, d, ids, e);
  }

  /** Applying bindings touches no policy, no retirement record and no publication. */
  lemma ApplyingKeeps(k: Checks, d: Durable, ids: set<string>, e: Durable)
    requires k.Faithful() && k.applying(d, ids, e)
    ensures e.store == d.store.(bindings := e.store.bindings) && e.bao.policies == d.bao.policies
    ensures e.store.bindings.Keys == d.store.bindings.Keys
    ensures k.agree(e) == k.agree(d)
  {
    OpenApplying(k, d, ids, e);
    OpenEntry(k, d);
    OpenEntry(k, e);
  }

  // ----- Publishing -----

  ghost predicate PublishedOne(rules: Rules, d: Durable, n: string)
    requires n in d.store.policies
  {
    var p := d.store.policies[n];
    p.Identity() in d.bao.policies && d.bao.policies[p.Identity()] == rules.publish(p)
  }

  /** These rows' identities hold their published text. */
  ghost predicate Published(rules: Rules, d: Durable, names: set<string>) {
    forall n | n in names && n in d.store.policies :: PublishedOne(rules, d, n)
  }

  function Publishing(bao: Bao, rules: Rules, p: Policy): Bao {
    bao.(policies := bao.policies[p.Identity() := rules.publish(p)])
  }

  lemma OpenPublished(k: Checks, d: Durable, names: set<string>)
    requires k.Faithful()
    ensures k.published(d, names) <==> Published(k.rules, d, names)
  {
    assert Opened(d);
  }

  lemma NothingPublished(k: Checks, d: Durable)
    requires k.Faithful()
    ensures k.published(d, {})
  {
    OpenPublished(k, d, {});
  }

  lemma PublishNext(k: Checks, d: Durable, done: set<string>, n: string)
    requires k.Faithful() && k.sound(d) && n in d.store.policies && k.published(d, done)
    ensures k.published(Durable(d.store, Publishing(d.bao, k.rules, d.store.policies[n])), done + {n})
  {
    OpenEntry(k, d);
    var e := Durable(d.store, Publishing(d.bao, k.rules, d.store.policies[n]));
    OpenPublished(k, d, done);
    OpenPublished(k, e, done + {n});
    forall m | m in done + {n} && m in e.store.policies ensures PublishedOne(k.rules, e, m) {
      if m != n {
        assert PolicyOk(d.store, m) && PolicyOk(d.store, n) && PublishedOne(k.rules, d, m);
        IdentitiesDiffer(d.store, m, n);
      }
    }
  }

  lemma PublishedAll(k: Checks, d: Durable)
    requires k.Faithful()
    ensures k.published(d, d.store.policies.Keys) <==> k.agree(d)
  {
    OpenEntry(k, d);
    OpenPublished(k, d, d.store.policies.Keys);
    if k.published(d, d.store.policies.Keys) {
      assert forall n | n in d.store.policies :: PublishedOne(k.rules, d, n);
    }
  }

  /** A publication of a stored row deletes nothing and leaves no orphan. */
  lemma PublishTraces(k: Checks, d: Durable, n: string, marks: set<string>)
    requires k.Faithful() && n in d.store.policies && k.traced(d, marks)
    ensures var e := Durable(d.store, Publishing(d.bao, k.rules, d.store.policies[n])); k.safe(d, e) && k.traced(e, marks)
  {
    var e := Durable(d.store, Publishing(d.bao, k.rules, d.store.policies[n]));
    OpenTraced(k, d, marks);
    OpenTraced(k, e, marks);
    OpenSafe(k, d, e);
  }

  lemma NothingDeleted(k: Checks, d: Durable, e: Durable)
    requires k.Faithful() && forall x | x in d.bao.policies :: x in e.bao.policies
    ensures k.safe(d, e)
  {
    OpenSafe(k, d, e);
  }

  // ----- The loop over computed assignments -----

  /** The bindings in `rest` are as computed; those before it were applied when `ok`. */
  ghost predicate AppliedBut(s: Store, updates: map<string, Binding>, rest: set<string>, ok: bool) {
    && (forall id | id in updates :: updates[id].id == id && id in s.bindings)
    && (forall id | id in updates && id in rest :: s.bindings[id] == updates[id])
    && (ok ==> forall id | id in updates && id !in rest :: s.bindings[id] == updates[id].(applied := true))
  }

  lemma AppliedNext(k: Checks, d: Durable, e: Durable, updates: map<string, Binding>, rest: set<string>, id: string,
                    sofar: bool, applied: bool)
    requires k.Faithful() && k.applying(d, {id}, e) && AppliedBut(d.store, updates, rest, sofar) && id in updates
    requires applied ==> id in e.store.bindings && e.store.bindings[id] == updates[id].(applied := true)
    ensures AppliedBut(e.store, updates, rest - {id}, sofar && applied)
  {
    ApplyingKeeps(k, d, {id}, e);
    forall other | other in updates && other != id ensures SameBinding(d.store, e.store, other) {
      AppliedElsewhere(k, d, {id}, e, other);
    }
  }

  // ----- Credentials -----

  datatype Credential = Credential(binding: string, assignment: (nat, Effective), role: string)

  /** The credential's role names exactly the identities of its assignment's stored policies, all of them published. */
  ghost predicate Backed(rules: Rules, d: Durable, c: Credential) {
    && c.binding in d.store.bindings
    && var b := d.store.bindings[c.binding];
       && b.applied && c.assignment == b.Assignment() && c.role == b.role && c.role in d.bao.roles
       && d.bao.roles[c.role] == RoleOf(b)
       && (forall x :: x in d.bao.roles[c.role].policies <==> SelectedIdentity(d.store, b, x))
       && Fresh(rules, d.store.policies, b) && Agree(rules, d)
  }

  /** One of the binding's stored policies is published under this identity. */
  ghost predicate SelectedIdentity(s: Store, b: Binding, identity: string) {
    exists n | n in b.policies :: n in s.policies && s.policies[n].Identity() == identity
  }

  lemma AppliedIsBacked(k: Checks, d: Durable, id: string)
    requires k.Faithful() && k.sound(d) && k.agree(d) && id in d.store.bindings
    requires d.store.bindings[id].applied && d.store.bindings[id].role in d.bao.roles
    ensures Backed(k.rules, d, Credential(id, d.store.bindings[id].Assignment(), d.store.bindings[id].role))
  {
    OpenEntry(k, d);
    var b := d.store.bindings[id];
    assert BindingOk(k.rules, d.store.policies, id, b);
    forall x ensures x in RoleOf(b).policies <==> SelectedIdentity(d.store, b, x) {
      RoleIdentities(k.rules, d.store.policies, b, x);
    }
  }

  lemma StoredIsConsistent(k: Checks, d: Durable, id: string)
    requires k.Faithful() && k.sound(d) && id in d.store.bindings
    ensures var b := d.store.bindings[id]; b.id == id && b.policies == b.effective.Names()
    ensures Fresh(k.rules, d.store.policies, d.store.bindings[id])
  {
    OpenEntry(k, d);
    assert BindingOk(k.rules, d.store.policies, id, d.store.bindings[id]);
  }

  // ----- Confinement -----

  lemma ConfinedNothing(k: Checks, d: Durable, ids: set<string>, names: set<string>)
    requires k.Faithful()
    ensures k.confined(d, ids, names, d)
  {
    OpenConfined(k, d, ids, names, d);
  }

  lemma ConfinedTransitive(d: Durable, ids: set<string>, names: set<string>, e: Durable, f: Durable)
    requires Confined(d, ids, names, e) && Confined(e, ids, names, f)
    ensures Confined(d, ids, names, f)
  {
    forall id | id !in ids ensures SameBinding(d.store, f.store, id) {
      assert SameBinding(d.store, e.store, id) && SameBinding(e.store, f.store, id);
    }
    forall n | n !in names ensures SamePolicy(d.store, f.store, n) {
      assert SamePolicy(d.store, e.store, n) && SamePolicy(e.store, f.store, n);
    }
    forall id | id in d.store.bindings && id !in ids ensures SameRole(d.bao, f.bao, d.store.bindings[id].role) {
      assert SameBinding(d.store, e.store, id);
    }
    forall n | n in d.store.policies && n !in names
      ensures SamePublication(d.bao, f.bao, d.store.policies[n].Identity())
    {
      assert SamePolicy(d.store, e.store, n);
    }
  }

  lemma ApplyingConfines(d: Durable, ids: set<string>, names: set<string>, e: Durable)
    requires Applying(d, ids, e)
    ensures Confined(d, ids, names, e)
  {
    forall id | id !in ids ensures SameBinding(d.store, e.store, id) {
      if id in d.store.bindings {
        assert RowApplying(d.store.bindings[id], e.store.bindings[id], false);
      }
    }
  }

  lemma ConfinedThen(k: Checks, d: Durable, ids: set<string>, names: set<string>, e: Durable, f: Durable)
    requires k.Faithful() && k.confined(d, ids, names, e) && k.confined(e, ids, names, f)
    ensures k.confined(d, ids, names, f)
  {
    OpenConfined(k, d, ids, names, e);
    OpenConfined(k, e, ids, names, f);
    OpenConfined(k, d, ids, names, f);
    ConfinedTransitive(d, ids, names, e, f);
  }

  lemma ApplyingIsConfined(k: Checks, d: Durable, ids: set<string>, names: set<string>, e: Durable)
    requires k.Faithful() && k.applying(d, ids, e)
    ensures k.confined(d, ids, names, e)
  {
    OpenApplying(k, d, ids, e);
    OpenConfined(k, d, ids, names, e);
    ApplyingConfines(d, ids, names, e);
  }

  /** Applying bindings in `ids` after a confined run is a confined run. */
  lemma ConfinedSinceApplying(k: Checks, trail: seq<Durable>, from: nat, d: Durable, ids: set<string>, names: set<string>,
                              later: seq<Durable>)
    requires k.Faithful() && trail != [] && trail <= later && k.ConfinedSince(trail, from, d, ids, names)
    requires k.confined(d, ids, names, trail[|trail| - 1]) && k.ApplyingSince(later, |trail|, trail[|trail| - 1], ids)
    ensures k.ConfinedSince(later, from, d, ids, names)
  {
    forall i | from <= i < |later| ensures k.confined(d, ids, names, later[i]) {
      if i < |trail| {
        assert later[i] == trail[i];
      } else {
        ApplyingIsConfined(k, trail[|trail| - 1], ids, names, later[i]);
        ConfinedThen(k, d, ids, names, trail[|trail| - 1], later[i]);
      }
    }
  }

  // ----- One binding's row -----

  /** A composed selection, ready to be stored. */
  lemma ComposedRow(k: Checks, d: Durable, names: seq<string>, settings: Settings, e: Effective, b: Binding)
    requires k.Faithful() && k.sound(d) && Resolves(k.rules, d.store.policies, names, settings, e)
    requires b.policies == e.Names() && b.settings == e.settings && b.effective == e
    ensures b.settings.Defaulted() && Fresh(k.rules, d.store.policies, b)
    ensures b.policies == SortNames(names) && b.settings == settings.Defaults()
  {
    OpenEntry(k, d);
    assert forall n | n in d.store.policies :: PolicyOk(d.store, n);
    SelectionIsFresh(k.rules, d.store.policies, names, settings, e);
  }

  /** One binding's row written, created or removed, and nothing else. */
  lemma RowConfined(d: Durable, id: string, t: Store)
    requires t == d.store.(bindings := t.bindings) && forall other | other != id :: SameBinding(d.store, t, other)
    ensures Confined(d, {id}, {}, Durable(t, d.bao))
  {
  }

  lemma SameAgreement(k: Checks, d: Durable, e: Durable)
    requires k.Faithful() && e.store.policies == d.store.policies && e.bao.policies == d.bao.policies
    ensures k.agree(e) == k.agree(d)
  {
    OpenEntry(k, d);
    OpenEntry(k, e);
  }

  lemma StoreStep(k: Checks, d: Durable, t: Store)
    requires k.Faithful() && Sound(k.rules, Durable(t, d.bao)) && Follows(d.store, t)
    ensures k.sound(Durable(t, d.bao)) && k.follows(d.store, t)
  {
    OpenEntry(k, Durable(t, d.bao));
    OpenStep(k, d.store, t);
  }

  lemma RowStep(k: Checks, d: Durable, id: string, t: Store)
    requires k.Faithful() && Sound(k.rules, Durable(t, d.bao)) && Follows(d.store, t)
    requires t == d.store.(bindings := t.bindings)
    requires t.bindings == d.store.bindings - {id} || (id in t.bindings && t.bindings == d.store.bindings[id := t.bindings[id]])
    ensures k.sound(Durable(t, d.bao)) && k.follows(d.store, t) && k.confined(d, {id}, {}, Durable(t, d.bao))
    ensures k.agree(Durable(t, d.bao)) == k.agree(d)
  {
    StoreStep(k, d, t);
    SameAgreement(k, d, Durable(t, d.bao));
    RowConfined(d, id, t);
    OpenConfined(k, d, {id}, {}, Durable(t, d.bao));
  }

  lemma CreateStep(k: Checks, d: Durable, b: Binding, t: Store)
    requires k.Faithful() && k.sound(d) && CreateBinding(d.store, b) == Some(t)
    requires |b.id| == BINDING_ID_LENGTH && b.role == RoleName(b.agent, b.id) && !b.applied && b.revision > 0
    requires b.settings.Defaulted() && b.policies == b.effective.Names() && Fresh(k.rules, d.store.policies, b)
    ensures t == d.store.(bindings := d.store.bindings[b.id := b])
    ensures k.sound(Durable(t, d.bao)) && k.follows(d.store, t) && k.confined(d, {b.id}, {}, Durable(t, d.bao))
    ensures k.agree(Durable(t, d.bao)) == k.agree(d)
  {
    OpenEntry(k, d);
    CreateKeeps(k.rules, d.store, d.bao, b, t);
    RowStep(k, d, b.id, t);
  }

  lemma ChangeStep(k: Checks, d: Durable, b: Binding, t: Store)
    requires k.Faithful() && k.sound(d) && ChangeBinding(d.store, b) == Some(t)
    requires b.id in d.store.bindings && NextAssignment(k.rules, d.store.policies, d.store.bindings[b.id], b)
    ensures t == d.store.(bindings := d.store.bindings[b.id := b])
    ensures k.sound(Durable(t, d.bao)) && k.follows(d.store, t) && k.confined(d, {b.id}, {}, Durable(t, d.bao))
    ensures k.agree(Durable(t, d.bao)) == k.agree(d)
  {
    OpenEntry(k, d);
    ChangeKeeps(k.rules, d.store, d.bao, b, t);
    RowStep(k, d, b.id, t);
  }

  lemma RetireStep(k: Checks, d: Durable, id: string, t: Store)
    requires k.Faithful() && k.sound(d) && RetireBinding(d.store, id) == Some(t)
    ensures k.sound(Durable(t, d.bao)) && k.follows(d.store, t) && k.confined(d, {id}, {}, Durable(t, d.bao))
    ensures k.agree(Durable(t, d.bao)) == k.agree(d)
  {
    OpenEntry(k, d);
    RetireKeeps(k.rules, d.store, d.bao, id, t);
    RowStep(k, d, id, t);
  }

  // ----- One policy's document -----

  /** The OpenBao states that differ at one identity only. */
  ghost predicate OnlyIdentity(bao: Bao, bao': Bao, identity: string) {
    bao'.roles == bao.roles && forall x | x != identity :: SamePublication(bao, bao', x)
  }

  lemma OneIdentityConfined(d: Durable, name: string, g: int, bao': Bao, ids: set<string>)
    requires PoliciesOk(d.store) && ValidName(name) && OnlyIdentity(d.bao, bao', OpenBaoPolicyName(name, g))
    ensures Confined(d, ids, {name}, Durable(d.store, bao'))
  {
    forall n | n in d.store.policies && n != name ensures SamePublication(d.bao, bao', d.store.policies[n].Identity()) {
      assert PolicyOk(d.store, n);
      IdentityInjective(n, d.store.policies[n].generation, name, g);
    }
  }

  /** Writing or deleting one policy's own identity, at any generation, touches no other policy's publication. */
  lemma OwnIdentity(k: Checks, d: Durable, name: string, g: int, bao': Bao, ids: set<string>)
    requires k.Faithful() && k.sound(d) && ValidName(name) && OnlyIdentity(d.bao, bao', OpenBaoPolicyName(name, g))
    ensures k.confined(d, ids, {name}, Durable(d.store, bao'))
    ensures k.published(d, d.store.policies.Keys - {name}) ==> k.published(Durable(d.store, bao'), d.store.policies.Keys - {name})
  {
    var e := Durable(d.store, bao');
    OpenEntry(k, d);
    OneIdentityConfined(d, name, g, bao', ids);
    OpenConfined(k, d, ids, {name}, e);
    OpenPublished(k, d, d.store.policies.Keys - {name});
    OpenPublished(k, e, d.store.policies.Keys - {name});
    if k.published(d, d.store.policies.Keys - {name}) {
      OthersStayPublished(k.rules, d, name, bao', ids);
    }
  }

  lemma OthersStayPublished(rules: Rules, d: Durable, name: string, bao': Bao, ids: set<string>)
    requires Confined(d, ids, {name}, Durable(d.store, bao')) && Published(rules, d, d.store.policies.Keys - {name})
    ensures Published(rules, Durable(d.store, bao'), d.store.policies.Keys - {name})
  {
    forall n | n in d.store.policies && n != name ensures PublishedOne(rules, Durable(d.store, bao'), n) {
      assert PublishedOne(rules, d, n) && SamePublication(d.bao, bao', d.store.policies[n].Identity());
    }
  }

  lemma AgreeIsPublished(k: Checks, d: Durable, names: set<string>)
    requires k.Faithful() && k.agree(d)
    ensures k.published(d, names)
  {
    PublishedAll(k, d);
    OpenPublished(k, d, d.store.policies.Keys);
    OpenPublished(k, d, names);
  }

  /** OpenBao agrees once the row of `name`, if there is one, is published beside all the others. */
  lemma LastPublished(k: Checks, d: Durable, name: string)
    requires k.Faithful() && k.published(d, d.store.policies.Keys - {name})
    requires name in d.store.policies ==> PublishedOne(k.rules, d, name)
    ensures k.agree(d)
  {
    OpenPublished(k, d, d.store.policies.Keys - {name});
    OpenPublished(k, d, d.store.policies.Keys);
    PublishedAll(k, d);
  }

  /** A row may take the document that its identity already publishes. */
  lemma RowTakesDocument(k: Checks, d: Durable, document: Policy, t: Store)
    requires k.Faithful() && k.published(d, d.store.policies.Keys - {document.name})
    requires t.policies == d.store.policies[document.name := document]
    requires document.Identity() in d.bao.policies && d.bao.policies[document.Identity()] == k.rules.publish(document)
    ensures k.agree(Durable(t, d.bao))
  {
    var e := Durable(t, d.bao);
    OpenPublished(k, d, d.store.policies.Keys - {document.name});
    OpenPublished(k, e, t.policies.Keys - {document.name});
    assert forall n | n in t.policies && n != document.name :: PublishedOne(k.rules, d, n);
    LastPublished(k, e, document.name);
  }

  lemma SaveConfined(k: Checks, d: Durable, document: Policy, updates: map<string, Binding>, t: Store)
    requires SavePolicyBindings(d.store, document, updates) == Some(t) && Reassigned(k.rules, d.store, t, updates)
    ensures Confined(d, updates.Keys, {document.name}, Durable(t, d.bao))
  {
    forall id | id !in updates ensures SameBinding(d.store, t, id) {
      if id in d.store.bindings {
        assert RowReassigned(k.rules, d.store, t, updates, id);
      }
    }
  }

  lemma UpdatesStored(k: Checks, s: Store, t: Store, updates: map<string, Binding>)
    requires Reassigned(k.rules, s, t, updates) && BindingsOk(k.rules, s.policies, s.bindings)
    requires forall id | id in updates :: id in s.bindings
    ensures AppliedBut(t, updates, updates.Keys, true)
  {
    forall id | id in updates ensures updates[id].id == id && id in t.bindings && t.bindings[id] == updates[id] {
      assert RowReassigned(k.rules, s, t, updates, id) && BindingOk(k.rules, s.policies, id, s.bindings[id]);
    }
  }

  lemma SaveStep(k: Checks, d: Durable, document: Policy, updates: map<string, Binding>, t: Store)
    requires k.Faithful() && k.sound(d) && SaveReady(k.rules, d.store, document, updates)
    requires SavePolicyBindings(d.store, document, updates) == Some(t)
    ensures k.sound(Durable(t, d.bao)) && k.follows(d.store, t)
    ensures k.confined(d, updates.Keys, {document.name}, Durable(t, d.bao))
    ensures AppliedBut(t, updates, updates.Keys, true)
  {
    OpenEntry(k, d);
    SaveKeeps(k.rules, d.store, d.bao, document, updates, t);
    StoreStep(k, d, t);
    SaveConfined(k, d, document, updates, t);
    OpenConfined(k, d, updates.Keys, {document.name}, Durable(t, d.bao));
    UpdatesStored(k, d.store, t, updates);
  }

  /** A save over its own updates always commits. */
  lemma SaveCommits(k: Checks, s: Store, document: Policy, updates: map<string, Binding>)
    requires SaveReady(k.rules, s, document, updates) && SavedDocument(s, document) == document
    ensures SavePolicyBindings(s, document, updates).Some?
    ensures SavePolicyBindings(s, document, updates).value.policies == s.policies[document.name := document]
  {
    forall id | id in updates ensures id in s.bindings && s.bindings[id].revision + 1 == updates[id].revision {
      assert SaveUpdate(k.rules, s, document, s.bindings[id], updates[id]);
    }
  }

  /** OpenBao after the previous state of a name's document is put back: its text, or no identity. */
  function PutBack(bao: Bao, rules: Rules, previous: Option<Policy>, identity: string): Bao {
    if previous.Some? then Publishing(bao, rules, previous.value) else bao.(policies := bao.policies - {identity})
  }

  /**
   * A save relies on a failed transaction not having committed. Had it committed,
   * putting back what was there before would leave OpenBao in step with the store
   * exactly when the save replaced a document that publishes the same text: never
   * when it was the first of its name.
   */
  lemma HiddenSaveCommit(k: Checks, d: Durable, previous: Option<Policy>, document: Policy)
    requires k.Faithful() && k.sound(d) && k.published(d, d.store.policies.Keys - {document.name})
    requires document.name in d.store.policies && d.store.policies[document.name] == document
    requires previous.Some? ==> previous.value.name == document.name && previous.value.generation == document.generation
    ensures k.agree(Durable(d.store, PutBack(d.bao, k.rules, previous, document.Identity())))
            <==> previous.Some? && k.rules.publish(previous.value) == k.rules.publish(document)
  {
    var bao' := PutBack(d.bao, k.rules, previous, document.Identity());
    StoredName(k, d, document.name);
    OwnIdentity(k, d, document.name, document.generation, bao', {});
    OpenEntry(k, Durable(d.store, bao'));
    if previous.Some? && k.rules.publish(previous.value) == k.rules.publish(document) {
      LastPublished(k, Durable(d.store, bao'), document.name);
    }
  }

  /** The next assignment of a binding that keeps its selection. */
  lemma SaveUpdateReady(k: Checks, d: Durable, document: Policy, b: Binding, e: Effective)
    requires k.Faithful() && k.sound(d) && b.id in d.store.bindings && d.store.bindings[b.id] == b
    requires SavedDocument(d.store, document) == document
    requires Resolves(k.rules, d.store.policies[document.name := document], b.policies, b.settings, e)
    ensures SaveUpdate(k.rules, d.store, document, b, b.(effective := e, revision := b.revision + 1, applied := false))
    ensures e.Names() == b.policies
  {
    OpenEntry(k, d);
    assert BindingOk(k.rules, d.store.policies, b.id, b);
    assert forall n | n in d.store.policies :: PolicyOk(d.store, n);
    SelectionIsFresh(k.rules, d.store.policies, b.policies, b.settings, b.effective);
    SelectionIsFresh(k.rules, d.store.policies[document.name := document], b.policies, b.settings, e);
  }

  lemma StoredName(k: Checks, d: Durable, name: string)
    requires k.Faithful() && k.sound(d) && name in d.store.policies
    ensures d.store.policies[name].name == name && ValidName(name)
  {
    OpenEntry(k, d);
    assert PolicyOk(d.store, name);
  }

  lemma DeleteConfined(d: Durable, name: string, t: Store)
    requires DeletePolicy(d.store, name) == Some(t)
    ensures Confined(d, {}, {name}, Durable(t, d.bao))
  {
  }

  lemma DeleteStep(k: Checks, d: Durable, name: string, t: Store)
    requires k.Faithful() && k.sound(d) && DeletePolicy(d.store, name) == Some(t)
    ensures k.sound(Durable(t, d.bao)) && k.follows(d.store, t) && k.confined(d, {}, {name}, Durable(t, d.bao))
  {
    OpenEntry(k, d);
    DeleteKeeps(k.rules, d.store, d.bao, name, t);
    StoreStep(k, d, t);
    DeleteConfined(d, name, t);
    OpenConfined(k, d, {}, {name}, Durable(t, d.bao));
  }

  /** A row leaves a store whose other rows are published. */
  lemma RowLeaves(k: Checks, d: Durable, name: string, t: Store)
    requires k.Faithful() && k.published(d, d.store.policies.Keys - {name}) && t.policies == d.store.policies - {name}
    ensures k.agree(Durable(t, d.bao)) && k.published(Durable(t, d.bao), t.policies.Keys - {name})
  {
    var e := Durable(t, d.bao);
    OpenPublished(k, d, d.store.policies.Keys - {name});
    OpenPublished(k, e, t.policies.Keys - {name});
    assert forall n | n in t.policies :: PublishedOne(k.rules, d, n);
    LastPublished(k, e, name);
  }

  // ----- Retirement -----

  lemma RetirementStep(k: Checks, d: Durable, t: Store)
    requires k.Faithful() && k.sound(d) && t == d.store.(retirements := t.retirements)
    ensures k.sound(Durable(t, d.bao)) && k.follows(d.store, t) && k.agree(Durable(t, d.bao)) == k.agree(d)
  {
    OpenEntry(k, d);
    RetirementsKeep(k.rules, d.store, d.bao, t);
    StoreStep(k, d, t);
    SameAgreement(k, d, Durable(t, d.bao));
  }

  lemma ForgetTraces(k: Checks, d: Durable, identity: string, marks: set<string>)
    requires k.Faithful() && k.traced(d, marks) && (identity in marks && identity in d.bao.policies ==> Held(d.store, identity))
    ensures k.traced(Durable(ForgetRetirement(d.store, identity), d.bao), marks)
  {
    var e := Durable(ForgetRetirement(d.store, identity), d.bao);
    OpenTraced(k, d, marks);
    OpenTraced(k, e, marks);
    assert forall x :: Held(d.store, x) ==> Held(e.store, x);
  }

  /** Deleting an identity that no stored policy holds. */
  lemma RemovalTraces(k: Checks, d: Durable, identity: string, marks: set<string>, spare: Option<nat>)
    requires k.Faithful() && k.traced(d, marks) && !Held(d.store, identity) && (spare.Some? ==> !Named(d, identity))
    ensures var e := Durable(d.store, d.bao.(policies := d.bao.policies - {identity}));
            k.traced(e, marks) && k.agree(e) == k.agree(d) && (spare.Some? ==> k.safe(d, e))
  {
    var e := Durable(d.store, d.bao.(policies := d.bao.policies - {identity}));
    OpenTraced(k, d, marks);
    OpenTraced(k, e, marks);
    OpenSafe(k, d, e);
    OpenEntry(k, d);
    OpenEntry(k, e);
    assert forall n | n in d.store.policies :: d.store.policies[n].Identity() != identity;
  }

  /** Once every binding is applied, no existing role names an identity that no stored policy holds. */
  lemma UnheldIsUnnamed(k: Checks, d: Durable, identity: string)
    requires k.Faithful() && k.sound(d) && !Held(d.store, identity)
    requires forall id | id in d.store.bindings :: d.store.bindings[id].applied
    ensures !Named(d, identity)
  {
    OpenEntry(k, d);
    forall id | id in d.store.bindings && d.store.bindings[id].role in d.bao.roles
      ensures identity !in d.bao.roles[d.store.bindings[id].role].policies
    {
      var b := d.store.bindings[id];
      assert BindingOk(k.rules, d.store.policies, id, b);
      RoleIdentities(k.rules, d.store.policies, b, identity);
    }
  }

  lemma ApplyingWider(k: Checks, d: Durable, ids: set<string>, e: Durable, wider: set<string>)
    requires k.Faithful() && k.applying(d, ids, e) && ids <= wider
    ensures k.applying(d, wider, e)
  {
    ApplyingNothing(k, e, wider);
    OpenApplying(k, d, ids, e);
    OpenApplying(k, d, wider, e);
    assert forall id | id in d.store.bindings :: RowApplying(d.store.bindings[id], e.store.bindings[id], id in ids);
  }

  lemma AppliedStayApplied(k: Checks, d: Durable, ids: set<string>, e: Durable)
    requires k.Faithful() && k.applying(d, ids, e)
    ensures forall id | id in d.store.bindings && d.store.bindings[id].applied :: id in e.store.bindings && e.store.bindings[id].applied
  {
    OpenApplying(k, d, ids, e);
    forall id | id in d.store.bindings && d.store.bindings[id].applied
      ensures id in e.store.bindings && e.store.bindings[id].applied
    {
      assert RowApplying(d.store.bindings[id], e.store.bindings[id], id in ids);
    }
  }

  /** The same rows, except that some may have been applied. */
  ghost predicate SameRows(s: Store, t: Store) {
    && t.bindings.Keys == s.bindings.Keys
    && forall id | id in s.bindings :: RowApplying(s.bindings[id], t.bindings[id], true)
  }

  lemma ApplyingRows(k: Checks, d: Durable, ids: set<string>, e: Durable)
    requires k.Faithful() && k.applying(d, ids, e)
    ensures SameRows(d.store, e.store)
  {
    OpenApplying(k, d, ids, e);
    forall id | id in d.store.bindings ensures RowApplying(d.store.bindings[id], e.store.bindings[id], true) {
      assert RowApplying(d.store.bindings[id], e.store.bindings[id], id in ids);
    }
  }

  lemma ApplyingTraces(k: Checks, d: Durable, ids: set<string>, e: Durable, f: Durable, marks: set<string>)
    requires k.Faithful() && k.applying(d, ids, e) && k.applying(d, ids, f)
    ensures k.safe(e, f) && (k.traced(d, marks) ==> k.traced(e, marks))
  {
    ApplyingKeeps(k, d, ids, e);
    ApplyingKeeps(k, d, ids, f);
    NothingDeleted(k, e, f);
    OpenTraced(k, d, marks);
    OpenTraced(k, e, marks);
    assert forall x :: Held(e.store, x) == Held(d.store, x);
  }

  /** Applying bindings deletes nothing and leaves no orphan. */
  lemma CleanApplying(k: Checks, trail: seq<Durable>, later: seq<Durable>, ids: set<string>, from: nat, marks: set<string>,
                      spare: Option<nat>)
    requires k.Faithful() && trail != [] && trail <= later && 0 < from <= |trail|
    requires k.ApplyingSince(later, |trail|, trail[|trail| - 1], ids)
    requires k.TracedSince(trail, from, marks) && k.traced(trail[|trail| - 1], marks) && (spare.Some? ==> spare.value <= |trail| && k.SafeSince(trail, spare.value))
    ensures k.TracedSince(later, from, marks) && k.traced(later[|later| - 1], marks) && (spare.Some? ==> k.SafeSince(later, spare.value))
  {
    var d := trail[|trail| - 1];
    ApplyingNothing(k, d, ids);
    forall i | |trail| <= i < |later| ensures k.traced(later[i], marks) && k.safe(later[i - 1], later[i]) {
      var before := if i == |trail| then d else later[i - 1];
      assert before == later[i - 1];
      ApplyingTraces(k, d, ids, later[i], later[i], marks);
      ApplyingTraces(k, d, ids, before, later[i], marks);
    }
    assert forall i | 0 <= i < |trail| :: later[i] == trail[i];
  }

  // ----- Renaming -----

  lemma RecordTraces(k: Checks, d: Durable, identity: string, marks: set<string>)
    requires k.Faithful() && k.traced(d, marks)
    ensures k.traced(Durable(RecordRetirement(d.store, identity), d.bao), marks)
  {
    var e := Durable(RecordRetirement(d.store, identity), d.bao);
    OpenTraced(k, d, marks);
    OpenTraced(k, e, marks);
    assert forall x :: Held(d.store, x) ==> Held(e.store, x);
  }

  /** Under its record, an identity may be written. */
  lemma RecordedWriteTraces(k: Checks, d: Durable, identity: string, hcl: string, marks: set<string>)
    requires k.Faithful() && k.traced(d, marks) && identity in d.store.retirements
    ensures k.traced(Durable(d.store, d.bao.(policies := d.bao.policies[identity := hcl])), marks)
  {
    var e := Durable(d.store, d.bao.(policies := d.bao.policies[identity := hcl]));
    OpenTraced(k, d, marks);
    OpenTraced(k, e, marks);
  }

  /**
   * A rename whose publication OpenBao rejects ends the record it made. What then
   * keeps the new identity from being an orphan is that it was not in OpenBao, or
   * that its record could not be ended.
   */
  lemma RejectedRenameTraces(k: Checks, d: Durable, e: Durable, name: string)
    requires k.Faithful() && k.sound(d) && ValidName(name)
    requires e.bao == d.bao && e.store == d.store.(retirements := e.store.retirements)
    ensures var identity := OpenBaoPolicyName(name, NextGeneration(d.store, name));
            k.traced(e, {identity}) <==> identity !in d.bao.policies || identity in e.store.retirements
  {
    var identity := OpenBaoPolicyName(name, NextGeneration(d.store, name));
    NextIsUnheld(k, d, name);
    OpenTraced(k, e, {identity});
    StillUnheld(d.store, e.store, identity);
    assert identity in {identity};
  }

  /**
   * The durable writes of two renames to one new name. The first records the new
   * identity, has its publication take effect with the answer lost, and cannot delete
   * it; the second records it again, has its publication rejected, and ends the record.
   */
  ghost function TwoRenames(d: Durable, identity: string, hcl: string): seq<Durable> {
    var recorded := Durable(RecordRetirement(d.store, identity), d.bao);
    var written := Durable(recorded.store, d.bao.(policies := d.bao.policies[identity := hcl]));
    [recorded, written, written, written, written, Durable(ForgetRetirement(written.store, identity), written.bao)]
  }

  /** So every history with a stored policy can go on to one that ends with an orphan, even if OpenBao was in full agreement. */
  lemma RejectedRenameOrphans(k: Checks, trail: seq<Durable>, name: string, newName: string)
    requires k.Faithful() && k.Recorded(trail) && k.agree(trail[|trail| - 1])
    requires var s := trail[|trail| - 1].store; name in s.policies && ValidName(newName) && newName !in s.policies
    ensures var document := Renamed(trail[|trail| - 1].store, name, newName);
            var writes := TwoRenames(trail[|trail| - 1], document.Identity(), k.rules.publish(document));
            && k.Recorded(trail + writes)
            && (forall i | 0 <= i < |writes| :: k.agree(writes[i]))
            && (forall i | 0 <= i < |writes| - 1 :: k.traced(writes[i], {document.Identity()}))
            && !k.traced(writes[|writes| - 1], {document.Identity()})
  {
    var d := trail[|trail| - 1];
    var document := Renamed(d.store, name, newName);
    var identity, hcl := document.Identity(), k.rules.publish(document);
    var writes := TwoRenames(d, identity, hcl);
    RetirementStep(k, d, writes[0].store);
    PolicyWriteSound(k, writes[0], writes[1].bao);
    PolicyWriteSound(k, d, writes[1].bao);
    UnheldWriteAgrees(k, writes[0], newName, document.generation, writes[1].bao);
    NothingFollows(k, writes[1]);
    RetirementStep(k, writes[1], writes[5].store);
    RejectedRenameTraces(k, Durable(d.store, writes[1].bao), writes[5], newName);
    OpenTraced(k, writes[0], {identity});
    OpenTraced(k, writes[1], {identity});
  }

  /** No stored policy holds the identity a new policy of this name would take. */
  lemma NextIsUnheld(k: Checks, d: Durable, name: string)
    requires k.Faithful() && k.sound(d) && ValidName(name)
    ensures !Held(d.store, OpenBaoPolicyName(name, NextGeneration(d.store, name)))
  {
    OpenEntry(k, d);
    forall n | n in d.store.policies
      ensures d.store.policies[n].Identity() != OpenBaoPolicyName(name, NextGeneration(d.store, name))
    {
      assert PolicyOk(d.store, n);
      IdentityInjective(n, d.store.policies[n].generation, name, NextGeneration(d.store, name));
    }
  }

  /** A change of an identity that no row of its name holds leaves the agreement alone. */
  lemma UnheldWriteAgrees(k: Checks, d: Durable, name: string, g: int, bao': Bao)
    requires k.Faithful() && k.sound(d) && k.agree(d) && ValidName(name) && name !in d.store.policies
    requires OnlyIdentity(d.bao, bao', OpenBaoPolicyName(name, g))
    ensures k.agree(Durable(d.store, bao'))
  {
    AgreeIsPublished(k, d, d.store.policies.Keys - {name});
    OwnIdentity(k, d, name, g, bao', {});
    LastPublished(k, Durable(d.store, bao'), name);
  }

  lemma RenameTraces(k: Checks, d: Durable, oldName: string, document: Policy, updates: map<string, Binding>, t: Store,
                     marks: set<string>)
    requires k.Faithful() && k.traced(d, marks) && RenamePolicy(d.store, oldName, document, updates) == Some(t)
    ensures k.traced(Durable(t, d.bao), marks)
  {
    OpenTraced(k, d, marks);
    OpenTraced(k, Durable(t, d.bao), marks);
    forall x | x in marks && x in d.bao.policies ensures Held(t, x) || x in t.retirements {
      if Held(d.store, x) {
        var n :| n in d.store.policies && d.store.policies[n].Identity() == x;
        assert n == oldName || (n in t.policies && t.policies[n] == d.store.policies[n]);
      } else if x == document.Identity() {
        assert document.name in t.policies && t.policies[document.name] == document;
      }
    }
  }

  lemma RenameAgrees(k: Checks, d: Durable, oldName: string, document: Policy, updates: map<string, Binding>, t: Store)
    requires k.Faithful() && k.agree(d) && RenamePolicy(d.store, oldName, document, updates) == Some(t)
    requires document.Identity() in d.bao.policies && d.bao.policies[document.Identity()] == k.rules.publish(document)
    ensures k.agree(Durable(t, d.bao))
  {
    OpenEntry(k, d);
    OpenEntry(k, Durable(t, d.bao));
  }

  lemma RenameStep(k: Checks, d: Durable, oldName: string, document: Policy, updates: map<string, Binding>, t: Store)
    requires k.Faithful() && k.sound(d) && RenameReady(k.rules, d.store, oldName, document, updates)
    requires RenamePolicy(d.store, oldName, document, updates) == Some(t)
    ensures k.sound(Durable(t, d.bao)) && k.follows(d.store, t)
    ensures AppliedBut(t, updates, updates.Keys, true)
  {
    OpenEntry(k, d);
    RenameKeeps(k.rules, d.store, d.bao, oldName, document, updates, t);
    StoreStep(k, d, t);
    UpdatesStored(k, d.store, t, updates);
  }

  /** A rename over its own updates always commits. */
  lemma RenameCommits(k: Checks, s: Store, oldName: string, document: Policy, updates: map<string, Binding>)
    requires RenameReady(k.rules, s, oldName, document, updates) && oldName in s.policies && document.name !in s.policies
    requires document.revision == s.policies[oldName].revision + 1 && document.generation == NextGeneration(s, document.name)
    requires updates.Keys == SelectedBy(s, oldName)
    ensures RenamePolicy(s, oldName, document, updates).Some?
  {
    forall id | id in updates ensures id in s.bindings && s.bindings[id].revision + 1 == updates[id].revision {
      assert RenameUpdate(k.rules, s, oldName, document, s.bindings[id], updates[id]);
    }
    assert |updates.Keys| == |updates|;
  }

  /** The next assignment of a binding whose selection is renamed. */
  lemma RenameUpdateReady(k: Checks, d: Durable, oldName: string, document: Policy, b: Binding, e: Effective)
    requires k.Faithful() && k.sound(d) && b.id in d.store.bindings && d.store.bindings[b.id] == b && b.HasPolicy(oldName)
    requires document.name !in d.store.policies && oldName in d.store.policies
    requires Resolves(k.rules, d.store.policies[document.name := document], RenameIn(b.policies, oldName, document.name), b.settings, e)
    ensures RenameUpdate(k.rules, d.store, oldName, document, b,
                         b.(policies := e.Names(), effective := e, revision := b.revision + 1, applied := false))
  {
    var m := d.store.policies[document.name := document];
    var names := RenameIn(b.policies, oldName, document.name);
    OpenEntry(k, d);
    assert BindingOk(k.rules, d.store.policies, b.id, b);
    assert forall n | n in d.store.policies :: PolicyOk(d.store, n);
    assert Documents(m, names) == Documents(m - {oldName}, names);
    SelectionIsFresh(k.rules, m - {oldName}, names, b.settings, e);
  }

  lemma SameRowsThen(s: Store, t: Store, u: Store)
    requires SameRows(s, t) && SameRows(t, u)
    ensures SameRows(s, u)
  {
    forall id | id in s.bindings ensures RowApplying(s.bindings[id], u.bindings[id], true) {
      assert RowApplying(s.bindings[id], t.bindings[id], true) && RowApplying(t.bindings[id], u.bindings[id], true);
    }
  }

  lemma RenameReadyElsewhere(k: Checks, s: Store, t: Store, oldName: string, document: Policy, updates: map<string, Binding>)
    requires RenameReady(k.rules, s, oldName, document, updates) && t == s.(retirements := t.retirements)
    ensures RenameReady(k.rules, t, oldName, document, updates) && SelectedBy(t, oldName) == SelectedBy(s, oldName)
  {
    forall id | id in updates ensures RenameUpdate(k.rules, t, oldName, document, t.bindings[id], updates[id]) {
      assert RenameUpdate(k.rules, s, oldName, document, s.bindings[id], updates[id]);
    }
  }

  /** After the rename the old identity has a record and no holder. */
  lemma OldIsUnheld(k: Checks, c: Durable, d: Durable, oldName: string, document: Policy, updates: map<string, Binding>)
    requires k.Faithful() && k.sound(c) && k.sound(d) && RenamePolicy(c.store, oldName, document, updates) == Some(d.store)
    ensures c.store.policies[oldName].Identity() in d.store.retirements && !Held(d.store, c.store.policies[oldName].Identity())
  {
    var was := c.store;
    OpenEntry(k, c);
    OpenEntry(k, d);
    forall n | n in d.store.policies ensures d.store.policies[n].Identity() != was.policies[oldName].Identity() {
      assert PolicyOk(d.store, n) && PolicyOk(was, oldName);
      IdentityInjective(n, d.store.policies[n].generation, oldName, was.policies[oldName].generation);
    }
  }

  /** Each binding that selected the old name selects the new one instead, and no other membership moved. */
  ghost predicate MembershipsMoved(was: Store, now: Store, oldName: string, newName: string) {
    && now.bindings.Keys == was.bindings.Keys
    && forall id | id in was.bindings ::
         now.bindings[id].policies == if was.bindings[id].HasPolicy(oldName) then MovedNames(was.bindings[id].policies, oldName, newName)
                                      else was.bindings[id].policies
  }

  lemma MembershipsFollow(was: Store, renamed: Store, now: Store, oldName: string, document: Policy, updates: map<string, Binding>)
    requires RenamePolicy(was, oldName, document, updates) == Some(renamed) && SameRows(renamed, now)
    ensures MembershipsMoved(was, now, oldName, document.name)
  {
    forall id | id in was.bindings
      ensures now.bindings[id].policies == MovedBinding(was.bindings[id], updates, oldName, document.name).policies
    {
      assert RowApplying(renamed.bindings[id], now.bindings[id], true);
    }
  }

  /** The old identity, and the new one unless OpenBao already has it. */
  ghost function RenameMarks(s: Store, b: Bao, name: string, newName: string): set<string> {
    var next := OpenBaoPolicyName(newName, NextGeneration(s, newName));
    (if name in s.policies then {s.policies[name].Identity()} else {}) + (if next in b.policies then {} else {next})
  }

  /** Also a new identity that OpenBao already has, if a record of it is durable. */
  ghost function RecordedMarks(s: Store, b: Bao, name: string, newName: string): set<string> {
    var next := OpenBaoPolicyName(newName, NextGeneration(s, newName));
    RenameMarks(s, b, name, newName) + (if next in s.retirements then {next} else {})
  }

  lemma NarrowerTraces(k: Checks, trail: seq<Durable>, from: nat, marks: set<string>, narrower: set<string>)
    requires k.Faithful() && k.TracedSince(trail, from, marks) && narrower <= marks && trail != []
    requires k.traced(trail[|trail| - 1], marks)
    ensures k.TracedSince(trail, from, narrower) && k.traced(trail[|trail| - 1], narrower)
  {
    forall i | 0 <= i < |trail| && k.traced(trail[i], marks) ensures k.traced(trail[i], narrower) {
      OpenTraced(k, trail[i], marks);
      OpenTraced(k, trail[i], narrower);
    }
  }

  /** The policy as it is stored under its new name. */
  function Renamed(s: Store, name: string, newName: string): Policy
    requires name in s.policies
  {
    s.policies[name].(name := newName, generation := NextGeneration(s, newName), revision := s.policies[name].revision + 1)
  }

  lemma RenameStarts(k: Checks, d: Durable, name: string, document: Policy, marks: set<string>, wide: set<string>)
    requires k.Faithful() && k.sound(d) && name in d.store.policies && ValidName(document.name)
    requires document == Renamed(d.store, name, document.name) && marks == RenameMarks(d.store, d.bao, name, document.name)
    requires wide == RecordedMarks(d.store, d.bao, name, document.name)
    ensures k.traced(d, wide) && marks <= wide && (document.Identity() in marks ==> document.Identity() !in d.bao.policies)
  {
    assert Held(d.store, d.store.policies[name].Identity());
    NextIsUnheld(k, d, document.name);
    OpenTraced(k, d, wide);
  }

  lemma StillUnheld(s: Store, t: Store, identity: string)
    requires t.policies == s.policies
    ensures Held(t, identity) == Held(s, identity)
  {
  }
}
