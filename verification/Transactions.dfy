/**
 * The store's transactions (internal/controller/store/store.go,
 * internal/controller/store/policy_rename.go). Each is one atomic step: the
 * next rows, or nothing when a constraint or a guard refuses it.
 */
module Transactions {
  import opened Basics
  import opened Naming
  import opened Composition
  import opened Records
  import opened Storage

  /** Above everything the name ever took, also after its row is gone. */
  function NextGeneration(s: Store, name: string): (g: nat)
    ensures name in s.generations ==> g > s.generations[name]
    ensures g >= 1
  {
    (if name in s.generations then s.generations[name] else 0) + 1
  }

  /** The columns an assignment update writes; membership is written apart. */
  function Rewritten(b: Binding, u: Binding): Binding {
    b.(settings := u.settings.Defaults(), revision := u.revision, effective := u.effective, applied := false)
  }

  /** Each update names the revision it was computed from. */
  predicate Guarded(rows: map<string, Binding>, updates: map<string, Binding>) {
    forall id | id in updates :: id in rows && rows[id].revision + 1 == updates[id].revision
  }

  predicate Selectable(s: Store, names: seq<string>) {
    && names != [] && Known(s.policies, names)
    && forall n | n in names :: multiset(names)[n] == 1
  }

  lemma SelectableSorted(s: Store, names: seq<string>)
    requires Selectable(s, names)
    ensures Selectable(s, SortNames(names))
  {
    SortNamesElements(names);
    assert names[0] in multiset(SortNames(names));
    forall n | n in SortNames(names) ensures n in s.policies && multiset(SortNames(names))[n] == 1 {
      assert n in multiset(SortNames(names));
      assert n in names;
    }
  }

  function SavedDocument(s: Store, document: Policy): Policy {
    if document.name in s.policies then
      var previous := s.policies[document.name];
      document.(revision := previous.revision + 1, generation := previous.generation)
    else document.(revision := 1, generation := NextGeneration(s, document.name))
  }

  /** The document at its next revision, with the given rows moved on; or nothing if a guard fails. */
  function SavePolicyBindings(s: Store, document: Policy, updates: map<string, Binding>): Option<Store> {
    var saved := SavedDocument(s, document);
    if (document.generation != 0 && document.generation != saved.generation) || !Guarded(s.bindings, updates) then None
    else Some(s.(
      policies := s.policies[document.name := saved],
      generations := if document.name in s.policies then s.generations
                     else s.generations[document.name := NextGeneration(s, document.name)],
      bindings := map id | id in s.bindings ::
        if id in updates then Rewritten(s.bindings[id], updates[id]) else s.bindings[id]))
  }

  /** Refused while any membership names the policy. */
  function DeletePolicy(s: Store, name: string): Option<Store> {
    if name !in s.policies || SelectedBy(s, name) != {} then None
    else Some(s.(policies := s.policies - {name}))
  }

  function RenameIn(names: seq<string>, oldName: string, newName: string): seq<string> {
    seq(|names|, i requires 0 <= i < |names| => if names[i] == oldName then newName else names[i])
  }

  /** A membership reads back in name order. */
  function MovedNames(names: seq<string>, oldName: string, newName: string): seq<string> {
    SortNames(RenameIn(names, oldName, newName))
  }

  function SelectedBy(s: Store, name: string): set<string> { set id | id in s.bindings && s.bindings[id].HasPolicy(name) }

  function MovedBinding(b: Binding, updates: map<string, Binding>, oldName: string, newName: string): Binding {
    var moved := if b.HasPolicy(oldName) then b.(policies := MovedNames(b.policies, oldName, newName)) else b;
    if b.id in updates then Rewritten(moved, updates[b.id]) else moved
  }

  /**
   * One step swaps the row for its successor, moves the memberships and the given
   * rows, and swaps the successor's retirement record for that of the identity given
   * up; or nothing if the caller's view is stale.
   */
  function RenamePolicy(s: Store, oldName: string, document: Policy, updates: map<string, Binding>): Option<Store> {
    if oldName !in s.policies || document.revision != s.policies[oldName].revision + 1
       || document.generation != NextGeneration(s, document.name) || document.name in s.policies
       || |SelectedBy(s, oldName)| != |updates| || !Guarded(s.bindings, updates) then None
    else Some(Store(
      s.policies[document.name := document] - {oldName},
      s.generations[document.name := document.generation],
      map id | id in s.bindings :: MovedBinding(s.bindings[id], updates, oldName, document.name),
      s.retirements - {document.Identity()} + {s.policies[oldName].Identity()}))
  }

  function CreateBinding(s: Store, b: Binding): Option<Store> {
    if b.id in s.bindings || !Selectable(s, b.policies)
       || exists id | id in s.bindings :: s.bindings[id].agent == b.agent && s.bindings[id].key == b.key then None
    else
      var row := b.(policies := SortNames(b.policies), settings := b.settings.Defaults(),
                    revision := if b.revision == 0 then 1 else b.revision);
      Some(s.(bindings := s.bindings[b.id := row]))
  }

  function ChangeBinding(s: Store, b: Binding): Option<Store> {
    if !Guarded(s.bindings, map[b.id := b]) || !Selectable(s, b.policies) then None
    else Some(s.(bindings := s.bindings[b.id := Rewritten(s.bindings[b.id], b).(policies := SortNames(b.policies))]))
  }

  function MarkApplied(s: Store, id: string): Store {
    if id in s.bindings then s.(bindings := s.bindings[id := s.bindings[id].(applied := true)]) else s
  }

  function RetireBinding(s: Store, id: string): Option<Store> {
    if id in s.bindings then Some(s.(bindings := s.bindings - {id})) else None
  }

  function RecordRetirement(s: Store, identity: string): Store { s.(retirements := s.retirements + {identity}) }

  function ForgetRetirement(s: Store, identity: string): Store { s.(retirements := s.retirements - {identity}) }

  // ----- The generation discipline -----

  ghost predicate Continues(s: Store, t: Store, n: string)
    requires n in t.policies
  {
    || (n in s.policies && s.policies[n].generation == t.policies[n].generation)
    || n !in s.generations || s.generations[n] < t.policies[n].generation
  }

  /** Records never go back, and a row either keeps its generation or takes an unused one. */
  ghost predicate Follows(s: Store, t: Store) {
    && (forall n | n in s.generations :: n in t.generations && s.generations[n] <= t.generations[n])
    && (forall n | n in t.policies :: Continues(s, t, n))
  }

  /** The row at `name` holds this generation. */
  ghost predicate HoldsGeneration(s: Store, name: string, g: int) { name in s.policies && s.policies[name].generation == g }

  lemma {:induction false} GenerationNeverReturns(run: seq<Store>, name: string, g: int, j: nat, k: nat)
    requires j <= k < |run|
    requires forall i | 0 < i < |run| :: Follows(run[i - 1], run[i])
    requires name in run[j].generations && run[j].generations[name] >= g && !HoldsGeneration(run[j], name, g)
    ensures name in run[k].generations && run[k].generations[name] >= g && !HoldsGeneration(run[k], name, g)
    decreases k
  {
    if j < k {
      GenerationNeverReturns(run, name, g, j, k - 1);
      assert Follows(run[k - 1], run[k]);
    }
  }

  lemma {:induction false} RecordStays(run: seq<Store>, name: string, g: int, i: nat, j: nat)
    requires i <= j < |run|
    requires forall i | 0 < i < |run| :: Follows(run[i - 1], run[i])
    requires name in run[i].generations && run[i].generations[name] >= g
    ensures name in run[j].generations && run[j].generations[name] >= g
    decreases j
  {
    if i < j {
      RecordStays(run, name, g, i, j - 1);
      assert Follows(run[j - 1], run[j]);
    }
  }

  /** Once no row holds an identity that a row held before, none ever does again. */
  lemma IdentityNeverReturns(rules: Rules, run: seq<Store>, identity: string, i: nat, j: nat, k: nat)
    requires i <= j <= k < |run|
    requires forall i | 0 <= i < |run| :: StoreOk(rules, run[i])
    requires forall i | 0 < i < |run| :: Follows(run[i - 1], run[i])
    requires Held(run[i], identity) && !Held(run[j], identity)
    ensures !Held(run[k], identity)
  {
    var n :| n in run[i].policies && run[i].policies[n].Identity() == identity;
    var g := run[i].policies[n].generation;
    assert PolicyOk(run[i], n);
    RecordStays(run, n, g, i, j);
    GenerationNeverReturns(run, n, g, j, k);
    forall m | m in run[k].policies ensures run[k].policies[m].Identity() != identity {
      assert PolicyOk(run[k], m);
      IdentityInjective(n, g, m, run[k].policies[m].generation);
    }
  }

  // ----- What every transaction keeps -----

  /** `u` is the next assignment of `b` over the policies `m`. */
  ghost predicate NextAssignment(rules: Rules, m: map<string, Policy>, b: Binding, u: Binding) {
    && u == b.(policies := u.policies, settings := u.settings, effective := u.effective,
               revision := b.revision + 1, applied := false)
    && u.settings.Defaulted() && u.policies == u.effective.Names() && Fresh(rules, m, u)
  }

  /** A binding whose policies did not change is still fresh. */
  lemma FreshElsewhere(rules: Rules, m: map<string, Policy>, m': map<string, Policy>, b: Binding)
    requires Fresh(rules, m, b) && forall n | n in b.policies :: n in m' && m'[n] == m[n]
    ensures Fresh(rules, m', b)
  {
    forall i | 0 <= i < |b.policies| ensures b.policies[i] in m' && m'[b.policies[i]] == m[b.policies[i]] {
      assert b.policies[i] in b.policies;
    }
    assert Documents(m, b.policies) == Documents(m', b.policies);
  }

  /** The row kept its assignment and its policies, or took its next assignment. */
  ghost predicate RowReassigned(rules: Rules, s: Store, t: Store, updates: map<string, Binding>, id: string)
    requires id in s.bindings && id in t.bindings
  {
    var b := s.bindings[id];
    if id in updates then t.bindings[id] == updates[id] && NextAssignment(rules, t.policies, b, updates[id])
    else t.bindings[id] == b && Kept(s.policies, t.policies, b.policies)
  }

  ghost predicate Reassigned(rules: Rules, s: Store, t: Store, updates: map<string, Binding>) {
    t.bindings.Keys == s.bindings.Keys && forall id | id in s.bindings :: RowReassigned(rules, s, t, updates, id)
  }

  ghost predicate Kept(m: map<string, Policy>, m': map<string, Policy>, names: seq<string>) {
    forall n | n in names && n in m :: n in m' && m'[n] == m[n]
  }

  lemma ReassignedBinding(rules: Rules, s: Store, t: Store, updates: map<string, Binding>, id: string)
    requires StoreOk(rules, s) && Reassigned(rules, s, t, updates) && id in s.bindings
    ensures BindingOk(rules, t.policies, id, t.bindings[id])
    ensures t.bindings[id].agent == s.bindings[id].agent && t.bindings[id].key == s.bindings[id].key
    ensures t.bindings[id].applied ==> t.bindings[id] == s.bindings[id]
  {
    var b := s.bindings[id];
    assert BindingOk(rules, s.policies, id, b) && RowReassigned(rules, s, t, updates, id);
    if id !in updates {
      assert forall i | 0 <= i < |b.policies| :: b.policies[i] in s.policies;
      FreshElsewhere(rules, s.policies, t.policies, b);
    }
  }

  lemma ReassignedSound(rules: Rules, s: Store, bao: Bao, t: Store, updates: map<string, Binding>)
    requires Sound(rules, Durable(s, bao)) && Reassigned(rules, s, t, updates)
    requires PoliciesOk(t)
    ensures Sound(rules, Durable(t, bao))
  {
    forall id | id in t.bindings
      ensures BindingOk(rules, t.policies, id, t.bindings[id])
      ensures t.bindings[id].agent == s.bindings[id].agent && t.bindings[id].key == s.bindings[id].key
      ensures t.bindings[id].applied ==> t.bindings[id] == s.bindings[id]
    {
      ReassignedBinding(rules, s, t, updates, id);
    }
  }

  lemma SavedDocuments(rules: Rules, s: Store, document: Policy, updates: map<string, Binding>, t: Store)
    requires StoreOk(rules, s) && ValidName(document.name)
    requires SavePolicyBindings(s, document, updates) == Some(t)
    ensures Follows(s, t) && PoliciesOk(t)
  {
    forall n | n in t.policies ensures PolicyOk(t, n) && Continues(s, t, n) {
      if n != document.name || n in s.policies {
        assert PolicyOk(s, n);
      }
    }
  }

  ghost predicate SaveUpdate(rules: Rules, s: Store, document: Policy, b: Binding, u: Binding) {
    u.policies == b.policies && NextAssignment(rules, s.policies[document.name := SavedDocument(s, document)], b, u)
  }

  /** What a save of `document` and its derived assignments must be given. */
  ghost predicate SaveReady(rules: Rules, s: Store, document: Policy, updates: map<string, Binding>) {
    && ValidName(document.name)
    && (forall id | id in updates :: id in s.bindings && SaveUpdate(rules, s, document, s.bindings[id], updates[id]))
    && (forall id | id in s.bindings && s.bindings[id].HasPolicy(document.name) :: id in updates)
  }

  lemma SavedBinding(rules: Rules, s: Store, document: Policy, updates: map<string, Binding>, t: Store, id: string)
    requires SavePolicyBindings(s, document, updates) == Some(t) && SaveReady(rules, s, document, updates)
    requires id in s.bindings
    ensures id in t.bindings && RowReassigned(rules, s, t, updates, id)
  {
  }

  lemma SavedRows(rules: Rules, s: Store, document: Policy, updates: map<string, Binding>, t: Store)
    requires SavePolicyBindings(s, document, updates) == Some(t) && SaveReady(rules, s, document, updates)
    ensures Reassigned(rules, s, t, updates)
  {
    forall id | id in s.bindings ensures id in t.bindings && RowReassigned(rules, s, t, updates, id) {
      SavedBinding(rules, s, document, updates, t, id);
    }
  }

  lemma SaveKeeps(rules: Rules, s: Store, bao: Bao, document: Policy, updates: map<string, Binding>, t: Store)
    requires Sound(rules, Durable(s, bao)) && SaveReady(rules, s, document, updates)
    requires SavePolicyBindings(s, document, updates) == Some(t)
    ensures Sound(rules, Durable(t, bao)) && Follows(s, t) && Reassigned(rules, s, t, updates)
    ensures t.policies == s.policies[document.name := SavedDocument(s, document)] && t.retirements == s.retirements
  {
    SavedDocuments(rules, s, document, updates, t);
    SavedRows(rules, s, document, updates, t);
    ReassignedSound(rules, s, bao, t, updates);
  }

  lemma DeleteKeeps(rules: Rules, s: Store, bao: Bao, name: string, t: Store)
    requires Sound(rules, Durable(s, bao)) && DeletePolicy(s, name) == Some(t)
    ensures Sound(rules, Durable(t, bao)) && Follows(s, t)
  {
    forall n | n in t.policies ensures PolicyOk(t, n) && Continues(s, t, n) {
      assert PolicyOk(s, n);
    }
    forall id | id in t.bindings ensures BindingOk(rules, t.policies, id, t.bindings[id]) {
      var b := s.bindings[id];
      assert BindingOk(rules, s.policies, id, b) && id !in SelectedBy(s, name);
      assert forall i | 0 <= i < |b.policies| :: b.policies[i] in s.policies;
      FreshElsewhere(rules, s.policies, t.policies, b);
    }
  }

  lemma RenamedDocuments(rules: Rules, s: Store, oldName: string, document: Policy, updates: map<string, Binding>, t: Store)
    requires StoreOk(rules, s) && ValidName(document.name)
    requires RenamePolicy(s, oldName, document, updates) == Some(t)
    ensures Follows(s, t) && PoliciesOk(t)
  {
    forall n | n in t.policies ensures PolicyOk(t, n) && Continues(s, t, n) {
      if n != document.name {
        assert PolicyOk(s, n);
      }
    }
  }

  ghost predicate RenameUpdate(rules: Rules, s: Store, oldName: string, document: Policy, b: Binding, u: Binding) {
    && b.HasPolicy(oldName) && u.policies == MovedNames(b.policies, oldName, document.name)
    && NextAssignment(rules, s.policies[document.name := document] - {oldName}, b, u)
  }

  /** What a rename of `oldName` to `document` and its derived assignments must be given. */
  ghost predicate RenameReady(rules: Rules, s: Store, oldName: string, document: Policy, updates: map<string, Binding>) {
    && ValidName(document.name)
    && (forall id | id in updates :: id in s.bindings && RenameUpdate(rules, s, oldName, document, s.bindings[id], updates[id]))
    && (forall id | id in s.bindings && s.bindings[id].HasPolicy(oldName) :: id in updates)
  }

  lemma RenamedBinding(rules: Rules, s: Store, oldName: string, document: Policy, updates: map<string, Binding>, t: Store,
                       id: string)
    requires RenamePolicy(s, oldName, document, updates) == Some(t) && RenameReady(rules, s, oldName, document, updates)
    requires id in s.bindings && BindingOk(rules, s.policies, id, s.bindings[id])
    ensures id in t.bindings && RowReassigned(rules, s, t, updates, id)
  {
  }

  lemma RenamedRows(rules: Rules, s: Store, oldName: string, document: Policy, updates: map<string, Binding>, t: Store)
    requires RenamePolicy(s, oldName, document, updates) == Some(t) && RenameReady(rules, s, oldName, document, updates)
    requires BindingsOk(rules, s.policies, s.bindings)
    ensures Reassigned(rules, s, t, updates)
  {
    forall id | id in s.bindings ensures id in t.bindings && RowReassigned(rules, s, t, updates, id) {
      RenamedBinding(rules, s, oldName, document, updates, t, id);
    }
  }

  lemma RenameKeeps(rules: Rules, s: Store, bao: Bao, oldName: string, document: Policy, updates: map<string, Binding>, t: Store)
    requires Sound(rules, Durable(s, bao)) && RenameReady(rules, s, oldName, document, updates)
    requires RenamePolicy(s, oldName, document, updates) == Some(t)
    ensures Sound(rules, Durable(t, bao)) && Follows(s, t) && Reassigned(rules, s, t, updates)
    ensures t.policies == s.policies[document.name := document] - {oldName}
    ensures t.retirements == s.retirements - {document.Identity()} + {s.policies[oldName].Identity()}
  {
    RenamedDocuments(rules, s, oldName, document, updates, t);
    RenamedRows(rules, s, oldName, document, updates, t);
    ReassignedSound(rules, s, bao, t, updates);
  }

  /** A stored membership is already in name order. */
  lemma MembershipSorted(rules: Rules, s: Store, b: Binding)
    requires rules.Lawful() && StoreOk(rules, s) && Fresh(rules, s.policies, b) && b.policies == b.effective.Names()
    ensures SortNames(b.policies) == b.policies
  {
    assert forall n | n in s.policies :: PolicyOk(s, n);
    SelectionIsFresh(rules, s.policies, b.policies, b.settings, b.effective);
  }

  lemma SameDocumentsFollow(rules: Rules, s: Store, t: Store)
    requires StoreOk(rules, s) && t.policies == s.policies && t.generations == s.generations
    ensures Follows(s, t) && PoliciesOk(t)
  {
    assert forall n | n in s.policies :: PolicyOk(s, n);
  }

  /** Writing one row. */
  lemma RowKeeps(rules: Rules, s: Store, bao: Bao, b: Binding, t: Store)
    requires Sound(rules, Durable(s, bao)) && t == s.(bindings := s.bindings[b.id := b])
    requires BindingOk(rules, s.policies, b.id, b) && KeysDiffer(t.bindings)
    requires b.applied && b.role in bao.roles ==> bao.roles[b.role] == RoleOf(b)
    ensures Sound(rules, Durable(t, bao)) && Follows(s, t)
  {
    SameDocumentsFollow(rules, s, t);
  }

  lemma SameKeyDiffers(rows: map<string, Binding>, b: Binding)
    requires KeysDiffer(rows) && b.id in rows && b.agent == rows[b.id].agent && b.key == rows[b.id].key
    ensures KeysDiffer(rows[b.id := b])
  {
  }

  lemma CreateKeeps(rules: Rules, s: Store, bao: Bao, b: Binding, t: Store)
    requires rules.Lawful() && Sound(rules, Durable(s, bao)) && CreateBinding(s, b) == Some(t)
    requires BindingOk(rules, s.policies, b.id, b) && !b.applied && b.revision > 0
    ensures Sound(rules, Durable(t, bao)) && Follows(s, t) && t == s.(bindings := s.bindings[b.id := b])
  {
    MembershipSorted(rules, s, b);
    RowKeeps(rules, s, bao, b, t);
  }

  lemma ChangeKeeps(rules: Rules, s: Store, bao: Bao, b: Binding, t: Store)
    requires rules.Lawful() && Sound(rules, Durable(s, bao)) && ChangeBinding(s, b) == Some(t)
    requires b.id in s.bindings && NextAssignment(rules, s.policies, s.bindings[b.id], b)
    ensures Sound(rules, Durable(t, bao)) && Follows(s, t) && t == s.(bindings := s.bindings[b.id := b])
  {
    assert BindingOk(rules, s.policies, b.id, s.bindings[b.id]);
    MembershipSorted(rules, s, b);
    SameKeyDiffers(s.bindings, b);
    RowKeeps(rules, s, bao, b, t);
  }

  lemma ApplyKeeps(rules: Rules, s: Store, bao: Bao, id: string)
    requires Sound(rules, Durable(s, bao)) && id in s.bindings
    requires s.bindings[id].role in bao.roles ==> bao.roles[s.bindings[id].role] == RoleOf(s.bindings[id])
    ensures Sound(rules, Durable(MarkApplied(s, id), bao)) && Follows(s, MarkApplied(s, id))
  {
    var b := s.bindings[id];
    assert BindingOk(rules, s.policies, id, b);
    SameKeyDiffers(s.bindings, b.(applied := true));
    RowKeeps(rules, s, bao, b.(applied := true), MarkApplied(s, id));
  }

  lemma RetireKeeps(rules: Rules, s: Store, bao: Bao, id: string, t: Store)
    requires Sound(rules, Durable(s, bao)) && RetireBinding(s, id) == Some(t)
    ensures Sound(rules, Durable(t, bao)) && Follows(s, t) && t.bindings == s.bindings - {id}
  {
    SameDocumentsFollow(rules, s, t);
  }

  lemma RetirementsKeep(rules: Rules, s: Store, bao: Bao, t: Store)
    requires Sound(rules, Durable(s, bao)) && t == s.(retirements := t.retirements)
    ensures Sound(rules, Durable(t, bao)) && Follows(s, t)
  {
    SameDocumentsFollow(rules, s, t);
  }
}
