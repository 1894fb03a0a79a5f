/**
 * The controller's durable rows and the transactions over them
 * (internal/controller/store/store.go, internal/controller/store/policy_rename.go),
 * beside the OpenBao policies and roles they describe.
 */
module Storage {
  import opened Basics
  import opened Naming
  import opened Composition
  import opened Records

  const BINDING_ID_LENGTH := 18  // "b-" and sixteen hexadecimal digits
  const MANAGED_PREFIX := "wyrwood-"
  const MAXIMUM_ROLE_AGENT_BYTES := 60

  // ----- Role names -----

  function LowerCase(c: char): char { if 'A' <= c <= 'Z' then (c as int + 32) as char else c }

  predicate RoleSafe(c: char) { 'a' <= c <= 'z' || '0' <= c <= '9' || c == '-' }

  /** Each run of unsafe characters becomes one dash. */
  function Sanitized(s: string, inRun: bool): string {
    if s == "" then ""
    else
      var c := LowerCase(s[0]);
      if RoleSafe(c) then [c] + Sanitized(s[1..], false)
      else (if inRun then "" else "-") + Sanitized(s[1..], true)
  }

  function TrimLeft(s: string): string { if s != "" && s[0] == '-' then TrimLeft(s[1..]) else s }

  function TrimRight(s: string): string {
    if s != "" && s[|s| - 1] == '-' then TrimRight(s[..|s| - 1]) else s
  }

  /** Distinct identifiers of one length give distinct role names. */
  function RoleName(agent: string, id: string): string {
    var safe := TrimRight(TrimLeft(Sanitized(agent, false)));
    MANAGED_PREFIX + (if |safe| > MAXIMUM_ROLE_AGENT_BYTES then safe[..MAXIMUM_ROLE_AGENT_BYTES] else safe) + "-" + id
  }

  /** Two bindings never share a role, whatever their agents are called. */
  lemma RoleNameInjective(agent: string, id: string, other: string, otherId: string)
    requires |id| == |otherId| && RoleName(agent, id) == RoleName(other, otherId)
    ensures id == otherId
  {
    var r, t := RoleName(agent, id), RoleName(other, otherId);
    assert r[|r| - |id|..] == id && t[|t| - |otherId|..] == otherId;
  }

  // ----- What the store relies on from composition -----

  ghost predicate SameDocuments(ps: seq<Policy>, qs: seq<Policy>) { multiset(ps) == multiset(qs) }

  ghost predicate Selecting(ps: seq<Policy>, settings: Settings) { true }

  /** Composition, publication and document validation, as values. */
  datatype Rules = Rules(
    compose: (seq<Policy>, Settings) -> Option<Effective>, publish: Policy -> string, valid: Policy -> bool)
  {
    ghost predicate Lawful() {
      && (forall p :: valid(p) ==> ValidName(p.name))
      && (forall ps: seq<Policy>, qs: seq<Policy>, st: Settings {:trigger SameDocuments(ps, qs), compose(ps, st)} ::
            SameDocuments(ps, qs) ==> compose(ps, st) == compose(qs, st))
      && (forall ps: seq<Policy>, st: Settings {:trigger Selecting(ps, st)} :: compose(ps, st.Defaults()) == compose(ps, st))
      && (forall ps: seq<Policy>, st: Settings {:trigger Selecting(ps, st)} :: compose(ps, st).Some? ==>
            && compose(ps, st).value.Names() == SortNames(NamesOf(ps))
            && compose(ps, st).value.OpenBaoPolicies() == IdentitiesOf(SortByName(ps))
            && compose(ps, st).value.settings == st.Defaults())
    }
  }

  /** Composition, publication and validation of policy documents. */
  function CompositionRules(x: Externals): Rules {
    Rules((ps, st) => Composed(x, ps, st), p => x.PublishedHcl(p), p => x.Valid(p))
  }

  /** They have the properties the store relies on. */
  lemma CompositionIsLawful(x: Externals)
    ensures CompositionRules(x).Lawful()
  {
    var r := CompositionRules(x);
    forall ps: seq<Policy>, qs: seq<Policy>, st: Settings | SameDocuments(ps, qs) ensures r.compose(ps, st) == r.compose(qs, st) {
      ComposePermutation(x, ps, qs, st);
    }
    forall ps: seq<Policy>, st: Settings ensures r.compose(ps, st.Defaults()) == r.compose(ps, st) {
      ComposedDefaults(x, ps, st);
    }
    forall ps: seq<Policy>, st: Settings | r.compose(ps, st).Some?
      ensures r.compose(ps, st).value.Names() == SortNames(NamesOf(ps))
      ensures r.compose(ps, st).value.OpenBaoPolicies() == IdentitiesOf(SortByName(ps))
      ensures r.compose(ps, st).value.settings == st.Defaults()
    {
      ComposedSources(x, ps, st, r.compose(ps, st).value);
      ComposedResolves(x, ps, st, r.compose(ps, st).value);
    }
  }

  // ----- Rows -----

  datatype Store = Store(
    policies: map<string, Policy>, generations: map<string, nat>, bindings: map<string, Binding>,
    retirements: set<string>)

  datatype Role = Role(policies: seq<string>, ttl: string, maxTTL: string)

  datatype Bao = Bao(policies: map<string, string>, roles: map<string, Role>)

  /** Everything that survives a controller crash. */
  datatype Durable = Durable(store: Store, bao: Bao)

  predicate Known(m: map<string, Policy>, names: seq<string>) { forall i | 0 <= i < |names| :: names[i] in m }

  function Documents(m: map<string, Policy>, names: seq<string>): seq<Policy>
    requires Known(m, names)
  {
    seq(|names|, i requires 0 <= i < |names| => m[names[i]])
  }

  /** The selection, over these documents, resolves to this assignment. */
  ghost predicate Resolves(rules: Rules, m: map<string, Policy>, names: seq<string>, settings: Settings, e: Effective) {
    Known(m, names) && rules.compose(Documents(m, names), settings) == Some(e)
  }

  function RoleOf(b: Binding): Role {
    Role(b.effective.OpenBaoPolicies(), b.settings.tokenTTL, b.settings.tokenMaxTTL)
  }

  /** The row holds its own name, and its generation is the last one its name took. */
  ghost predicate PolicyOk(s: Store, n: string)
    requires n in s.policies
  {
    var p := s.policies[n];
    p.name == n && ValidName(n) && p.generation >= 1 && n in s.generations && s.generations[n] == p.generation
  }

  /** The stored assignment is what composing its stored policies afresh would give. */
  ghost predicate Fresh(rules: Rules, m: map<string, Policy>, b: Binding) {
    Resolves(rules, m, b.policies, b.settings, b.effective)
  }

  ghost predicate BindingOk(rules: Rules, m: map<string, Policy>, id: string, b: Binding) {
    && b.id == id && |id| == BINDING_ID_LENGTH && b.role == RoleName(b.agent, id)
    && b.settings.Defaulted() && b.policies == b.effective.Names()
    && Fresh(rules, m, b)
  }

  ghost predicate PoliciesOk(s: Store) { forall n | n in s.policies :: PolicyOk(s, n) }

  ghost predicate BindingsOk(rules: Rules, m: map<string, Policy>, rows: map<string, Binding>) {
    forall id | id in rows :: BindingOk(rules, m, id, rows[id])
  }

  /** No agent has two bindings of one container key. */
  ghost predicate KeysDiffer(rows: map<string, Binding>) {
    forall a, b | a in rows && b in rows && a != b :: rows[a].agent != rows[b].agent || rows[a].key != rows[b].key
  }

  ghost predicate StoreOk(rules: Rules, s: Store) {
    PoliciesOk(s) && BindingsOk(rules, s.policies, s.bindings) && KeysDiffer(s.bindings)
  }

  /** An applied binding's role, when it exists, names exactly the identities of its assignment. */
  ghost predicate RolesOk(s: Store, bao: Bao) {
    forall id | id in s.bindings && s.bindings[id].applied && s.bindings[id].role in bao.roles ::
      bao.roles[s.bindings[id].role] == RoleOf(s.bindings[id])
  }

  /** What holds of the durable state at every point where the controller may crash. */
  ghost predicate Sound(rules: Rules, d: Durable) { StoreOk(rules, d.store) && RolesOk(d.store, d.bao) }

  /** OpenBao holds every stored policy with its current published HCL. */
  ghost predicate Agree(rules: Rules, d: Durable) {
    forall n | n in d.store.policies ::
      var p := d.store.policies[n]; p.Identity() in d.bao.policies && d.bao.policies[p.Identity()] == rules.publish(p)
  }

  predicate Held(s: Store, identity: string) { exists n | n in s.policies :: s.policies[n].Identity() == identity }

  /** Distinct rows have distinct identities. */
  lemma IdentitiesDiffer(s: Store, m: string, n: string)
    requires m in s.policies && n in s.policies && PolicyOk(s, m) && PolicyOk(s, n) && m != n
    ensures s.policies[m].Identity() != s.policies[n].Identity()
  {
    IdentityInjective(m, s.policies[m].generation, n, s.policies[n].generation);
  }

  // ----- Selections -----

  lemma NamesOfDocuments(m: map<string, Policy>, names: seq<string>)
    requires Known(m, names) && forall n | n in m :: m[n].name == n
    ensures NamesOf(Documents(m, names)) == names
  {
  }

  lemma {:induction false} DocumentsOfInsert(m: map<string, Policy>, n: string, names: seq<string>)
    requires n in m && Known(m, names)
    ensures Known(m, InsertName(n, names))
    ensures multiset(Documents(m, InsertName(n, names))) == multiset{m[n]} + multiset(Documents(m, names))
  {
    var docs := Documents(m, names);
    if names == [] {
      assert Documents(m, [n]) == [m[n]];
    } else if StrLe(n, names[0]) {
      assert Documents(m, [n] + names) == [m[n]] + docs;
    } else {
      DocumentsOfInsert(m, n, names[1..]);
      var rest := InsertName(n, names[1..]);
      assert Documents(m, [names[0]] + rest) == [docs[0]] + Documents(m, rest);
      assert docs == [docs[0]] + Documents(m, names[1..]);
    }
  }

  lemma {:induction false} DocumentsOfSorted(m: map<string, Policy>, names: seq<string>)
    requires Known(m, names)
    ensures Known(m, SortNames(names))
    ensures SameDocuments(Documents(m, SortNames(names)), Documents(m, names))
  {
    if names != [] {
      DocumentsOfSorted(m, names[1..]);
      DocumentsOfInsert(m, names[0], SortNames(names[1..]));
      assert Documents(m, names) == [m[names[0]]] + Documents(m, names[1..]);
    }
  }

  /** A composed selection, stored by its sorted names and completed settings, is fresh. */
  lemma SelectionIsFresh(rules: Rules, m: map<string, Policy>, names: seq<string>, settings: Settings, e: Effective)
    requires rules.Lawful() && Resolves(rules, m, names, settings, e) && forall n | n in m :: m[n].name == n
    ensures e.Names() == SortNames(names) && e.settings == settings.Defaults()
    ensures Resolves(rules, m, e.Names(), e.settings, e)
  {
    var docs := Documents(m, names);
    assert Selecting(docs, settings);
    NamesOfDocuments(m, names);
    DocumentsOfSorted(m, names);
    assert SameDocuments(Documents(m, SortNames(names)), docs);
    assert Selecting(Documents(m, SortNames(names)), settings);
  }

  /** A stored binding's role would name exactly the identities of its stored policies. */
  lemma RoleIdentities(rules: Rules, m: map<string, Policy>, b: Binding, identity: string)
    requires rules.Lawful() && Fresh(rules, m, b)
    ensures identity in RoleOf(b).policies <==> exists n | n in b.policies :: n in m && m[n].Identity() == identity
  {
    var docs := Documents(m, b.policies);
    assert Selecting(docs, b.settings);
    IdentityListed(docs, identity);
    if exists p | p in docs :: p.Identity() == identity {
      var i :| 0 <= i < |docs| && docs[i].Identity() == identity;
      assert b.policies[i] in b.policies;
    }
    if exists n | n in b.policies :: n in m && m[n].Identity() == identity {
      var n :| n in b.policies && m[n].Identity() == identity;
      var i :| 0 <= i < |b.policies| && b.policies[i] == n;
      assert docs[i] in docs;
    }
  }
}
