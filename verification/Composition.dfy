/**
 * Policy documents and their composition into one assignment
 * (internal/policy/composition.go, internal/policy/policy.go).
 *
 * HCL parsing, the JSON schema checks of a document and the placeholder
 * expansion come from outside; every statement here holds for all of them.
 * Where the source keeps a sorted list of a set of names, the model keeps the set.
 */
module Composition {
  import opened Basics
  import opened Naming

  const MAXIMUM_HCL_BYTES := 65536
  const MAXIMUM_IDENTITY_NAMES := 64
  const MAXIMUM_IDENTITY_BYTES := 128
  const DEFAULT_TOKEN_TTL := "1h"
  const DEFAULT_TOKEN_MAX_TTL := "8h"
  const ENFORCEMENT_REPORT := "report"
  const DEFAULT_MOUNT_TARGET := "/run/wyrwood"
  const MOUNT_TARGET_TOKEN := "{mount-target}"

  datatype SshNames = SshNames(transitKeys: seq<string>, caRoles: seq<string>)

  datatype Ssh = Ssh(transitKeys: seq<string>, caRoles: seq<string>, notForwardable: Option<SshNames>)

  datatype Policy = Policy(
    name: string, revision: int, generation: int, hcl: string, renewal: Option<bool>,
    ssh: Option<Ssh>, mountTarget: string, env: map<string, string>)
  {
    function TransitKeys(): seq<string> { if ssh.Some? then ssh.value.transitKeys else [] }

    function CaRoles(): seq<string> { if ssh.Some? then ssh.value.caRoles else [] }

    function RestrictedKeys(): seq<string> {
      if ssh.Some? && ssh.value.notForwardable.Some? then ssh.value.notForwardable.value.transitKeys else []
    }

    function RestrictedRoles(): seq<string> {
      if ssh.Some? && ssh.value.notForwardable.Some? then ssh.value.notForwardable.value.caRoles else []
    }

    /** The OpenBao policy name this document is published under. */
    function Identity(): string { OpenBaoPolicyName(name, generation) }

    /** An assignment omits the first generation of a name. */
    function SourceGeneration(): int { if generation <= 1 then 0 else generation }
  }

  datatype Settings = Settings(
    tokenTTL: string, tokenMaxTTL: string, accessGroup: Option<nat>, enforcement: string,
    values: map<string, string>)
  {
    function Defaults(): (r: Settings)
      ensures r.Defaulted()
      ensures Defaulted() ==> r == this
      ensures r.accessGroup == accessGroup && r.values == values
    {
      this.(tokenTTL := if tokenTTL == "" then DEFAULT_TOKEN_TTL else tokenTTL,
            tokenMaxTTL := if tokenMaxTTL == "" then DEFAULT_TOKEN_MAX_TTL else tokenMaxTTL,
            enforcement := if enforcement == "" then ENFORCEMENT_REPORT else enforcement)
    }

    predicate Defaulted() { tokenTTL != "" && tokenMaxTTL != "" && enforcement != "" }
  }

  datatype Source = Source(name: string, revision: int, hcl: string, generation: int)

  datatype Effective = Effective(
    sources: seq<Source>, hcl: string, renew: bool,
    transitKeys: set<string>, caRoles: set<string>,
    restrictedKeys: set<string>, restrictedRoles: set<string>,
    mountTarget: string, env: map<string, string>, settings: Settings)
  {
    function Names(): seq<string> { seq(|sources|, i requires 0 <= i < |sources| => sources[i].name) }

    /** The identities a role of this assignment names. */
    function OpenBaoPolicies(): seq<string> {
      seq(|sources|, i requires 0 <= i < |sources| => OpenBaoPolicyName(sources[i].name, sources[i].generation))
    }
  }

  /**
   * What the HCL parser and the document schema decide. `document` covers the
   * placeholder and container-contract checks of Policy.Validate; `assignment`
   * is Effective.Validate.
   */
  datatype Externals = Externals(
    workload: string -> string, legacyRenewal: string -> bool, lifecycle: bool -> string,
    valueNames: string -> seq<string>, expand: (string, map<string, string>) -> string,
    document: Policy -> bool, assignment: Effective -> bool)
  {
    function AgentRenewal(p: Policy): bool {
      if p.renewal.Some? then p.renewal.value else legacyRenewal(p.hcl)
    }

    /** The workload source plus the managed lifecycle grants. */
    function PublishedHcl(p: Policy): string { workload(p.hcl) + "\n" + lifecycle(AgentRenewal(p)) }

    predicate Valid(p: Policy) {
      && ValidName(p.name) && p.revision >= 0 && |p.hcl| <= MAXIMUM_HCL_BYTES
      && ValidIdentities(p.TransitKeys()) && ValidIdentities(p.CaRoles())
      && ValidIdentities(p.RestrictedKeys()) && ValidIdentities(p.RestrictedRoles())
      && document(p)
    }
  }

  predicate IdentityChar(c: char) {
    'A' <= c <= 'Z' || 'a' <= c <= 'z' || '0' <= c <= '9' || c == '_' || c == '.' || c == '-'
  }

  predicate ValidIdentities(names: seq<string>) {
    && |names| <= MAXIMUM_IDENTITY_NAMES
    && (forall i | 0 <= i < |names| ::
          0 < |names[i]| <= MAXIMUM_IDENTITY_BYTES && forall j | 0 <= j < |names[i]| :: IdentityChar(names[i][j]))
    && (forall i, j | 0 <= i < j < |names| :: names[i] != names[j])
  }

  // ----- Sorting by name -----

  function InsertByName(p: Policy, s: seq<Policy>): seq<Policy> {
    if s == [] then [p]
    else if StrLe(p.name, s[0].name) then [p] + s
    else [s[0]] + InsertByName(p, s[1..])
  }

  function SortByName(s: seq<Policy>): seq<Policy> {
    if s == [] then [] else InsertByName(s[0], SortByName(s[1..]))
  }

  function NamesOf(s: seq<Policy>): seq<string> { seq(|s|, i requires 0 <= i < |s| => s[i].name) }

  ghost predicate Sorted(s: seq<Policy>) {
    forall i, j | 0 <= i < j < |s| :: StrLe(s[i].name, s[j].name)
  }

  /** No name is selected twice. */
  predicate Distinct(s: seq<Policy>) {
    forall i, j | 0 <= i < j < |s| :: s[i].name != s[j].name
  }

  lemma {:induction false} InsertByNameElements(p: Policy, s: seq<Policy>)
    ensures multiset(InsertByName(p, s)) == multiset{p} + multiset(s)
  {
    if s != [] && !StrLe(p.name, s[0].name) {
      InsertByNameElements(p, s[1..]);
      assert s == [s[0]] + s[1..];
    }
  }

  lemma {:induction false} InsertByNameSorts(p: Policy, s: seq<Policy>)
    requires Sorted(s)
    ensures Sorted(InsertByName(p, s))
  {
    if s == [] {
    } else if StrLe(p.name, s[0].name) {
      forall k | 0 < k < |s| ensures StrLe(p.name, s[k].name) {
        StrLeTransitive(p.name, s[0].name, s[k].name);
      }
    } else {
      var rest := InsertByName(p, s[1..]);
      InsertByNameSorts(p, s[1..]);
      StrLeTotal(p.name, s[0].name);
      forall k | 0 <= k < |rest| ensures StrLe(s[0].name, rest[k].name) {
        InsertByNameElements(p, s[1..]);
        assert rest[k] in multiset(rest);
        assert rest[k] == p || rest[k] in s[1..];
      }
    }
  }

  lemma {:induction false} SortByNameSorts(s: seq<Policy>)
    ensures Sorted(SortByName(s)) && multiset(SortByName(s)) == multiset(s) && |SortByName(s)| == |s|
  {
    if s != [] {
      SortByNameSorts(s[1..]);
      InsertByNameSorts(s[0], SortByName(s[1..]));
      InsertByNameElements(s[0], SortByName(s[1..]));
      assert s == [s[0]] + s[1..];
    }
    assert |multiset(SortByName(s))| == |multiset(s)|;
  }

  lemma {:induction false} NamesOfInsert(p: Policy, s: seq<Policy>)
    ensures NamesOf(InsertByName(p, s)) == InsertName(p.name, NamesOf(s))
  {
    if s != [] && !StrLe(p.name, s[0].name) {
      NamesOfInsert(p, s[1..]);
      assert NamesOf(s)[1..] == NamesOf(s[1..]);
    }
  }

  /** Sorting documents and sorting their names agree. */
  lemma {:induction false} NamesOfSort(s: seq<Policy>)
    ensures NamesOf(SortByName(s)) == SortNames(NamesOf(s))
  {
    if s != [] {
      NamesOfSort(s[1..]);
      NamesOfInsert(s[0], SortByName(s[1..]));
      assert NamesOf(s)[1..] == NamesOf(s[1..]);
    }
  }

  /** A permutation repeats a name exactly when the original does. */
  lemma {:induction false} DistinctPermutation(s: seq<Policy>, t: seq<Policy>)
    requires multiset(s) == multiset(t) && Distinct(s)
    ensures Distinct(t)
  {
    forall i, j | 0 <= i < j < |t| ensures t[i].name != t[j].name {
      if t[i].name == t[j].name {
        assert t[i] in multiset(s) && t[j] in multiset(s);
        var a :| 0 <= a < |s| && s[a] == t[i];
        var b :| 0 <= b < |s| && s[b] == t[j];
        assert a == b;
        AtLeastTwice(t, i, j);
        AtMostOnce(s, t[i]);
      }
    }
  }

  lemma AtLeastTwice(t: seq<Policy>, i: nat, j: nat)
    requires i < j < |t| && t[i] == t[j]
    ensures multiset(t)[t[i]] >= 2
  {
    assert t == t[..j] + [t[j]] + t[j + 1..];
    assert t[i] in t[..j];
  }

  lemma {:induction false} AtMostOnce(s: seq<Policy>, p: Policy)
    requires Distinct(s)
    ensures multiset(s)[p] <= 1
  {
    if s != [] {
      AtMostOnce(s[1..], p);
      assert s == [s[0]] + s[1..];
    }
  }

  lemma SortedHeads(s: seq<Policy>, t: seq<Policy>)
    requires Sorted(s) && Sorted(t) && Distinct(s) && multiset(s) == multiset(t) && s != [] && t != []
    ensures s[0] == t[0]
  {
    assert s[0] in multiset(t) && t[0] in multiset(s);
    var a :| 0 <= a < |s| && s[a] == t[0];
    var b :| 0 <= b < |t| && t[b] == s[0];
    if a > 0 && b > 0 {
      StrLeAntisymmetric(s[0].name, s[a].name);
    }
  }

  lemma TailElements(s: seq<Policy>)
    requires s != []
    ensures multiset(s[1..]) == multiset(s) - multiset{s[0]}
  {
    assert s == [s[0]] + s[1..];
  }

  /** A strictly sorted selection is determined by its elements. */
  lemma {:induction false} SortedUnique(s: seq<Policy>, t: seq<Policy>)
    requires Sorted(s) && Sorted(t) && Distinct(s) && Distinct(t) && multiset(s) == multiset(t)
    ensures s == t
  {
    assert |s| == |multiset(s)| == |multiset(t)| == |t|;
    if s != [] {
      SortedHeads(s, t);
      TailElements(s);
      TailElements(t);
      SortedUnique(s[1..], t[1..]);
      assert s == [s[0]] + s[1..] && t == [t[0]] + t[1..];
    }
  }

  lemma SortCanonical(s: seq<Policy>, t: seq<Policy>)
    requires multiset(s) == multiset(t) && Distinct(s)
    ensures SortByName(s) == SortByName(t)
  {
    SortByNameSorts(s);
    SortByNameSorts(t);
    DistinctPermutation(s, SortByName(s));
    DistinctPermutation(s, SortByName(t));
    SortedUnique(SortByName(s), SortByName(t));
  }

  // ----- What a composition must be -----

  function ReplaceAll(s: string, token: string, value: string): string
    requires token != ""
  {
    if |s| < |token| then s
    else if s[..|token|] == token then value + ReplaceAll(s[|token|..], token, value)
    else [s[0]] + ReplaceAll(s[1..], token, value)
  }

  function ExpandedEnv(p: Policy): map<string, string> {
    map n | n in p.env :: ReplaceAll(p.env[n], MOUNT_TARGET_TOKEN, p.mountTarget)
  }

  function MergedEnv(s: seq<Policy>): map<string, string> {
    if s == [] then map[] else MergedEnv(s[..|s| - 1]) + ExpandedEnv(s[|s| - 1])
  }

  function SourceOf(p: Policy): Source { Source(p.name, p.revision, p.hcl, p.SourceGeneration()) }

  function SourcesOf(s: seq<Policy>): seq<Source> { seq(|s|, i requires 0 <= i < |s| => SourceOf(s[i])) }

  function SignedItoa(n: int): string { if n < 0 then "-" + Itoa(-n) else Itoa(n) }

  function HclSection(x: Externals, p: Policy, values: map<string, string>): string {
    "# Policy " + p.name + " (revision " + SignedItoa(p.revision) + ")\n" + x.expand(x.PublishedHcl(p), values) + "\n"
  }

  function HclText(x: Externals, s: seq<Policy>, values: map<string, string>): string {
    if s == [] then "" else HclText(x, s[..|s| - 1], values) + HclSection(x, s[|s| - 1], values)
  }

  function ToSet(s: seq<string>): set<string> { set n | n in s }

  function AllTransitKeys(s: seq<Policy>): set<string> { set p, n | p in s && n in p.TransitKeys() :: n }

  function AllCaRoles(s: seq<Policy>): set<string> { set p, n | p in s && n in p.CaRoles() :: n }

  function AllRestrictedKeys(s: seq<Policy>): set<string> { set p, n | p in s && n in p.RestrictedKeys() :: n }

  function AllRestrictedRoles(s: seq<Policy>): set<string> { set p, n | p in s && n in p.RestrictedRoles() :: n }

  /** The assignment the documents of `s`, in this order, resolve to. */
  function Resolved(x: Externals, s: seq<Policy>, settings: Settings): Effective
    requires s != []
  {
    Effective(SourcesOf(s), HclText(x, s, settings.values), exists p | p in s :: x.AgentRenewal(p),
              AllTransitKeys(s), AllCaRoles(s),
              AllRestrictedKeys(s) * AllTransitKeys(s), AllRestrictedRoles(s) * AllCaRoles(s),
              s[0].mountTarget, MergedEnv(s), settings.Defaults())
  }

  /** The assignment of a selection: its documents in name order. */
  function EffectiveOf(x: Externals, ps: seq<Policy>, settings: Settings): Effective
    requires ps != []
  {
    SortByNameSorts(ps);
    Resolved(x, SortByName(ps), settings)
  }

  /** Two documents that both set an environment name expand it alike. */
  predicate EnvAgree(p: Policy, q: Policy) {
    forall n | n in p.env && n in q.env :: ExpandedEnv(p)[n] == ExpandedEnv(q)[n]
  }

  predicate ValuesPresent(x: Externals, p: Policy, settings: Settings) {
    forall v | v in x.valueNames(p.hcl) :: v in settings.values
  }

  /** Exactly the selections that compose, said without an order. */
  predicate Composable(x: Externals, ps: seq<Policy>, settings: Settings) {
    && ps != []
    && (forall p | p in ps :: x.Valid(p) && ValuesPresent(x, p, settings))
    && Distinct(ps)
    && (forall p | p in ps :: p.mountTarget == ps[0].mountTarget)
    && (forall p, q | p in ps && q in ps :: EnvAgree(p, q))
    && |AllTransitKeys(ps)| <= MAXIMUM_IDENTITY_NAMES
    && |AllCaRoles(ps)| <= MAXIMUM_IDENTITY_NAMES
    && x.assignment(EffectiveOf(x, ps, settings))
  }

  /** What composing a selection gives: its assignment, or a refusal. */
  function Composed(x: Externals, ps: seq<Policy>, settings: Settings): Option<Effective> {
    if Composable(x, ps, settings) then Some(EffectiveOf(x, ps, settings)) else None
  }

  /**
   * Selecting the same documents in another order never changes the outcome:
   * either every order is refused or every order gives one assignment.
   */
  lemma ComposePermutation(x: Externals, ps: seq<Policy>, qs: seq<Policy>, settings: Settings)
    requires multiset(ps) == multiset(qs)
    ensures Composed(x, ps, settings) == Composed(x, qs, settings)
  {
    if Composable(x, ps, settings) {
      ComposePermutationOneWay(x, ps, qs, settings);
    } else if Composable(x, qs, settings) {
      ComposePermutationOneWay(x, qs, ps, settings);
    }
  }

  lemma SameSets(ps: seq<Policy>, qs: seq<Policy>)
    requires multiset(ps) == multiset(qs)
    ensures forall p :: p in ps <==> p in qs
    ensures AllTransitKeys(ps) == AllTransitKeys(qs) && AllCaRoles(ps) == AllCaRoles(qs)
  {
    assert forall p :: p in ps <==> p in multiset(ps);
    assert forall p :: p in qs <==> p in multiset(qs);
  }

  lemma ComposePermutationOneWay(x: Externals, ps: seq<Policy>, qs: seq<Policy>, settings: Settings)
    requires multiset(ps) == multiset(qs) && Composable(x, ps, settings)
    ensures Composable(x, qs, settings) && EffectiveOf(x, qs, settings) == EffectiveOf(x, ps, settings)
  {
    SameSets(ps, qs);
    DistinctPermutation(ps, qs);
    assert ps[0] in qs;
    assert EffectiveOf(x, qs, settings) == EffectiveOf(x, ps, settings) by {
      SortCanonical(ps, qs);
    }
  }

  // ----- Compose, as the source computes it -----

  datatype Problem =
    | NothingSelected
    | InvalidDocument(policy: string)
    | SelectedTwice(policy: string)
    | MountConflict(policy: string)
    | EnvConflict(name: string, policy: string)
    | NoValue(policy: string, value: string)
    | TooManyIdentities
    | InvalidAssignment

  /** The selection really has the problem it is refused for. */
  ghost predicate Explains(problem: Problem, x: Externals, ps: seq<Policy>, settings: Settings) {
    match problem
    case NothingSelected => ps == []
    case InvalidDocument(n) => exists p | p in ps :: p.name == n && !x.Valid(p)
    case SelectedTwice(n) => !Distinct(ps) && exists p | p in ps :: p.name == n
    case MountConflict(n) => exists p, q | p in ps && q in ps :: q.name == n && p.mountTarget != q.mountTarget
    case EnvConflict(v, n) =>
      exists p, q | p in ps && q in ps ::
        q.name == n && v in p.env && v in q.env && ExpandedEnv(p)[v] != ExpandedEnv(q)[v]
    case NoValue(n, v) => exists p | p in ps :: p.name == n && v in x.valueNames(p.hcl) && v !in settings.values
    case TooManyIdentities =>
      |AllTransitKeys(ps)| > MAXIMUM_IDENTITY_NAMES || |AllCaRoles(ps)| > MAXIMUM_IDENTITY_NAMES
    case InvalidAssignment => ps != [] && !x.assignment(EffectiveOf(x, ps, settings))
  }

  /** The documents of `s` pass every check made one document at a time. */
  ghost predicate Accepted(x: Externals, s: seq<Policy>, settings: Settings) {
    && (forall p | p in s :: x.Valid(p) && ValuesPresent(x, p, settings))
    && Distinct(s)
    && (forall p | p in s :: p.mountTarget == s[0].mountTarget)
    && (forall p, q | p in s && q in s :: EnvAgree(p, q))
  }

  lemma {:induction false} MergedEnvKeys(s: seq<Policy>, n: string)
    ensures n in MergedEnv(s) <==> exists p | p in s :: n in p.env
    ensures n in MergedEnv(s) ==> exists p | p in s :: n in p.env && MergedEnv(s)[n] == ExpandedEnv(p)[n]
  {
    if s != [] {
      var init, last := s[..|s| - 1], s[|s| - 1];
      assert s == init + [last];
      MergedEnvKeys(init, n);
      if n in MergedEnv(s) {
        if n !in last.env {
          var p :| p in init && n in p.env && MergedEnv(init)[n] == ExpandedEnv(p)[n];
          assert p in s;
        }
      }
    }
  }

  /** All selected documents agree with the environment the assignment carries. */
  lemma MergedEnvAgrees(x: Externals, s: seq<Policy>, settings: Settings, p: Policy, n: string)
    requires Accepted(x, s, settings) && p in s && n in p.env
    ensures n in MergedEnv(s) && MergedEnv(s)[n] == ExpandedEnv(p)[n]
  {
    MergedEnvKeys(s, n);
    var q :| q in s && n in q.env && MergedEnv(s)[n] == ExpandedEnv(q)[n];
    assert EnvAgree(p, q);
  }

  lemma SetsExtend(s: seq<Policy>, p: Policy)
    ensures AllTransitKeys(s + [p]) == AllTransitKeys(s) + ToSet(p.TransitKeys())
    ensures AllCaRoles(s + [p]) == AllCaRoles(s) + ToSet(p.CaRoles())
    ensures AllRestrictedKeys(s + [p]) == AllRestrictedKeys(s) + ToSet(p.RestrictedKeys())
    ensures AllRestrictedRoles(s + [p]) == AllRestrictedRoles(s) + ToSet(p.RestrictedRoles())
  {
    assert forall q :: q in s + [p] <==> q in s || q == p;
  }

  /** Adds one document's environment, or names a value that disagrees with what is there. */
  method MergeEnv(env: map<string, string>, p: Policy) returns (r: Result<map<string, string>, string>)
    ensures r.Ok? ==> r.value == env + ExpandedEnv(p)
    ensures r.Ok? ==> forall n | n in env && n in p.env :: env[n] == ExpandedEnv(p)[n]
    ensures r.Err? ==> r.error in env && r.error in p.env && env[r.error] != ExpandedEnv(p)[r.error]
  {
    var merged, todo := env, p.env.Keys;
    while todo != {}
      invariant todo <= p.env.Keys
      invariant merged.Keys == env.Keys + (p.env.Keys - todo)
      invariant forall n | n in merged :: merged[n] == if n in p.env && n !in todo then ExpandedEnv(p)[n] else env[n]
      invariant forall n | n in env && n in p.env && n !in todo :: env[n] == ExpandedEnv(p)[n]
      decreases todo
    {
      var n :| n in todo;
      var value := ReplaceAll(p.env[n], MOUNT_TARGET_TOKEN, p.mountTarget);
      if n in merged && merged[n] != value {
        return Err(n);
      }
      merged := merged[n := value];
      todo := todo - {n};
    }
    assert merged == env + ExpandedEnv(p);
    r := Ok(merged);
  }

  /** The first value a document needs and the settings lack. */
  method MissingValue(names: seq<string>, values: map<string, string>) returns (r: Option<string>)
    ensures r.None? ==> forall v | v in names :: v in values
    ensures r.Some? ==> r.value in names && r.value !in values
  {
    for i := 0 to |names|
      invariant forall v | v in names[..i] :: v in values
    {
      if names[i] !in values {
        return Some(names[i]);
      }
    }
    r := None;
  }

  lemma AgreesWithMerged(x: Externals, s: seq<Policy>, p: Policy, settings: Settings, q: Policy)
    requires Accepted(x, s, settings) && q in s
    requires forall n | n in MergedEnv(s) && n in p.env :: MergedEnv(s)[n] == ExpandedEnv(p)[n]
    ensures EnvAgree(p, q) && EnvAgree(q, p)
  {
    forall n | n in p.env && n in q.env ensures ExpandedEnv(p)[n] == ExpandedEnv(q)[n] {
      MergedEnvAgrees(x, s, settings, q, n);
    }
  }

  lemma NameIsNew(s: seq<Policy>, p: Policy)
    requires Distinct(s) && p.name !in ToSet(NamesOf(s))
    ensures Distinct(s + [p])
  {
    forall i | 0 <= i < |s| ensures s[i].name != p.name {
      assert NamesOf(s)[i] in ToSet(NamesOf(s));
    }
  }

  /** Accepting one more document after the per-document checks passed. */
  lemma AcceptedExtends(x: Externals, s: seq<Policy>, p: Policy, settings: Settings)
    requires Accepted(x, s, settings)
    requires x.Valid(p) && ValuesPresent(x, p, settings)
    requires p.name !in ToSet(NamesOf(s))
    requires s != [] ==> p.mountTarget == s[0].mountTarget
    requires forall n | n in MergedEnv(s) && n in p.env :: MergedEnv(s)[n] == ExpandedEnv(p)[n]
    ensures Accepted(x, s + [p], settings)
  {
    NameIsNew(s, p);
    AllAgree(x, s, p, settings);
    assert forall q :: q in s + [p] <==> q in s || q == p;
    assert (s + [p])[0] == if s == [] then p else s[0];
  }

  lemma AllAgree(x: Externals, s: seq<Policy>, p: Policy, settings: Settings)
    requires Accepted(x, s, settings)
    requires forall n | n in MergedEnv(s) && n in p.env :: MergedEnv(s)[n] == ExpandedEnv(p)[n]
    ensures forall q, r | q in s + [p] && r in s + [p] :: EnvAgree(q, r)
  {
    forall q, r | q in s + [p] && r in s + [p] ensures EnvAgree(q, r) {
      assert (q in s || q == p) && (r in s || r == p);
      if q in s && r !in s {
        AgreesWithMerged(x, s, p, settings, q);
      } else if q !in s && r in s {
        AgreesWithMerged(x, s, p, settings, r);
      }
    }
  }

  lemma NamesOfAppend(s: seq<Policy>, p: Policy)
    ensures NamesOf(s + [p]) == NamesOf(s) + [p.name]
    ensures ToSet(NamesOf(s + [p])) == ToSet(NamesOf(s)) + {p.name}
    ensures SourcesOf(s + [p]) == SourcesOf(s) + [SourceOf(p)]
  {
    assert NamesOf(s + [p]) == NamesOf(s) + [p.name];
  }

  /** A name already seen in a prefix repeats in the whole. */
  lemma SeenRepeats(s: seq<Policy>, i: nat)
    requires i < |s| && s[i].name in ToSet(NamesOf(s[..i]))
    ensures !Distinct(s)
  {
    var j :| 0 <= j < i && NamesOf(s[..i])[j] == s[i].name;
    assert s[j].name == s[i].name;
  }

  /** Moving between a selection and its sorted form. */
  lemma SortedSelection(ps: seq<Policy>)
    ensures var s := SortByName(ps);
            && (forall p :: p in s <==> p in ps) && (Distinct(s) <==> Distinct(ps)) && |s| == |ps|
            && AllTransitKeys(s) == AllTransitKeys(ps) && AllCaRoles(s) == AllCaRoles(ps)
  {
    SortByNameSorts(ps);
    SameSets(ps, SortByName(ps));
    if Distinct(ps) {
      DistinctPermutation(ps, SortByName(ps));
    } else if Distinct(SortByName(ps)) {
      DistinctPermutation(SortByName(ps), ps);
    }
  }

  lemma ComposableFromAccepted(x: Externals, ps: seq<Policy>, settings: Settings)
    requires ps != [] && Accepted(x, SortByName(ps), settings)
    requires |AllTransitKeys(SortByName(ps))| <= MAXIMUM_IDENTITY_NAMES
    requires |AllCaRoles(SortByName(ps))| <= MAXIMUM_IDENTITY_NAMES
    requires x.assignment(EffectiveOf(x, ps, settings))
    ensures Composable(x, ps, settings)
  {
    SortedSelection(ps);
  }

  lemma DisagreementIsRefused(x: Externals, ps: seq<Policy>, settings: Settings, p: Policy, q: Policy, v: string)
    requires p in ps && q in ps && v in p.env && v in q.env && ExpandedEnv(p)[v] != ExpandedEnv(q)[v]
    ensures !Composable(x, ps, settings)
  {
    assert !EnvAgree(p, q);
  }

  /** A selection with a problem does not compose. */
  lemma ExplainedIsRefused(problem: Problem, x: Externals, ps: seq<Policy>, settings: Settings)
    requires Explains(problem, x, ps, settings)
    ensures !Composable(x, ps, settings)
  {
    match problem
    case EnvConflict(v, n) =>
      var p, q :| p in ps && q in ps && q.name == n && v in p.env && v in q.env
                  && ExpandedEnv(p)[v] != ExpandedEnv(q)[v];
      DisagreementIsRefused(x, ps, settings, p, q, v);
    case NothingSelected =>
    case InvalidDocument(n) =>
    case SelectedTwice(n) =>
    case MountConflict(n) =>
      var p, q :| p in ps && q in ps && p.mountTarget != q.mountTarget;
    case NoValue(n, v) =>
      var p :| p in ps && v in x.valueNames(p.hcl) && v !in settings.values;
      assert !ValuesPresent(x, p, settings);
    case TooManyIdentities =>
    case InvalidAssignment =>
  }

  /** What the loop of Compose has gathered from a prefix of the sorted selection. */
  datatype Gathered = Gathered(
    env: map<string, string>, seen: set<string>, sources: seq<Source>, text: string, renew: bool,
    keys: set<string>, roles: set<string>, restrictedKeys: set<string>, restrictedRoles: set<string>)

  ghost function GatheredFrom(x: Externals, s: seq<Policy>, values: map<string, string>): Gathered {
    Gathered(MergedEnv(s), ToSet(NamesOf(s)), SourcesOf(s), HclText(x, s, values),
             exists p | p in s :: x.AgentRenewal(p),
             AllTransitKeys(s), AllCaRoles(s), AllRestrictedKeys(s), AllRestrictedRoles(s))
  }

  function Gather(x: Externals, g: Gathered, p: Policy, env: map<string, string>, values: map<string, string>): Gathered {
    Gathered(env, g.seen + {p.name}, g.sources + [SourceOf(p)], g.text + HclSection(x, p, values),
             g.renew || x.AgentRenewal(p), g.keys + ToSet(p.TransitKeys()), g.roles + ToSet(p.CaRoles()),
             g.restrictedKeys + ToSet(p.RestrictedKeys()), g.restrictedRoles + ToSet(p.RestrictedRoles()))
  }

  lemma GatherExtends(x: Externals, s: seq<Policy>, p: Policy, values: map<string, string>)
    ensures Gather(x, GatheredFrom(x, s, values), p, MergedEnv(s) + ExpandedEnv(p), values)
            == GatheredFrom(x, s + [p], values)
  {
    var t := s + [p];
    assert t[..|t| - 1] == s && t[|t| - 1] == p;
    assert forall q :: q in t <==> q in s || q == p;
    NamesOfAppend(s, p);
    SetsExtend(s, p);
  }

  /**
   * Compose unions documents in name order and refuses a conflict instead of
   * choosing a winner.
   */
  method Compose(x: Externals, policies: seq<Policy>, settings: Settings) returns (r: Result<Effective, Problem>)
    ensures r.Ok? <==> Composable(x, policies, settings)
    ensures r.Ok? ==> Composed(x, policies, settings) == Some(r.value)
    ensures r.Err? ==> Explains(r.error, x, policies, settings)
  {
    if policies == [] {
      return Err(NothingSelected);
    }
    var gathered := GatherAll(x, policies, settings);
    if gathered.Err? {
      ExplainedIsRefused(gathered.error, x, policies, settings);
      return Err(gathered.error);
    }
    var s, g := SortByName(policies), gathered.value;
    SortedSelection(policies);
    var result := Effective(g.sources, g.text, g.renew, g.keys, g.roles, g.restrictedKeys * g.keys,
                            g.restrictedRoles * g.roles, s[0].mountTarget, g.env, settings.Defaults());
    assert result == EffectiveOf(x, policies, settings);
    if |g.keys| > MAXIMUM_IDENTITY_NAMES || |g.roles| > MAXIMUM_IDENTITY_NAMES {
      return Err(TooManyIdentities);
    }
    if !x.assignment(result) {
      return Err(InvalidAssignment);
    }
    ComposableFromAccepted(x, policies, settings);
    r := Ok(result);
  }

  /** The loop of Compose over the sorted documents. */
  method GatherAll(x: Externals, policies: seq<Policy>, settings: Settings) returns (r: Result<Gathered, Problem>)
    ensures r.Err? ==> Explains(r.error, x, policies, settings)
    ensures r.Ok? ==> Accepted(x, SortByName(policies), settings)
    ensures r.Ok? ==> r.value == GatheredFrom(x, SortByName(policies), settings.values)
  {
    var s := SortByName(policies);
    var g := Gathered(map[], {}, [], "", false, {}, {}, {}, {});
    GatheredNothing(x, s, settings);
    for i := 0 to |s|
      invariant Accepted(x, s[..i], settings)
      invariant g == GatheredFrom(x, s[..i], settings.values)
    {
      var next := GatherNext(x, policies, s, i, g, settings);
      if next.Err? {
        return next;
      }
      g := next.value;
    }
    TakeAll(s);
    r := Ok(g);
  }

  lemma GatheredNothing(x: Externals, s: seq<Policy>, settings: Settings)
    ensures Accepted(x, s[..0], settings)
    ensures GatheredFrom(x, s[..0], settings.values) == Gathered(map[], {}, [], "", false, {}, {}, {}, {})
  {
  }

  /** One document: checked, then added to what the earlier ones gave. */
  method GatherNext(x: Externals, policies: seq<Policy>, s: seq<Policy>, i: nat, g: Gathered, settings: Settings)
    returns (r: Result<Gathered, Problem>)
    requires i < |s| && s == SortByName(policies)
    requires Accepted(x, s[..i], settings) && g == GatheredFrom(x, s[..i], settings.values)
    ensures r.Err? ==> Explains(r.error, x, policies, settings)
    ensures r.Ok? ==> Accepted(x, s[..i + 1], settings) && r.value == GatheredFrom(x, s[..i + 1], settings.values)
  {
    var env := CheckNext(x, policies, s, i, g.env, g.seen, settings);
    if env.Err? {
      return Err(env.error);
    }
    TakeNext(s, i);
    AcceptedExtends(x, s[..i], s[i], settings);
    GatherExtends(x, s[..i], s[i], settings.values);
    r := Ok(Gather(x, g, s[i], env.value, settings.values));
  }

  /** The checks made for the document at `i`, in the source's order; on success, the extended environment. */
  method CheckNext(x: Externals, policies: seq<Policy>, s: seq<Policy>, i: nat, env: map<string, string>,
                   seen: set<string>, settings: Settings) returns (r: Result<map<string, string>, Problem>)
    requires i < |s| && s == SortByName(policies)
    requires Accepted(x, s[..i], settings) && env == MergedEnv(s[..i]) && seen == ToSet(NamesOf(s[..i]))
    ensures r.Err? ==> Explains(r.error, x, policies, settings)
    ensures r.Ok? ==> x.Valid(s[i]) && ValuesPresent(x, s[i], settings) && s[i].name !in seen
                      && s[i].mountTarget == s[0].mountTarget && r.value == env + ExpandedEnv(s[i])
    ensures r.Ok? ==> forall n | n in env && n in s[i].env :: env[n] == ExpandedEnv(s[i])[n]
  {
    var p := s[i];
    SortedSelection(policies);
    assert p in policies && s[0] in policies;
    if !x.Valid(p) {
      return Err(InvalidDocument(p.name));
    }
    if p.name in seen {
      SeenRepeats(s, i);
      return Err(SelectedTwice(p.name));
    }
    if p.mountTarget != s[0].mountTarget {
      return Err(MountConflict(p.name));
    }
    var merged := MergeEnv(env, p);
    if merged.Err? {
      var n := merged.error;
      MergedEnvKeys(s[..i], n);
      ghost var q :| q in s[..i] && n in q.env && env[n] == ExpandedEnv(q)[n];
      assert q in s && q in policies;
      assert Explains(EnvConflict(n, p.name), x, policies, settings);
      return Err(EnvConflict(n, p.name));
    }
    var missing := MissingValue(x.valueNames(p.hcl), settings.values);
    if missing.Some? {
      return Err(NoValue(p.name, missing.value));
    }
    r := Ok(merged.value);
  }

  // ----- What a successful composition means -----

  /** Some selected document offers, or restricts, the identity. */
  ghost predicate OffersKey(ps: seq<Policy>, k: string) { exists p | p in ps :: k in p.TransitKeys() }
  ghost predicate OffersRole(ps: seq<Policy>, r: string) { exists p | p in ps :: r in p.CaRoles() }
  ghost predicate RestrictsKey(ps: seq<Policy>, k: string) { exists p | p in ps :: k in p.RestrictedKeys() }
  ghost predicate RestrictsRole(ps: seq<Policy>, r: string) { exists p | p in ps :: r in p.RestrictedRoles() }
  ghost predicate SetsEnv(ps: seq<Policy>, n: string) { exists p | p in ps :: n in p.env }

  lemma ComposedResolves(x: Externals, ps: seq<Policy>, settings: Settings, e: Effective)
    requires Composed(x, ps, settings) == Some(e)
    ensures ps != [] && SortByName(ps) != []
    ensures e == Resolved(x, SortByName(ps), settings)
    ensures Accepted(x, SortByName(ps), settings)
  {
    SortedSelection(ps);
    assert SortByName(ps)[0] in ps;
  }

  /** An assignment offers exactly the union of what its policies offer, and restricts what any of them restricts. */
  lemma ComposedIdentities(x: Externals, ps: seq<Policy>, settings: Settings, e: Effective, n: string)
    requires Composed(x, ps, settings) == Some(e)
    ensures n in e.transitKeys <==> OffersKey(ps, n)
    ensures n in e.caRoles <==> OffersRole(ps, n)
    ensures n in e.restrictedKeys <==> n in e.transitKeys && RestrictsKey(ps, n)
    ensures n in e.restrictedRoles <==> n in e.caRoles && RestrictsRole(ps, n)
  {
    ComposedResolves(x, ps, settings, e);
    ResolvedIdentities(x, SortByName(ps), settings, n);
    SortedSelection(ps);
  }

  lemma ResolvedIdentities(x: Externals, s: seq<Policy>, settings: Settings, n: string)
    requires s != []
    ensures var e := Resolved(x, s, settings);
            && (n in e.transitKeys <==> OffersKey(s, n))
            && (n in e.caRoles <==> OffersRole(s, n))
            && (n in e.restrictedKeys <==> n in e.transitKeys && RestrictsKey(s, n))
            && (n in e.restrictedRoles <==> n in e.caRoles && RestrictsRole(s, n))
  {
  }

  /**
   * Every policy agrees with every environment value the assignment carries and
   * with its mount target, and the assignment carries no other name.
   */
  lemma ComposedEnv(x: Externals, ps: seq<Policy>, settings: Settings, e: Effective, p: Policy, n: string)
    requires Composed(x, ps, settings) == Some(e) && p in ps
    ensures n in p.env ==> n in e.env && e.env[n] == ExpandedEnv(p)[n]
    ensures n in e.env <==> SetsEnv(ps, n)
    ensures e.mountTarget == p.mountTarget
    ensures e.settings == settings.Defaults()
  {
    ComposedResolves(x, ps, settings, e);
    var s := SortByName(ps);
    assert forall q :: q in s <==> q in ps by { SortedSelection(ps); }
    MergedEnvKeys(s, n);
    if n in p.env {
      MergedEnvAgrees(x, s, settings, p, n);
    }
  }

  /** An assignment lists its policies once each, in name order, by their OpenBao identities. */
  lemma ComposedSources(x: Externals, ps: seq<Policy>, settings: Settings, e: Effective)
    requires Composed(x, ps, settings) == Some(e)
    ensures e.Names() == SortNames(NamesOf(ps))
    ensures e.OpenBaoPolicies() == IdentitiesOf(SortByName(ps))
    ensures e.sources == SourcesOf(SortByName(ps)) && |ps| > 0
  {
    ComposedResolves(x, ps, settings, e);
    ResolvedSources(x, SortByName(ps), settings);
    NamesOfSort(ps);
  }

  function IdentitiesOf(s: seq<Policy>): seq<string> { seq(|s|, i requires 0 <= i < |s| => s[i].Identity()) }

  lemma ResolvedSources(x: Externals, s: seq<Policy>, settings: Settings)
    requires s != []
    ensures Resolved(x, s, settings).Names() == NamesOf(s)
    ensures Resolved(x, s, settings).OpenBaoPolicies() == IdentitiesOf(s)
  {
  }

  /** The identities of a selection, whichever order lists them. */
  lemma IdentityListed(ps: seq<Policy>, id: string)
    ensures id in IdentitiesOf(SortByName(ps)) <==> exists p | p in ps :: p.Identity() == id
  {
    var s := SortByName(ps);
    assert forall q :: q in s <==> q in ps by { SortedSelection(ps); }
    if id in IdentitiesOf(s) {
      var i :| 0 <= i < |s| && s[i].Identity() == id;
      assert s[i] in ps;
    }
    if exists p | p in ps :: p.Identity() == id {
      var p :| p in ps && p.Identity() == id;
      var i :| 0 <= i < |s| && s[i] == p;
      assert IdentitiesOf(s)[i] == id;
    }
  }

  /** Filling in the default settings first changes nothing. */
  lemma ComposedDefaults(x: Externals, ps: seq<Policy>, settings: Settings)
    ensures Composed(x, ps, settings.Defaults()) == Composed(x, ps, settings)
  {
    if ps != [] {
      assert EffectiveOf(x, ps, settings.Defaults()) == EffectiveOf(x, ps, settings);
    }
    assert forall p :: ValuesPresent(x, p, settings.Defaults()) == ValuesPresent(x, p, settings);
  }
}
