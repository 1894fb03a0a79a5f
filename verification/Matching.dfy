/**
 * Which binding governs a container (internal/controller/session.go and
 * internal/agent/agent.go).
 *
 * The controller looks a container up among all of an agent's bindings; the agent
 * only ever sees the bindings its policy set carries. The two must agree.
 */
module Matching {
  import opened Basics
  import opened Records

  const MAXIMUM_KEY_VALUE_BYTES := 512

  // ----- Keys of an engine container -----

  /** The parts of an engine container that its keys come from. */
  datatype EngineContainer = EngineContainer(id: string, labels: map<string, string>, shortName: string)

  function Label(c: EngineContainer, name: string): string {
    if name in c.labels then c.labels[name] else ""
  }

  predicate ValidKey(key: Key) { 0 < |key.value| <= MAXIMUM_KEY_VALUE_BYTES }

  function ValidOnly(keys: seq<Key>): seq<Key> {
    if keys == [] then []
    else (if ValidKey(keys[0]) then [keys[0]] else []) + ValidOnly(keys[1..])
  }

  /** A container's candidate keys: devcontainer, then compose, then its own name. */
  function Keys(c: EngineContainer): seq<Key> {
    var folder, file := Label(c, "devcontainer.local_folder"), Label(c, "devcontainer.config_file");
    var project, service := Label(c, "com.docker.compose.project"), Label(c, "com.docker.compose.service");
    ValidOnly(
      (if folder == "" then [] else [Key(Devcontainer, if file == "" then folder else folder + "|" + file)])
      + (if project == "" || service == "" then [] else [Key(KeyKind.Compose, project + "/" + service)])
      + (if c.shortName == "" then [] else [Key(Name, c.shortName)]))
  }

  /** What the controller learns of a container: its keys, as ordered here. */
  function Report(c: EngineContainer): Container { Container(c.id, c.shortName, Keys(c)) }

  // ----- Governing, said without maps or scans -----

  /** No two bindings of one agent share an identifier or a key. */
  ghost predicate Keyed(bindings: seq<Binding>) {
    forall i, j | 0 <= i < j < |bindings| ::
      bindings[i].id != bindings[j].id && bindings[i].key != bindings[j].key
  }

  ghost predicate Bound(bindings: seq<Binding>, key: Key) { exists b | b in bindings :: b.key == key }

  /** `b` holds the earliest key of `keys` that any binding holds. */
  ghost predicate Governs(b: Binding, keys: seq<Key>, bindings: seq<Binding>) {
    && b in bindings
    && exists i | 0 <= i < |keys| :: keys[i] == b.key && forall j | 0 <= j < i :: !Bound(bindings, keys[j])
  }

  ghost predicate Ungoverned(keys: seq<Key>, bindings: seq<Binding>) {
    forall i | 0 <= i < |keys| :: !Bound(bindings, keys[i])
  }

  lemma GovernsUnique(a: Binding, b: Binding, keys: seq<Key>, bindings: seq<Binding>)
    requires Keyed(bindings) && Governs(a, keys, bindings) && Governs(b, keys, bindings)
    ensures a == b
  {
    var i :| 0 <= i < |keys| && keys[i] == a.key && forall j | 0 <= j < i :: !Bound(bindings, keys[j]);
    var k :| 0 <= k < |keys| && keys[k] == b.key && forall j | 0 <= j < k :: !Bound(bindings, keys[j]);
    assert Bound(bindings, keys[i]) && Bound(bindings, keys[k]);
    var p :| 0 <= p < |bindings| && bindings[p] == a;
    var q :| 0 <= q < |bindings| && bindings[q] == b;
    assert i == k;
  }

  // ----- The controller's lookups -----

  ghost predicate Indexes(byKey: map<Key, Binding>, bindings: seq<Binding>) {
    && (forall k | k in byKey :: byKey[k] in bindings && byKey[k].key == k)
    && (forall b | b in bindings :: b.key in byKey)
  }

  method IndexByKey(bindings: seq<Binding>) returns (byKey: map<Key, Binding>)
    ensures Indexes(byKey, bindings)
  {
    byKey := map[];
    for i := 0 to |bindings|
      invariant Indexes(byKey, bindings[..i])
    {
      byKey := byKey[bindings[i].key := bindings[i]];
    }
    assert bindings[..|bindings|] == bindings;
  }

  /** The first indexed binding along a container's keys. */
  method FirstIndexed(keys: seq<Key>, byKey: map<Key, Binding>, ghost bindings: seq<Binding>) returns (r: Option<Binding>)
    requires Indexes(byKey, bindings)
    ensures r.Some? ==> Governs(r.value, keys, bindings)
    ensures r.None? ==> Ungoverned(keys, bindings)
  {
    for i := 0 to |keys|
      invariant forall j | 0 <= j < i :: !Bound(bindings, keys[j])
    {
      if keys[i] in byKey {
        return Some(byKey[keys[i]]);
      }
    }
    r := None;
  }

  /** Looks a container up by key precedence among all of an agent's bindings. */
  method ContainerBinding(container: Container, bindings: seq<Binding>) returns (r: Option<Binding>)
    ensures r.Some? ==> Governs(r.value, container.keys, bindings)
    ensures r.None? <==> Ungoverned(container.keys, bindings)
  {
    var byKey := IndexByKey(bindings);
    r := FirstIndexed(container.keys, byKey, bindings);
    if r.Some? {
      assert Bound(bindings, r.value.key);
    }
  }

  ghost predicate Matched(b: Binding, containers: seq<Container>, bindings: seq<Binding>) {
    exists c | c in containers :: Governs(b, c.keys, bindings)
  }

  ghost predicate NoRepeats(s: seq<Binding>) { forall i, j | 0 <= i < j < |s| :: s[i].id != s[j].id }

  lemma SameIdSame(bindings: seq<Binding>, a: Binding, b: Binding)
    requires Keyed(bindings) && a in bindings && b in bindings && a.id == b.id
    ensures a == b
  {
    var i :| 0 <= i < |bindings| && bindings[i] == a;
    var j :| 0 <= j < |bindings| && bindings[j] == b;
  }

  /** Exactly the governing bindings of these containers, without repeats. */
  method MatchBindings(containers: seq<Container>, bindings: seq<Binding>) returns (matched: seq<Binding>)
    requires Keyed(bindings)
    ensures NoRepeats(matched)
    ensures forall b :: b in matched <==> Matched(b, containers, bindings)
  {
    var byKey := IndexByKey(bindings);
    var seen := {};
    matched := [];
    for i := 0 to |containers|
      invariant NoRepeats(matched) && seen == set b | b in matched :: b.id
      invariant forall b :: b in matched <==> Matched(b, containers[..i], bindings)
    {
      var c := containers[i];
      var r := FirstIndexed(c.keys, byKey, bindings);
      forall b | b in bindings && b.id in seen ensures b in matched {
        var other :| other in matched && other.id == b.id;
        SameIdSame(bindings, other, b);
      }
      if r.Some? && r.value.id !in seen {
        seen := seen + {r.value.id};
        matched := matched + [r.value];
      }
      forall b ensures b in matched <==> Matched(b, containers[..i + 1], bindings) {
        MatchedExtends(b, containers, i, bindings);
        if Governs(b, c.keys, bindings) {
          assert r.Some? by { GovernedIsBound(b, c.keys, bindings); }
          GovernsUnique(b, r.value, c.keys, bindings);
        }
      }
    }
    assert containers[..|containers|] == containers;
  }

  lemma GovernedIsBound(b: Binding, keys: seq<Key>, bindings: seq<Binding>)
    requires Governs(b, keys, bindings)
    ensures !Ungoverned(keys, bindings)
  {
    assert Bound(bindings, b.key);
  }

  lemma MatchedExtends(b: Binding, containers: seq<Container>, i: nat, bindings: seq<Binding>)
    requires i < |containers|
    ensures Matched(b, containers[..i + 1], bindings)
            <==> Matched(b, containers[..i], bindings) || Governs(b, containers[i].keys, bindings)
  {
    assert containers[..i + 1] == containers[..i] + [containers[i]];
    assert forall c :: c in containers[..i + 1] <==> c in containers[..i] || c == containers[i];
  }

  /** What a policy set carries: governing bindings and all name bindings, without repeats. */
  method CarriedBindings(containers: seq<Container>, bindings: seq<Binding>) returns (carried: seq<Binding>)
    requires Keyed(bindings)
    ensures NoRepeats(carried)
    ensures forall b :: b in carried <==> Matched(b, containers, bindings) || (b in bindings && b.key.kind == Name)
  {
    var matched := MatchBindings(containers, bindings);
    carried := matched;
    var seen := set b | b in matched :: b.id;
    for i := 0 to |bindings|
      invariant NoRepeats(carried)
      invariant forall b :: b in carried <==> b in matched || (b in bindings[..i] && b.key.kind == Name && b.id !in seen)
    {
      if bindings[i].key.kind == Name && bindings[i].id !in seen {
        forall b | b in carried ensures b.id != bindings[i].id {
          if b in bindings[..i] {
            var j :| 0 <= j < i && bindings[j] == b;
          }
        }
        carried := carried + [bindings[i]];
      }
    }
    assert bindings[..|bindings|] == bindings;
    forall b | b in bindings && b.id in seen ensures b in matched {
      var other :| other in matched && other.id == b.id;
      SameIdSame(bindings, other, b);
    }
  }

  // ----- The agent's scan -----

  /** The agent's own search: key by key, through the whole policy set. */
  method Governing(keys: seq<Key>, policySet: seq<Binding>) returns (r: Option<Binding>)
    ensures r.Some? ==> Governs(r.value, keys, policySet)
    ensures r.None? <==> Ungoverned(keys, policySet)
  {
    for i := 0 to |keys|
      invariant forall j | 0 <= j < i :: !Bound(policySet, keys[j])
    {
      for k := 0 to |policySet|
        invariant forall j | 0 <= j < k :: policySet[j].key != keys[i]
      {
        if policySet[k].key == keys[i] {
          r := Some(policySet[k]);
          GovernedIsBound(policySet[k], keys, policySet);
          return;
        }
      }
    }
    r := None;
  }

  /** A policy set as the controller computes it for an inventory. */
  ghost predicate Carries(carried: seq<Binding>, containers: seq<Container>, bindings: seq<Binding>) {
    forall b :: b in carried <==> Matched(b, containers, bindings) || (b in bindings && b.key.kind == Name)
  }

  /**
   * For a container the agent reported, scanning only the carried bindings finds
   * exactly the binding that governs it among all the agent's bindings.
   */
  lemma CarriedGovernsTheSame(c: EngineContainer, containers: seq<Container>, bindings: seq<Binding>,
                              carried: seq<Binding>, b: Binding)
    requires Report(c) in containers && Carries(carried, containers, bindings)
    ensures Governs(b, Keys(c), carried) <==> Governs(b, Report(c).keys, bindings)
    ensures Ungoverned(Keys(c), carried) <==> Ungoverned(Report(c).keys, bindings)
  {
    var keys := Keys(c);
    CarriedAreStored(containers, bindings, carried);
    if Governs(b, keys, bindings) {
      assert b in carried;
    }
    if Governs(b, keys, carried) {
      var i :| 0 <= i < |keys| && keys[i] == b.key && forall j | 0 <= j < i :: !Bound(carried, keys[j]);
      FirstBound(c, containers, bindings, carried, i);
    }
    if Ungoverned(keys, carried) {
      FirstBound(c, containers, bindings, carried, |keys|);
    }
  }

  lemma CarriedAreStored(containers: seq<Container>, bindings: seq<Binding>, carried: seq<Binding>)
    requires Carries(carried, containers, bindings)
    ensures forall b | b in carried :: b in bindings
    ensures forall k | Bound(carried, k) :: Bound(bindings, k)
  {
  }

  /** If no carried binding holds an earlier key of a reported container, no stored one does. */
  lemma {:induction false} FirstBound(c: EngineContainer, containers: seq<Container>, bindings: seq<Binding>,
                                      carried: seq<Binding>, i: nat)
    requires Report(c) in containers && Carries(carried, containers, bindings)
    requires i <= |Keys(c)| && forall j | 0 <= j < i :: !Bound(carried, Keys(c)[j])
    ensures forall j | 0 <= j < i :: !Bound(bindings, Keys(c)[j])
  {
    if i > 0 {
      FirstBound(c, containers, bindings, carried, i - 1);
    }
  }
}
