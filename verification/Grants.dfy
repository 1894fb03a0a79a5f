/**
 * What an operator key may reach (operator/types.go), and the document an operator
 * writes (internal/controller/operator_session.go).
 */
module Grants {
  import opened Basics
  import opened Composition
  import opened Records

  const ALL_NAMES := "*"

  datatype Action = Read | Bind | PolicyWrite

  predicate ListAllows(list: seq<string>, name: string) { list == [ALL_NAMES] || name in list }

  datatype Grant = Grant(agents: seq<string>, policies: seq<string>, actions: seq<Action>)
  {
    predicate Can(action: Action) { action in actions }

    predicate AllowsAgent(name: string) { ListAllows(agents, name) }

    predicate AllowsPolicy(name: string) { ListAllows(policies, name) }

    /** One policy that is not allowed is enough to lose the whole selection. */
    predicate Covers(agent: string, names: seq<string>) {
      AllowsAgent(agent) && forall n | n in names :: AllowsPolicy(n)
    }

    predicate CoversBinding(b: Binding) { Covers(b.agent, b.policies) }
  }

  method Covers(grant: Grant, agent: string, names: seq<string>) returns (covered: bool)
    ensures covered <==> grant.Covers(agent, names)
  {
    if !grant.AllowsAgent(agent) {
      return false;
    }
    for i := 0 to |names|
      invariant forall n | n in names[..i] :: grant.AllowsPolicy(n)
    {
      if !grant.AllowsPolicy(names[i]) {
        assert names[i] in names;
        return false;
      }
      assert names[..i + 1] == names[..i] + [names[i]];
    }
    assert names[..|names|] == names;
    covered := true;
  }

  /** A key that covers a selection covers it in any order, and every part of it. */
  lemma CoversPart(grant: Grant, agent: string, names: seq<string>, part: seq<string>)
    requires grant.Covers(agent, names) && multiset(part) <= multiset(names)
    ensures grant.Covers(agent, part)
  {
    forall n | n in part ensures grant.AllowsPolicy(n) {
      assert n in multiset(part) && n in multiset(names);
    }
  }

  // ----- The document of a policy put -----

  function Kept(marked: seq<string>, offered: seq<string>): seq<string> {
    if marked == [] then []
    else (if marked[0] in offered then [marked[0]] else []) + Kept(marked[1..], offered)
  }

  lemma {:induction false} KeptElements(marked: seq<string>, offered: seq<string>, n: string)
    ensures n in Kept(marked, offered) <==> n in marked && n in offered
  {
    if marked != [] {
      KeptElements(marked[1..], offered, n);
      assert marked == [marked[0]] + marked[1..];
    }
  }

  /** The new offer, with the old marks cut down to it. */
  function ReplaceSsh(previous: Option<Ssh>, keys: seq<string>, roles: seq<string>): Option<Ssh> {
    if keys == [] && roles == [] then None
    else if previous.None? || previous.value.notForwardable.None? then Some(Ssh(keys, roles, None))
    else
      var marked := previous.value.notForwardable.value;
      var kept := SshNames(Kept(marked.transitKeys, keys), Kept(marked.caRoles, roles));
      Some(Ssh(keys, roles, if kept == SshNames([], []) then None else Some(kept)))
  }

  datatype Put = Put(name: string, hcl: string, ssh: Option<SshNames>)

  /** The stored document with its HCL replaced, or a new one with the default contract. */
  function PutDocument(stored: Option<Policy>, put: Put): Policy {
    var document := if stored.Some? then stored.value.(hcl := put.hcl) else NewPolicy(put.name, put.hcl);
    if put.ssh.Some? then document.(ssh := ReplaceSsh(document.ssh, put.ssh.value.transitKeys, put.ssh.value.caRoles))
    else document
  }

  function NewPolicy(name: string, hcl: string): Policy {
    Policy(name, 0, 0, hcl, Some(true), None, DEFAULT_MOUNT_TARGET,
           map["SSH_AUTH_SOCK" := MOUNT_TARGET_TOKEN + "/ssh-agent.sock",
               "VAULT_ADDR" := "unix://" + MOUNT_TARGET_TOKEN + "/vault.sock"])
  }

  function KeyMarks(ssh: Option<Ssh>): seq<string> {
    if ssh.Some? && ssh.value.notForwardable.Some? then ssh.value.notForwardable.value.transitKeys else []
  }

  function RoleMarks(ssh: Option<Ssh>): seq<string> {
    if ssh.Some? && ssh.value.notForwardable.Some? then ssh.value.notForwardable.value.caRoles else []
  }

  lemma ReplacedMarks(previous: Option<Ssh>, keys: seq<string>, roles: seq<string>)
    ensures KeyMarks(ReplaceSsh(previous, keys, roles)) == Kept(KeyMarks(previous), keys) || (keys == [] && roles == [])
    ensures RoleMarks(ReplaceSsh(previous, keys, roles)) == Kept(RoleMarks(previous), roles) || (keys == [] && roles == [])
    ensures keys == [] && roles == [] ==> ReplaceSsh(previous, keys, roles) == None
  {
  }

  /**
   * An operator's put never lifts a restriction from an identity it still offers,
   * nor adds one.
   */
  lemma PutKeepsRestrictions(stored: Policy, put: Put, names: SshNames, n: string)
    requires put.ssh == Some(names)
    ensures var document := PutDocument(Some(stored), put);
            && (n in document.RestrictedKeys() <==> n in stored.RestrictedKeys() && n in names.transitKeys)
            && (n in document.RestrictedRoles() <==> n in stored.RestrictedRoles() && n in names.caRoles)
  {
    KeptElements(KeyMarks(stored.ssh), names.transitKeys, n);
    KeptElements(RoleMarks(stored.ssh), names.caRoles, n);
    ReplacedMarks(stored.ssh, names.transitKeys, names.caRoles);
    var document := PutDocument(Some(stored), put);
    assert document.RestrictedKeys() == KeyMarks(document.ssh) && stored.RestrictedKeys() == KeyMarks(stored.ssh);
    assert document.RestrictedRoles() == RoleMarks(document.ssh) && stored.RestrictedRoles() == RoleMarks(stored.ssh);
  }

  /**
   * Over two puts the mark of an identity survives exactly if the first still offers
   * it: taken out by one put and brought back by the next, it is unrestricted.
   */
  lemma TwoPutsLoseMarks(stored: Policy, first: Put, second: Put, one: SshNames, two: SshNames, n: string)
    requires first.ssh == Some(one) && second.ssh == Some(two)
    ensures var document := PutDocument(Some(PutDocument(Some(stored), first)), second);
            && (n in document.RestrictedKeys() <==>
                  n in stored.RestrictedKeys() && n in one.transitKeys && n in two.transitKeys)
            && (n in document.RestrictedRoles() <==>
                  n in stored.RestrictedRoles() && n in one.caRoles && n in two.caRoles)
  {
    PutKeepsRestrictions(stored, first, one, n);
    PutKeepsRestrictions(PutDocument(Some(stored), first), second, two, n);
  }
}
