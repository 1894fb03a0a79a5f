/**
 * The agent's policy set, the containers it observes, and the tokens it holds for
 * them (internal/agent/agent.go, internal/agent/session.go, internal/agent/credentials.go).
 *
 * A method of `Agent` is one section under the agent's lock. The manager has a
 * lock of its own, so between any two of its sections its goroutines take any
 * number of steps: `Background`.
 */
module AgentSession {
  import opened Basics
  import opened Credentials

  class Manager {
    var held: map<string, HeldToken>
    var generation: map<string, nat>
    var next: nat
    var client: bool
    var deliveries: map<nat, Delivery>
    var retries: set<Retry>
    var loops: map<Token, Loop>
    var pending: set<Token>
    var cancelled: set<Token>
    var place: map<Token, Place>
    ghost var stranded: set<string>
    ghost var robbed: set<string>

    ghost function Now(): State
      reads this
    {
      State(held, generation, next, client, deliveries, retries, loops, pending, cancelled, place, stranded, robbed)
    }

    ghost predicate Valid()
      reads this
    {
      Good(Now())
    }

    constructor ()
      ensures Valid() && Now() == Start()
    {
      held, generation, next, client := map[], map[], 0, false;
      deliveries, retries, loops, pending, cancelled, place, stranded, robbed := map[], {}, map[], {}, {}, map[], {}, {};
      new;
      StartValid();
    }

    // ----- Sections the agent runs -----

    method SetEndpoint(ok: bool)
      modifies this`client
      ensures Now() == old(Now()).(client := old(client) || ok)
    {
      client := client || ok;
    }

    /** A new delivery, current until the next section that advances the binding. */
    method Begin(id: string, assignment: string)
      modifies this
      ensures Now() == old(Now()).Begun(id, assignment)
    {
      next := next + 1;
      generation := generation[id := next];
      deliveries := deliveries[next := Delivery(id, assignment, None)];
      stranded := stranded - {id};
    }

    /** After this, no delivery under way can install a token for the binding, and it holds none. */
    method Invalidate(id: string)
      modifies this
      ensures Now() == old(Now()).Invalidated(id)
    {
      next := next + 1;
      generation := generation[id := next];
      stranded := stranded - {id};
      GiveUp(id);
    }

    method GiveUp(id: string)
      modifies this`held, this`place, this`pending
      ensures Now() == old(Now()).GivenUp(id)
    {
      if id in held {
        var t := held[id].token;
        held, place, pending := held - {id}, place[t := Handed], pending + {t};
      }
    }

    /** Asks the controller, under the agent's context, while the present generation is current. */
    method StartRetry(id: string)
      requires id in generation
      modifies this`retries, this`stranded
      ensures Now() == old(Now()).Retrying(id)
    {
      retries := retries + {Retry(id, generation[id], None)};
      stranded := stranded - {id};
    }

    /** Stops renewal and hands the token to revoke. Deliveries already begun become stale. */
    method Retire(id: string)
      modifies this
      ensures Now() == old(Now()).Retired(id)
    {
      generation := generation - {id};
      GiveUp(id);
    }

    /** Takes every held token at once, for shutdown. */
    method StopAll()
      requires Valid()
      modifies this
      ensures Valid() && Now() == Stopped(old(Now())) && Conserves(old(Now()), Now())
    {
      StoppedKeeps(Now());
      SectionsConserve(Now(), "", "");
      pending := pending + set id | id in held :: held[id].token;
      place := map t | t in place :: if place[t].HeldFor? then Handed else place[t];
      held, generation := map[], map[];
    }

    // ----- Sections its goroutines run -----

    /** A delivery unwraps and logs in: no token, a token with the wrong policies, or one to install. */
    method LogIn(g: nat, token: Token, obtained: bool, wanted: bool)
      requires g in deliveries
      modifies this
      ensures Now() == if old(client) && obtained && wanted then old(Now()).LoggedIn(g, token)
                       else old(Now()).LoginFailed(g, if old(client) && obtained then Some(token) else None)
    {
      if client && obtained && wanted {
        deliveries, place := deliveries[g := deliveries[g].(token := Some(token))], place[token := Delivering(g)];
      } else {
        if client && obtained {
          place := place[token := Handed];
        }
        deliveries, retries := deliveries - {g}, retries + {Retry(deliveries[g].binding, g, None)};
      }
    }

    /** A delivery installs its token unless its generation is stale. */
    method Install(g: nat)
      requires g in deliveries && deliveries[g].token.Some?
      modifies this
      ensures Now() == old(Now()).Installed(g)
    {
      var d := deliveries[g];
      var t := d.token.value;
      deliveries := deliveries - {g};
      if d.binding !in generation || generation[d.binding] != g {
        place := place[t := Handed];
        return;
      }
      GiveUp(d.binding);
      held := held[d.binding := HeldToken(d.assignment, t)];
      place, loops := place[t := HeldFor(d.binding)], loops[t := Loop(d.binding, None, false)];
    }

    /** A retry loop ends. */
    method EndRetry(r: Retry)
      modifies this`retries
      ensures Now() == old(Now()).Ended(r)
    {
      retries := retries - {r};
    }

    /** Whoever took a token cancels its context, after the section that took it. */
    method Cancel(t: Token)
      modifies this`pending, this`cancelled
      ensures Now() == old(Now()).Cancelled(t)
    {
      pending, cancelled := pending - {t}, cancelled + {t};
    }

    /** A renewal loop looks at the token its binding holds. */
    method Look(t: Token)
      requires t in loops && loops[t].binding in held
      modifies this`loops
      ensures Now() == old(Now()).Looked(t)
    {
      loops := loops[t := Loop(loops[t].binding, Some(held[loops[t].binding].token), false)];
    }

    /** A renewal loop finds its own context alive and the token it watches run out. */
    method Pass(t: Token)
      requires t in loops
      modifies this`loops
      ensures Now() == old(Now()).Passed(t)
    {
      loops := loops[t := loops[t].(passed := true)];
    }

    /** A renewal loop drops the token it watches, if its binding still holds it, and asks for another. */
    method Expire(t: Token)
      requires Now().MayExpire(t)
      modifies this`held, this`place, this`loops, this`retries, this`stranded, this`robbed
      ensures Now() == old(Now()).Expired(t)
    {
      var id := loops[t].binding;
      held, place, loops := held - {id}, place[held[id].token := Dropped], loops - {t};
      if id in generation {
        retries := retries + {Retry(id, generation[id], Some(t))};
      }
      assert Now() == old(Now()).Unheld(t);
      stranded := if Now().Of(id).Covered() then stranded else stranded + {id};
      robbed := if t in pending || t in cancelled then robbed + {id} else robbed;
    }

    /** A renewal loop ends. */
    method EndLoop(t: Token)
      modifies this`loops
      ensures Now() == old(Now()).LoopEnded(t)
    {
      loops := loops - {t};
    }

    /** Any number of steps of any goroutines. */
    method Background()
      requires Valid()
      modifies this
      ensures Valid() && AllDrift(old(Now()), Now())
    {
      NothingDrifts(Now());
      var steps, i := *, 0;
      while i < steps
        invariant Valid() && AllDrift(old(Now()), Now())
        decreases steps - i
      {
        ghost var before := Now();
        OneStep();
        DriftsThen(old(Now()), before, Now());
        i := i + 1;
      }
    }

    /** One step of one goroutine, chosen freely among those that can move. */
    method OneStep()
      requires Valid()
      modifies this
      ensures Valid() && AllDrift(old(Now()), Now())
      ensures (CoversStay(old(Now()), Now()) && robbed == old(robbed)) || DoomedDrop(old(Now()), Now())
    {
      NothingDrifts(Now());
      var g: nat, t: Token, r: Retry := *, *, *;
      if {
        case g in deliveries && deliveries[g].token.None? && t !in place =>
          var obtained: bool, wanted: bool := *, *;
          if client && obtained && wanted {
            LoggedInDrifts(Now(), g, t);
          } else {
            LoginFailedDrifts(Now(), g, if client && obtained then Some(t) else None);
          }
          LogIn(g, t, obtained, wanted);
        case g in deliveries && deliveries[g].token.Some? =>
          if Now().Of(deliveries[g].binding).generation == Some(g) {
            InstalledCurrent(Now(), g);
          } else {
            InstalledStale(Now(), g);
          }
          Install(g);
        case r in retries && (r.binding !in generation || generation[r.binding] != r.generation
                              || (r.context.Some? && r.context.value in cancelled)) =>
          EndedDrifts(Now(), r);
          EndRetry(r);
        case t in loops || t in pending => LoopStep(t);
        case true =>
      }
      GoodAfter(old(Now()), Now());
    }

    /** One step of a renewal loop, or of whoever took its token. */
    method LoopStep(t: Token)
      requires Valid() && (t in loops || t in pending)
      modifies this
      ensures Now().Valid() && AllDrift(old(Now()), Now())
      ensures (CoversStay(old(Now()), Now()) && robbed == old(robbed)) || DoomedDrop(old(Now()), Now())
    {
      NothingDrifts(Now());
      if {
        case t in pending =>
          SameStatus(Now(), Now().Cancelled(t));
          Cancel(t);
        case t in loops && loops[t].binding in held =>
          SameStatus(Now(), Now().Looked(t));
          Look(t);
        case t in loops && t !in cancelled =>
          SameStatus(Now(), Now().Passed(t));
          Pass(t);
        case t in loops && Expirable(t) =>
          ExpiredDrifts(Now(), t);
          ExpiredCovers(Now(), t);
          Expire(t);
        case t in loops =>
          SameStatus(Now(), Now().LoopEnded(t));
          EndLoop(t);
        case true =>
      }
    }

    predicate Expirable(t: Token)
      reads this
      ensures Expirable(t) <==> Now().MayExpire(t)
    {
      t in loops && loops[t].passed && loops[t].binding in held && loops[t].watching == Some(held[loops[t].binding].token)
    }

    predicate Lives(r: Retry)
      reads this
      ensures Lives(r) <==> Now().Lives(r)
    {
      r.context.Some? ==> r.context.value !in pending && r.context.value !in cancelled
    }
  }

  /** What the agent asks of the manager, in any order, also after its shutdown. */
  datatype Section =
    | Endpoint(ok: bool)
    | BeginDelivery(id: string, assignment: string)
    | GiveUpToken(id: string)
    | AskFor(id: string)
    | RetireBinding(id: string)
    | ShutDown

  method RunSection(m: Manager, section: Section)
    requires m.Valid()
    modifies m
    ensures m.Valid() && Conserves(old(m.Now()), m.Now())
  {
    match section
    case Endpoint(ok) =>
      SameStatus(m.Now(), m.Now().(client := m.client || ok));
      m.SetEndpoint(ok);
    case BeginDelivery(id, assignment) =>
      GoodBegun(m.Now(), id, assignment);
      SectionsConserve(m.Now(), id, assignment);
      m.Begin(id, assignment);
    case GiveUpToken(id) =>
      GoodInvalidated(m.Now(), id);
      SectionsConserve(m.Now(), id, "");
      m.Invalidate(id);
    case AskFor(id) =>
      if id in m.generation {
        GoodRetrying(m.Now(), id);
        SectionsConserve(m.Now(), id, "");
        m.StartRetry(id);
      }
    case RetireBinding(id) =>
      GoodRetired(m.Now(), id);
      SectionsConserve(m.Now(), id, "");
      m.Retire(id);
    case ShutDown => m.StopAll();
  }

  /**
   * Over every run of the manager, with shutdowns and logins that finish late: every
   * token it ever obtained is still accounted for, in exactly one place, and one
   * handed over or dropped stays so.
   */
  method RunManager(m: Manager, sections: seq<Section>)
    requires m.Valid()
    modifies m
    ensures m.Valid() && Conserves(old(m.Now()), m.Now()) && forall t | t in m.place :: OnePlace(m.Now(), t)
  {
    for i := 0 to |sections|
      invariant m.Valid() && Conserves(old(m.Now()), m.Now())
    {
      ghost var before := m.Now();
      m.Background();
      ghost var between := m.Now();
      RunSection(m, sections[i]);
      ConservesThen(old(m.Now()), before, between);
      ConservesThen(old(m.Now()), between, m.Now());
    }
    forall t | t in m.place ensures OnePlace(m.Now(), t) {
      TokenIsInOnePlace(m.Now(), t);
    }
  }

  class Agent {
    const creds: Manager
    /** Which bindings are name bindings. A binding never changes its key. */
    const named: string -> bool
    /** The policy set: each binding's assignment. */
    var bindings: map<string, string>
    /** Bindings that govern an observed container, or one being recreated, to what identifies it. */
    var observed: map<string, string>
    /** Bindings dropped from the set whose tokens the receive loop has yet to retire. */
    var retiring: set<string>

    ghost predicate FineBinding(id: string)
      reads this, creds
    {
      id in bindings ==> Fine(creds.Now().Of(id), bindings[id], named(id), id in observed)
    }

    ghost predicate AllFine()
      reads this, creds
    {
      forall id | id in bindings :: FineBinding(id)
    }

    /** What holds whenever the agent's lock is free, wherever its goroutines stand. */
    ghost predicate Valid()
      reads this, creds
    {
      creds.Valid() && AllFine() && retiring !! bindings.Keys
    }

    /** A started agent: the cached set is loaded, nothing is held, no container seen. */
    constructor (cached: map<string, string>, named: string -> bool)
      ensures Valid() && bindings == cached && observed == map[] && fresh(creds)
    {
      creds := new Manager();
      this.named, bindings, observed, retiring := named, cached, map[], {};
      new;
      StartValid();
    }

    // ----- Steps inside a section -----

    method Background()
      requires creds.Valid()
      modifies creds
      ensures creds.Valid() && AllDrift(old(creds.Now()), creds.Now())
      ensures forall id | old(FineBinding(id)) :: FineBinding(id)
    {
      creds.Background();
      forall id | old(FineBinding(id)) ensures FineBinding(id) {
        if id in bindings {
          FineDrifts(old(creds.Now()), creds.Now(), id, bindings[id], named(id), id in observed);
        }
      }
    }

    /** Every other binding is as fine as it was. */
    twostate predicate OthersFine(id: string)
      reads this, creds
    {
      forall other | other != id && old(FineBinding(other)) :: FineBinding(other)
    }

    method GiveUpToken(id: string)
      requires creds.Valid()
      modifies creds
      ensures creds.Valid() && OthersFine(id) && Conserves(old(creds.Now()), creds.Now()) && id !in creds.held
      ensures creds.Now().Of(id).Quiet() && !creds.Now().Of(id).asking && creds.Now().Of(id).generation.Some?
    {
      SectionsConserve(creds.Now(), id, "");
      ghost var assignment := if id in bindings then bindings[id] else "";
      GoodInvalidated(creds.Now(), id);
      InvalidatedIsFine(creds.Now(), id, assignment, named(id));
      creds.Invalidate(id);
    }

    method AskAgain(id: string)
      requires creds.Valid() && creds.Now().Of(id).Quiet() && creds.Now().Of(id).generation.Some? && id in observed
      modifies creds
      ensures creds.Valid() && OthersFine(id) && FineBinding(id) && Conserves(old(creds.Now()), creds.Now())
      ensures creds.Now().Of(id).asking
    {
      SectionsConserve(creds.Now(), id, "");
      ghost var assignment := if id in bindings then bindings[id] else "";
      GoodRetrying(creds.Now(), id);
      RetryingIsFine(creds.Now(), id, assignment, named(id));
      creds.StartRetry(id);
    }

    /**
     * Gives up the binding's token and asks for another exactly if its container is
     * observed, whatever the goroutines do meanwhile.
     */
    method Renew(id: string)
      requires creds.Valid()
      modifies creds
      ensures creds.Valid() && FineBinding(id) && OthersFine(id)
      ensures creds.Now().Of(id).asking <==> id in observed
      ensures Conserves(old(creds.Now()), creds.Now()) && Surrendered(old(creds.Now()), creds.Now(), id)
    {
      Background();
      ghost var drifted := creds.Now();
      GiveUpToken(id);
      ghost var quiet := creds.Now();
      ConservesThen(old(creds.Now()), drifted, quiet);
      SurrenderedOnce(old(creds.Now()), quiet, id);
      if id in observed {
        Background();
        assert Drifts(quiet.Of(id), creds.Now().Of(id));
        ghost var later := creds.Now();
        AskAgain(id);
        ConservesThen(quiet, later, creds.Now());
        ConservesThen(old(creds.Now()), quiet, creds.Now());
        SurrenderedStays(old(creds.Now()), quiet, creds.Now(), id);
      }
    }

    // ----- Observed containers -----

    /** A binding's container is gone: a name binding's token goes with it. */
    method Forget(id: string)
      requires creds.Valid() && AllFine() && id in observed
      modifies this`observed, creds
      ensures creds.Valid() && AllFine() && observed == old(observed) - {id} && Conserves(old(creds.Now()), creds.Now())
    {
      ConservesNothing(creds.Now());
      observed := observed - {id};
      if id in bindings && named(id) {
        Renew(id);
      }
    }

    /**
     * A binding governs a container. `gap` says that its container is being recreated;
     * `expired` that a token it holds has run out.
     */
    method Observe(id: string, identity: string, gap: bool, expired: bool)
      requires creds.Valid() && AllFine() && id in bindings
      modifies this`observed, creds
      ensures creds.Valid() && AllFine() && observed == old(observed)[id := identity]
      ensures Conserves(old(creds.Now()), creds.Now())
    {
      ConservesNothing(creds.Now());
      var seen, same := id in observed, id in observed && observed[id] == identity;
      var current := id in creds.held && !expired;
      observed := observed[id := identity];
      if (seen && (same || gap)) || (!seen && current) {
        assert creds.Now().Of(id).stranded ==> id in creds.Now().stranded;
        return;
      }
      Renew(id);
    }

    method ForgetAll(gone: set<string>)
      requires creds.Valid() && AllFine() && gone <= observed.Keys
      modifies this`observed, creds
      ensures creds.Valid() && AllFine() && observed == old(observed) - gone && Conserves(old(creds.Now()), creds.Now())
    {
      ConservesNothing(creds.Now());
      var rest := gone;
      while rest != {}
        invariant creds.Valid() && AllFine() && rest <= gone && observed == old(observed) - (gone - rest)
        invariant Conserves(old(creds.Now()), creds.Now())
        decreases |rest|
      {
        var id :| id in rest;
        ghost var before := creds.Now();
        Forget(id);
        ConservesThen(old(creds.Now()), before, creds.Now());
        rest := rest - {id};
      }
    }

    /** The bindings of `governed` outside `rest` are observed, beside those of `was`. */
    static predicate ObservedBut(observed: map<string, string>, was: set<string>, governed: map<string, string>, rest: set<string>) {
      observed.Keys == was + (governed.Keys - rest) && forall id | id in governed && id !in rest :: observed[id] == governed[id]
    }

    static lemma ObservedNext(observed: map<string, string>, was: set<string>, governed: map<string, string>, rest: set<string>, id: string)
      requires ObservedBut(observed, was, governed, rest) && id in rest && id in governed
      ensures ObservedBut(observed[id := governed[id]], was, governed, rest - {id})
    {
    }

    method ObserveAll(governed: map<string, string>, recreating: set<string>, expired: set<string>)
      requires creds.Valid() && AllFine() && governed.Keys <= bindings.Keys
      modifies this`observed, creds
      ensures creds.Valid() && AllFine() && ObservedBut(observed, old(observed.Keys), governed, {})
      ensures Conserves(old(creds.Now()), creds.Now())
    {
      ConservesNothing(creds.Now());
      var rest := governed.Keys;
      while rest != {}
        invariant creds.Valid() && AllFine() && rest <= governed.Keys
        invariant ObservedBut(observed, old(observed.Keys), governed, rest) && Conserves(old(creds.Now()), creds.Now())
        decreases |rest|
      {
        var id :| id in rest;
        ObservedNext(observed, old(observed.Keys), governed, rest, id);
        ghost var before := creds.Now();
        Observe(id, governed[id], id in recreating, id in expired);
        ConservesThen(old(creds.Now()), before, creds.Now());
        rest := rest - {id};
      }
    }

    /**
     * Makes the observed bindings match what is there. `governed` gives each binding that governs a
     * container what identifies it; `recreating` the bindings kept through a gap.
     */
    method ObserveBindings(governed: map<string, string>, recreating: set<string>, expired: set<string>)
      requires creds.Valid() && AllFine() && governed.Keys <= bindings.Keys
      modifies this`observed, creds
      ensures creds.Valid() && AllFine() && Conserves(old(creds.Now()), creds.Now())
      ensures observed.Keys == governed.Keys + old(observed.Keys) * recreating
    {
      ForgetAll(observed.Keys - governed.Keys - recreating);
      ghost var between := creds.Now();
      ObserveAll(governed, recreating, expired);
      ConservesThen(old(creds.Now()), between, creds.Now());
      assert observed.Keys == (old(observed.Keys) - (old(observed.Keys) - governed.Keys - recreating)) + governed.Keys;
    }

    /** The agent's own reaction to its containers. */
    method ApplyContainers(governed: map<string, string>, recreating: set<string>, expired: set<string>)
      requires Valid() && governed.Keys <= bindings.Keys
      modifies this`observed, creds
      ensures Valid() && observed.Keys == governed.Keys + old(observed.Keys) * recreating
      ensures Conserves(old(creds.Now()), creds.Now())
    {
      ObserveBindings(governed, recreating, expired);
    }

    // ----- Messages, in the order the session receives them -----

    /** The bindings of `set` that the loop below must renew: new ones and those whose assignment changed. */
    static predicate Superseded(previous: map<string, string>, latest: map<string, string>, id: string) {
      id in latest && (id !in previous || previous[id] != latest[id])
    }

    /**
     * The set becomes `next`. What it drops is left in `retiring`, except the bindings
     * that a recreate keeps through its gap.
     */
    method ApplyPolicySet(next: map<string, string>, endpoint: bool, governed: map<string, string>, recreating: set<string>,
                          expired: set<string>)
      requires Valid() && retiring == {} && governed.Keys <= next.Keys
      modifies this, creds
      ensures Valid() && bindings == next
      ensures retiring == old(bindings.Keys) - next.Keys - recreating
      ensures observed.Keys == governed.Keys + old(observed.Keys) * recreating
      ensures Conserves(old(creds.Now()), creds.Now())
      ensures forall id | Superseded(old(bindings), next, id) :: Surrendered(old(creds.Now()), creds.Now(), id)
    {
      var dropped := bindings.Keys - next.Keys - recreating;
      Adopt(next, endpoint);
      ghost var between := creds.Now();
      ObserveBindings(governed, recreating, expired);
      ConservesThen(old(creds.Now()), between, creds.Now());
      forall id | Superseded(old(bindings), next, id) ensures Surrendered(old(creds.Now()), creds.Now(), id) {
        SurrenderedStays(old(creds.Now()), between, creds.Now(), id);
      }
      retiring := dropped;
    }

    /** The endpoint first, then the bindings. */
    method Adopt(next: map<string, string>, endpoint: bool)
      requires Valid() && retiring == {}
      modifies this`bindings, creds
      ensures creds.Valid() && AllFine() && bindings == next && Conserves(old(creds.Now()), creds.Now())
      ensures forall id | Superseded(old(bindings), next, id) :: Surrendered(old(creds.Now()), creds.Now(), id)
    {
      Connect(endpoint);
      ghost var connected := creds.Now();
      InstallSet(next);
      ConservesThen(old(creds.Now()), connected, creds.Now());
      forall id | Superseded(old(bindings), next, id) ensures Surrendered(old(creds.Now()), creds.Now(), id) {
        SurrenderedEarlier(old(creds.Now()), connected, creds.Now(), id);
      }
    }

    /** New bindings and those whose assignment changed give up their tokens, and ask again where observed. */
    method InstallSet(next: map<string, string>)
      requires Valid() && retiring == {}
      modifies this`bindings, creds
      ensures creds.Valid() && AllFine() && bindings == next && Conserves(old(creds.Now()), creds.Now())
      ensures forall id | Superseded(old(bindings), next, id) :: Surrendered(old(creds.Now()), creds.Now(), id)
    {
      var renewed := set id | id in next && Superseded(bindings, next, id);
      Replace(next);
      RenewAll(renewed);
    }

    /** A binding whose assignment the next set keeps is as fine in it. */
    method Replace(next: map<string, string>)
      requires Valid() && retiring == {}
      modifies this`bindings
      ensures creds.Valid() && bindings == next
      ensures forall id | id in bindings && !Superseded(old(bindings), next, id) :: FineBinding(id)
    {
      assert forall id | id in bindings :: FineBinding(id);
      bindings := next;
    }

    method RenewAll(renewed: set<string>)
      requires creds.Valid() && forall id | id in bindings && id !in renewed :: FineBinding(id)
      modifies creds
      ensures creds.Valid() && AllFine() && Conserves(old(creds.Now()), creds.Now())
      ensures forall id | id in renewed :: Surrendered(old(creds.Now()), creds.Now(), id)
    {
      ConservesNothing(creds.Now());
      var rest := renewed;
      while rest != {}
        invariant creds.Valid() && rest <= renewed && forall id | id in bindings && id !in rest :: FineBinding(id)
        invariant Conserves(old(creds.Now()), creds.Now())
        invariant forall id | id in renewed && id !in rest :: Surrendered(old(creds.Now()), creds.Now(), id)
        decreases |rest|
      {
        var id :| id in rest;
        RenewNext(id, old(creds.Now()), renewed, rest);
        rest := rest - {id};
      }
    }

    method RenewNext(id: string, ghost first: State, ghost renewed: set<string>, ghost rest: set<string>)
      requires creds.Valid() && first.Valid() && Conserves(first, creds.Now()) && id in rest
      requires forall other | other in renewed && other !in rest :: Surrendered(first, creds.Now(), other)
      modifies creds
      ensures creds.Valid() && FineBinding(id) && OthersFine(id) && Conserves(first, creds.Now())
      ensures forall other | other in renewed && other !in rest - {id} :: Surrendered(first, creds.Now(), other)
    {
      ghost var before := creds.Now();
      Renew(id);
      ConservesThen(first, before, creds.Now());
      SurrenderedEarlier(first, before, creds.Now(), id);
      forall other | other in renewed && other !in rest - {id} ensures Surrendered(first, creds.Now(), other) {
        if other != id {
          SurrenderedStays(first, before, creds.Now(), other);
        }
      }
    }

    /** Only the client may change, so every binding and token is as it was. */
    method Connect(endpoint: bool)
      requires Valid()
      modifies creds
      ensures Valid() && Conserves(old(creds.Now()), creds.Now()) && creds.held == old(creds.held) && creds.place == old(creds.place)
      ensures forall id :: creds.Now().Of(id) == old(creds.Now()).Of(id)
    {
      SameStatus(creds.Now(), creds.Now().(client := creds.client || endpoint));
      creds.SetEndpoint(endpoint);
    }

    /** Retires one dropped binding's token, after the lock was released. */
    method RetireNext(id: string)
      requires Valid() && id in retiring
      modifies this`retiring, creds
      ensures Valid() && retiring == old(retiring) - {id}
      ensures id !in creds.held && id !in creds.generation && Surrendered(old(creds.Now()), creds.Now(), id)
    {
      Background();
      ghost var before := creds.Now();
      assert AllFine();
      RetireToken(id);
      assert AllFine();
      retiring := retiring - {id};
      SurrenderedEarlier(old(creds.Now()), before, creds.Now(), id);
    }

    method RetireToken(id: string)
      requires creds.Valid()
      modifies creds
      ensures creds.Valid() && OthersFine(id) && Conserves(old(creds.Now()), creds.Now())
      ensures id !in creds.held && id !in creds.generation && Surrendered(old(creds.Now()), creds.Now(), id)
    {
      SectionsConserve(creds.Now(), id, "");
      GoodRetired(creds.Now(), id);
      RetiredKeeps(creds.Now(), id);
      creds.Retire(id);
      SurrenderedOnce(old(creds.Now()), creds.Now(), id);
    }

    /** Withdraws one binding at once on the controller's request. */
    method Unbind(id: string, governed: map<string, string>, recreating: set<string>, expired: set<string>)
      requires Valid() && retiring == {} && governed.Keys <= bindings.Keys - {id}
      modifies this, creds
      ensures Valid() && bindings == old(bindings) - {id} && retiring == {id}
    {
      if id in bindings {
        bindings := bindings - {id};
        ObserveBindings(governed, recreating, expired);
      }
      retiring := {id};
    }

    /** Starts a delivery for a credential of the current assignment whose consumer is there; drops any other. */
    method ReceiveCredential(id: string, assignment: string) returns (started: bool)
      requires Valid() && retiring == {}
      modifies creds
      ensures Valid() && started == (id in bindings && bindings[id] == assignment && id in observed)
      ensures creds.Now() == if started then old(creds.Now()).Begun(id, assignment) else old(creds.Now())
    {
      if id !in bindings || bindings[id] != assignment || id !in observed {
        return false;
      }
      GoodBegun(creds.Now(), id, assignment);
      BegunIsFine(creds.Now(), id, assignment, named(id));
      creds.Begin(id, assignment);
      started := true;
    }

    // ----- What the agent promises -----

    /**
     * Three things hold of each binding in the set. Its token, held or about to be
     * installed, is of the set's assignment; it has none, if it is a name binding,
     * without an observed container; and with one, it has a token, a delivery or a
     * lasting retry loop of its current generation exactly if it was not stranded.
     */
    lemma Promises(id: string)
      requires Valid() && id in bindings
      ensures id in creds.held ==> creds.held[id].assignment == bindings[id]
      ensures id in creds.generation && creds.generation[id] in creds.deliveries ==>
                creds.deliveries[creds.generation[id]].binding == id
                && creds.deliveries[creds.generation[id]].assignment == bindings[id]
      ensures named(id) && id !in observed ==>
                id !in creds.held && !(id in creds.generation && creds.generation[id] in creds.deliveries)
      ensures id in observed ==>
                (id !in creds.stranded <==>
                   || id in creds.held
                   || (id in creds.generation && creds.generation[id] in creds.deliveries)
                   || (id in creds.generation && exists r | r in creds.retries ::
                         r.binding == id && r.generation == creds.generation[id] && creds.Lives(r)))
    {
      assert FineBinding(id);
      assert forall r | r in creds.retries :: creds.Lives(r) == creds.Now().Lives(r);
    }
  }

  /** What reaches the agent: its engine's containers, and the controller's messages. */
  datatype Event =
    | Containers(governed: map<string, string>, recreating: set<string>, expired: set<string>)
    | PolicySet(next: map<string, string>, endpoint: bool, governed: map<string, string>, recreating: set<string>, expired: set<string>)
    | Withdraw(id: string, governed: map<string, string>, recreating: set<string>, expired: set<string>)
    | Credential(id: string, assignment: string)
    | RetireDropped(id: string)

  method Handle(agent: Agent, event: Event)
    requires agent.Valid()
    modifies agent, agent.creds
    ensures agent.Valid()
  {
    agent.Background();
    match event
    case Containers(governed, recreating, expired) =>
      if governed.Keys <= agent.bindings.Keys {
        agent.ApplyContainers(governed, recreating, expired);
      }
    case PolicySet(next, endpoint, governed, recreating, expired) =>
      if agent.retiring == {} && governed.Keys <= next.Keys {
        agent.ApplyPolicySet(next, endpoint, governed, recreating, expired);
      }
    case Withdraw(id, governed, recreating, expired) =>
      if agent.retiring == {} && governed.Keys <= agent.bindings.Keys - {id} {
        agent.Unbind(id, governed, recreating, expired);
      }
    case Credential(id, assignment) =>
      if agent.retiring == {} {
        var _ := agent.ReceiveCredential(id, assignment);
      }
    case RetireDropped(id) =>
      if id in agent.retiring {
        agent.RetireNext(id);
      }
  }

  /**
   * However events and goroutines interleave, the promises hold for every binding in
   * the set; and one whose container is observed has a token or somebody asking for
   * one, unless a loop whose own context was doomed dropped its token.
   */
  method Run(agent: Agent, events: seq<Event>)
    requires agent.Valid()
    modifies agent, agent.creds
    ensures agent.Valid()
    ensures forall id | id in agent.bindings && id in agent.observed && id !in agent.creds.robbed :: agent.creds.Now().Of(id).Covered()
  {
    for i := 0 to |events|
      invariant agent.Valid()
    {
      Handle(agent, events[i]);
    }
    forall id | id in agent.bindings && id in agent.observed && id !in agent.creds.robbed
      ensures agent.creds.Now().Of(id).Covered()
    {
      assert agent.FineBinding(id);
      assert Honest(agent.creds.Now());
    }
  }
}
