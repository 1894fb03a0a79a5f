/**
 * The agent's token manager (internal/agent/credentials.go): its state and what
 * each section under its lock does to it.
 *
 * The goroutines the manager starts are part of the state: unfinished deliveries
 * by generation, retry loops, and the renewal loops by the token whose context
 * they run under. Time is the choice of which step comes next; backoff, accessor
 * reports and failure codes are not modelled here.
 */
module Credentials {
  import opened Basics

  /** Tokens and assignments are told apart and nothing else. */
  type Token = nat

  datatype HeldToken = HeldToken(assignment: string, token: Token)

  /** A login in progress, or finished and about to install its token. */
  datatype Delivery = Delivery(binding: string, assignment: string, token: Option<Token>)

  /** A retry loop, under the agent's context or under that of a token. */
  datatype Retry = Retry(binding: string, generation: nat, context: Option<Token>)

  /**
   * The renewal loop of an installed token: the token it watches, once it has looked,
   * and whether it has since found its own context alive with that token run out.
   */
  datatype Loop = Loop(binding: string, watching: Option<Token>, passed: bool)

  /** Where a token obtained by a login is. */
  datatype Place = Delivering(generation: nat) | HeldFor(binding: string) | Handed | Dropped

  /** What one binding's fate depends on. */
  datatype Status = Status(held: Option<string>, generation: Option<nat>, delivering: Option<string>, asking: bool, stranded: bool)
  {
    /** A token, or somebody asking for one. */
    predicate Covered() { held.Some? || delivering.Some? || asking }

    /** No token, and none about to be installed. */
    predicate Quiet() { held.None? && delivering.None? }

    /** Any token held or about to be installed is of this assignment. */
    predicate Right(assignment: string) {
      (held.Some? ==> held.value == assignment) && (delivering.Some? ==> delivering.value == assignment)
    }
  }

  /** What the manager's goroutines may do to a binding that the agent leaves alone. */
  ghost predicate Drifts(s: Status, t: Status) {
    && t.generation == s.generation
    && (s.Quiet() ==> t.Quiet())
    && (forall a :: s.Right(a) ==> t.Right(a))
    && (t.Covered() ==> s.Covered())
    && (t.stranded <==> s.stranded || (s.Covered() && !t.Covered()))
  }

  datatype State = State(
    held: map<string, HeldToken>, generation: map<string, nat>, next: nat, client: bool,
    deliveries: map<nat, Delivery>, retries: set<Retry>, loops: map<Token, Loop>,
    pending: set<Token>,         // taken from their holder, their context about to be cancelled
    cancelled: set<Token>,       // their context is cancelled
    place: map<Token, Place>,    // every token a login ever obtained
    stranded: set<string>,       // bindings that lost their last cover with nobody having given them up
    robbed: set<string>)         // bindings whose token a loop with a doomed context has ever dropped
  {
    // ----- Invariants -----

    /** No section reuses a generation. */
    ghost predicate GenerationsOk() {
      && (forall id | id in generation :: 1 <= generation[id] <= next)
      && (forall g | g in deliveries :: 1 <= g <= next)
      && (forall r | r in retries :: r.generation <= next)
      && (forall id | id in generation && generation[id] in deliveries :: deliveries[generation[id]].binding == id)
    }

    /** Every token is in exactly the place recorded for it, and a token needs a client. */
    ghost predicate TokensOk() {
      && (forall id | id in held :: held[id].token in place && place[held[id].token] == HeldFor(id))
      && (forall g | g in deliveries && deliveries[g].token.Some? ::
            deliveries[g].token.value in place && place[deliveries[g].token.value] == Delivering(g))
      && (forall t | t in place :: Placed(t))
      && (place != map[] ==> client)
    }

    ghost predicate Placed(t: Token)
      requires t in place
    {
      match place[t]
      case HeldFor(id) => id in held && held[id].token == t
      case Delivering(g) => g in deliveries && deliveries[g].token == Some(t)
      case Handed => true
      case Dropped => true
    }

    /** Only tokens that somebody took are cancelled. */
    ghost predicate ContextsOk() {
      && (forall t | Doomed(t) :: t in place && place[t] == Handed)
      && (forall r | r in retries && r.context.Some? ::
            r.context.value in place && (place[r.context.value] == Dropped || place[r.context.value] == Handed))
      && (forall t | t in loops :: t in place && (place[t] == HeldFor(loops[t].binding) || place[t] == Dropped || Doomed(t)))
    }

    /** The token's context is cancelled or will be. */
    predicate Doomed(t: Token) { t in pending || t in cancelled }

    ghost predicate Valid() { GenerationsOk() && TokensOk() && ContextsOk() }

    // ----- One binding -----

    /** Nothing stops this retry loop while its generation is current. */
    predicate Lives(r: Retry) { r.context.Some? ==> !Doomed(r.context.value) }

    predicate Asking(id: string) {
      id in generation && exists r | r in retries :: r.binding == id && r.generation == generation[id] && Lives(r)
    }

    function Of(id: string): Status {
      Status(if id in held then Some(held[id].assignment) else None, if id in generation then Some(generation[id]) else None,
             if id in generation && generation[id] in deliveries then Some(deliveries[generation[id]].assignment) else None,
             Asking(id), id in stranded)
    }

    // ----- Steps -----

    /** A new generation for the binding. */
    function Advanced(id: string): State {
      this.(next := next + 1, generation := generation[id := next + 1], stranded := stranded - {id})
    }

    /** The binding's token is taken, its context doomed, and the token handed to revoke. */
    function GivenUp(id: string): State {
      if id !in held then this
      else this.(held := held - {id}, place := place[held[id].token := Handed], pending := pending + {held[id].token})
    }

    function Begun(id: string, assignment: string): State {
      Advanced(id).(deliveries := deliveries[next + 1 := Delivery(id, assignment, None)])
    }

    function Invalidated(id: string): State { Advanced(id).GivenUp(id) }

    function Retired(id: string): State { this.(generation := generation - {id}).GivenUp(id) }

    function Retrying(id: string): State
      requires id in generation
    {
      this.(retries := retries + {Retry(id, generation[id], None)}, stranded := stranded - {id})
    }

    /** A login that failed, or whose token had other policies and was handed to revoke. */
    function LoginFailed(g: nat, unwanted: Option<Token>): State
      requires g in deliveries
    {
      this.(deliveries := deliveries - {g}, retries := retries + {Retry(deliveries[g].binding, g, None)},
            place := if unwanted.Some? then place[unwanted.value := Handed] else place)
    }

    function LoggedIn(g: nat, token: Token): State
      requires g in deliveries
    {
      this.(deliveries := deliveries[g := deliveries[g].(token := Some(token))], place := place[token := Delivering(g)])
    }

    /** Installs the token of a current delivery, or hands that of a stale one to revoke. */
    function Installed(g: nat): State
      requires g in deliveries && deliveries[g].token.Some?
    {
      var d := deliveries[g];
      var done := this.(deliveries := deliveries - {g});
      if d.binding !in generation || generation[d.binding] != g then done.(place := place[d.token.value := Handed])
      else
        var freed := done.GivenUp(d.binding);
        freed.(held := freed.held[d.binding := HeldToken(d.assignment, d.token.value)],
               place := freed.place[d.token.value := HeldFor(d.binding)],
               loops := freed.loops[d.token.value := Loop(d.binding, None, false)])
    }

    /** A retry loop ends: its generation is stale or its context is done. */
    function Ended(r: Retry): State { this.(retries := retries - {r}) }

    /** The context of a taken token is cancelled. */
    function Cancelled(t: Token): State { this.(pending := pending - {t}, cancelled := cancelled + {t}) }

    /** A renewal loop looks at the token its binding holds. */
    function Looked(t: Token): State
      requires t in loops && loops[t].binding in held
    {
      this.(loops := loops[t := Loop(loops[t].binding, Some(held[loops[t].binding].token), false)])
    }

    /** A renewal loop finds the token it watches run out and its own context alive. */
    function Passed(t: Token): State
      requires t in loops
    {
      this.(loops := loops[t := loops[t].(passed := true)])
    }

    function LoopEnded(t: Token): State { this.(loops := loops - {t}) }

    /** The loop may drop the token it watches: it has passed, and its binding still holds that token. */
    predicate MayExpire(t: Token) {
      && t in loops && loops[t].passed && loops[t].binding in held
      && loops[t].watching == Some(held[loops[t].binding].token)
    }

    /** The loop's end when the token it watches is dropped: it asks for another under its own context. */
    function Unheld(t: Token): State
      requires MayExpire(t)
    {
      var id := loops[t].binding;
      this.(held := held - {id}, place := place[held[id].token := Dropped], loops := loops - {t},
            retries := if id in generation then retries + {Retry(id, generation[id], Some(t))} else retries)
    }

    function Expired(t: Token): State
      requires MayExpire(t)
    {
      var id := loops[t].binding;
      Unheld(t).(stranded := if Unheld(t).Of(id).Covered() then stranded else stranded + {id},
                 robbed := if Doomed(t) then robbed + {id} else robbed)
    }
  }

  function Start(): State { State(map[], map[], 0, false, map[], {}, map[], {}, {}, map[], {}, {}) }

  lemma StartValid()
    ensures Start().Valid() && forall id :: Start().Of(id) == Status(None, None, None, false, false)
  {
  }

  // ----- What no step undoes -----

  /** A token may move on, but is never forgotten, and one handed over or dropped stays so. */
  ghost predicate MovesOn(p: Place, q: Place) {
    match p
    case Delivering(_) => true
    case HeldFor(_) => q == p || q == Handed || q == Dropped
    case _ => q == p
  }

  ghost predicate Conserves(s: State, t: State) { forall x | x in s.place :: x in t.place && MovesOn(s.place[x], t.place[x]) }

  /** The loop of a cancelled token that had not passed by then can drop nothing any more. */
  ghost predicate ShutOut(s: State, t: Token) { t in s.cancelled && (t in s.loops ==> !s.loops[t].passed) }

  ghost predicate StayShutOut(s: State, t: State) { forall x {:trigger ShutOut(t, x)} | ShutOut(s, x) :: ShutOut(t, x) }

  /** The binding's token, if it had one, was given to be revoked. */
  ghost predicate HandsOver(s: State, t: State, id: string) {
    id in s.held ==> s.held[id].token in t.place && t.place[s.held[id].token] == Handed
  }

  // ----- What each step does -----

  lemma AdvancedKeeps(s: State, id: string)
    requires s.Valid()
    ensures s.Advanced(id).Valid()
    ensures s.Advanced(id).Of(id) == Status(s.Of(id).held, Some(s.next + 1), None, false, false)
    ensures forall other | other != id :: s.Advanced(id).Of(other) == s.Of(other)
  {
    var t := s.Advanced(id);
    forall other | other != id ensures t.Asking(other) == s.Asking(other) {
      assert forall r | r in s.retries :: t.Lives(r) == s.Lives(r);
    }
  }

  lemma GivenUpAsks(s: State, id: string, other: string)
    requires s.Valid()
    ensures s.GivenUp(id).Asking(other) == s.Asking(other)
  {
    assert forall r | r in s.retries :: s.GivenUp(id).Lives(r) == s.Lives(r);
  }

  lemma GivenUpTokens(s: State, id: string)
    requires s.Valid()
    ensures s.GivenUp(id).TokensOk() && s.GivenUp(id).ContextsOk()
  {
    var t := s.GivenUp(id);
    forall x | x in t.place ensures t.Placed(x) {
      assert x in s.place && s.Placed(x);
    }
  }

  lemma GivenUpKeeps(s: State, id: string)
    requires s.Valid()
    ensures s.GivenUp(id).Valid()
    ensures s.GivenUp(id).Of(id) == s.Of(id).(held := None)
    ensures forall other | other != id :: s.GivenUp(id).Of(other) == s.Of(other)
    ensures HandsOver(s, s.GivenUp(id), id)
  {
    GivenUpTokens(s, id);
    forall other ensures s.GivenUp(id).Asking(other) == s.Asking(other) {
      GivenUpAsks(s, id, other);
    }
  }

  /** A delivery under the newest generation. */
  lemma AddedDelivery(s: State, id: string, assignment: string)
    requires s.Valid() && id in s.generation && s.generation[id] == s.next && s.next !in s.deliveries
    requires forall other | other in s.generation && other != id :: s.generation[other] != s.next
    ensures var t := s.(deliveries := s.deliveries[s.next := Delivery(id, assignment, None)]);
            && t.Valid() && t.Of(id) == s.Of(id).(delivering := Some(assignment))
            && forall other | other != id :: t.Of(other) == s.Of(other)
  {
    var t := s.(deliveries := s.deliveries[s.next := Delivery(id, assignment, None)]);
    forall x | x in t.place ensures t.Placed(x) {
      assert s.Placed(x);
    }
    forall other ensures t.Asking(other) == s.Asking(other) {
      assert forall r | r in s.retries :: t.Lives(r) == s.Lives(r);
    }
  }

  lemma BegunKeeps(s: State, id: string, assignment: string)
    requires s.Valid()
    ensures s.Begun(id, assignment).Valid()
    ensures s.Begun(id, assignment).Of(id) == Status(s.Of(id).held, Some(s.next + 1), Some(assignment), false, false)
    ensures forall other | other != id :: s.Begun(id, assignment).Of(other) == s.Of(other)
  {
    AdvancedKeeps(s, id);
    AddedDelivery(s.Advanced(id), id, assignment);
  }

  lemma InvalidatedKeeps(s: State, id: string)
    requires s.Valid()
    ensures s.Invalidated(id).Valid()
    ensures s.Invalidated(id).Of(id) == Status(None, Some(s.next + 1), None, false, false)
    ensures forall other | other != id :: s.Invalidated(id).Of(other) == s.Of(other)
    ensures HandsOver(s, s.Invalidated(id), id)
  {
    AdvancedKeeps(s, id);
    GivenUpKeeps(s.Advanced(id), id);
  }

  lemma ForgottenKeeps(s: State, id: string)
    requires s.Valid()
    ensures var t := s.(generation := s.generation - {id});
            && t.Valid() && t.Of(id) == Status(s.Of(id).held, None, None, false, s.Of(id).stranded)
            && forall other | other != id :: t.Of(other) == s.Of(other)
  {
    var t := s.(generation := s.generation - {id});
    forall x | x in t.place ensures t.Placed(x) {
      assert s.Placed(x);
    }
    forall other | other != id ensures t.Asking(other) == s.Asking(other) {
      assert forall r | r in s.retries :: t.Lives(r) == s.Lives(r);
    }
  }

  lemma RetiredKeeps(s: State, id: string)
    requires s.Valid()
    ensures s.Retired(id).Valid()
    ensures s.Retired(id).Of(id) == Status(None, None, None, false, s.Of(id).stranded)
    ensures forall other | other != id :: s.Retired(id).Of(other) == s.Of(other)
    ensures HandsOver(s, s.Retired(id), id)
  {
    ForgottenKeeps(s, id);
    GivenUpKeeps(s.(generation := s.generation - {id}), id);
  }

  /** One more retry loop, under a context that nobody has doomed or that somebody has. */
  lemma AddedRetry(s: State, r: Retry)
    requires s.Valid() && r.generation <= s.next
    requires r.context.Some? ==> r.context.value in s.place && s.place[r.context.value] in {Dropped, Handed}
    ensures var t := s.(retries := s.retries + {r});
            && t.Valid()
            && forall id :: t.Of(id) == s.Of(id).(asking := s.Of(id).asking
                 || (id == r.binding && s.Of(id).generation == Some(r.generation) && s.Lives(r)))
  {
    var t := s.(retries := s.retries + {r});
    forall x | x in t.place ensures t.Placed(x) {
      assert s.Placed(x);
    }
    forall id ensures t.Asking(id) <==> s.Asking(id) || (id == r.binding && s.Of(id).generation == Some(r.generation) && s.Lives(r)) {
      assert r in t.retries && forall q | q in t.retries :: t.Lives(q) == s.Lives(q);
      if s.Asking(id) {
        var q :| q in s.retries && q.binding == id && q.generation == s.generation[id] && s.Lives(q);
        assert q in t.retries;
      }
    }
  }

  lemma RetryingKeeps(s: State, id: string)
    requires s.Valid() && id in s.generation
    ensures s.Retrying(id).Valid()
    ensures s.Retrying(id).Of(id) == s.Of(id).(asking := true, stranded := false)
    ensures forall other | other != id :: s.Retrying(id).Of(other) == s.Of(other)
  {
    var r := Retry(id, s.generation[id], None);
    AddedRetry(s, r);
    var a, t := s.(retries := s.retries + {r}), s.Retrying(id);
    forall other ensures t.Asking(other) == a.Asking(other) {
      assert forall q | q in t.retries :: t.Lives(q) == a.Lives(q);
    }
    forall x | x in t.place ensures t.Placed(x) {
      assert a.Placed(x);
    }
  }

  // ----- The goroutines' own steps -----

  ghost predicate AllDrift(s: State, t: State) {
    && (forall id :: Drifts(s.Of(id), t.Of(id))) && Conserves(s, t) && StayShutOut(s, t)
    && s.robbed <= t.robbed && t.stranded <= s.stranded + t.robbed
  }

  /** Every binding that has a token or somebody asking for one still does. */
  ghost predicate CoversStay(s: State, t: State) { forall id | s.Of(id).Covered() :: t.Of(id).Covered() }

  /** The step by which a loop whose own context is doomed drops its binding's token. */
  ghost predicate DoomedDrop(s: State, t: State) { exists x | s.MayExpire(x) && s.Doomed(x) :: t == s.Expired(x) }

  lemma NothingDrifts(s: State)
    ensures AllDrift(s, s)
  {
  }

  lemma DriftsThen(s: State, t: State, u: State)
    requires AllDrift(s, t) && AllDrift(t, u)
    ensures AllDrift(s, u)
  {
    forall id ensures Drifts(s.Of(id), u.Of(id)) {
      assert Drifts(s.Of(id), t.Of(id)) && Drifts(t.Of(id), u.Of(id));
    }
  }

  /** A held token has a generation, so its renewal loop can ask for the next one. */
  ghost predicate Generated(s: State) { forall id | id in s.held :: id in s.generation }

  lemma GeneratedStays(s: State, t: State)
    requires Generated(s) && AllDrift(s, t)
    ensures Generated(t)
  {
    forall id | id in t.held ensures id in t.generation {
      assert Drifts(s.Of(id), t.Of(id)) && t.Of(id).held.Some?;
      assert s.Of(id).held.Some? || s.Of(id).delivering.Some?;
    }
  }

  /** A stranded binding is without any cover, and a doomed loop dropped its token. */
  ghost predicate Honest(s: State) { forall id | id in s.stranded :: !s.Of(id).Covered() && id in s.robbed }

  lemma HonestStays(s: State, t: State)
    requires Honest(s) && AllDrift(s, t)
    ensures Honest(t)
  {
    forall id | id in t.stranded ensures !t.Of(id).Covered() && id in t.robbed {
      assert Drifts(s.Of(id), t.Of(id)) && t.Of(id).stranded;
      assert s.Of(id).stranded ==> id in s.stranded;
    }
  }

  /** What holds whenever the manager's lock is free. */
  ghost predicate Good(s: State) { s.Valid() && Generated(s) && Honest(s) }

  lemma GoodAfter(s: State, t: State)
    requires Good(s) && t.Valid() && AllDrift(s, t)
    ensures Good(t)
  {
    GeneratedStays(s, t);
    HonestStays(s, t);
  }

  lemma GoodBegun(s: State, id: string, assignment: string)
    requires Good(s)
    ensures Good(s.Begun(id, assignment))
  {
    BegunKeeps(s, id, assignment);
  }

  lemma GoodInvalidated(s: State, id: string)
    requires Good(s)
    ensures Good(s.Invalidated(id))
  {
    InvalidatedKeeps(s, id);
  }

  lemma GoodRetired(s: State, id: string)
    requires Good(s)
    ensures Good(s.Retired(id))
  {
    RetiredKeeps(s, id);
  }

  lemma GoodRetrying(s: State, id: string)
    requires Good(s) && id in s.generation
    ensures Good(s.Retrying(id))
  {
    RetryingKeeps(s, id);
  }

  lemma SameAsking(s: State, t: State)
    requires t.retries == s.retries && t.pending == s.pending && t.cancelled == s.cancelled && t.generation == s.generation
    ensures forall id :: t.Asking(id) == s.Asking(id)
  {
    forall id ensures t.Asking(id) == s.Asking(id) {
      assert forall r | r in s.retries :: t.Lives(r) == s.Lives(r);
    }
  }

  /** A delivery that obtained no token, or whose token is handed over, is gone. */
  function Finished(s: State, g: nat): State
    requires g in s.deliveries
  {
    s.(deliveries := s.deliveries - {g},
       place := if s.deliveries[g].token.Some? then s.place[s.deliveries[g].token.value := Handed] else s.place)
  }

  lemma FinishedTokens(s: State, g: nat)
    requires s.Valid() && g in s.deliveries
    ensures Finished(s, g).Valid()
    ensures s.deliveries[g].token.Some? ==> !s.Doomed(s.deliveries[g].token.value) && s.deliveries[g].token.value !in s.loops
    ensures s.deliveries[g].token.Some? ==> forall r | r in s.retries :: r.context != s.deliveries[g].token
  {
    var t := Finished(s, g);
    forall x | x in t.place ensures t.Placed(x) {
      assert x in s.place && s.Placed(x);
    }
  }

  lemma FinishedKeeps(s: State, g: nat)
    requires s.Valid() && g in s.deliveries
    ensures Finished(s, g).Valid()
    ensures forall id :: Finished(s, g).Of(id) == s.Of(id).(delivering := if s.Of(id).generation == Some(g) then None else s.Of(id).delivering)
    ensures s.Of(s.deliveries[g].binding).generation == Some(g) ==>
              s.Of(s.deliveries[g].binding).delivering == Some(s.deliveries[g].assignment)
    ensures forall id | id != s.deliveries[g].binding :: s.Of(id).generation != Some(g)
  {
    FinishedTokens(s, g);
    SameAsking(s, Finished(s, g));
  }

  /** A token that was refused as soon as it was obtained. */
  lemma RefusedKeeps(s: State, unwanted: Token)
    requires s.Valid() && s.client && unwanted !in s.place
    ensures var t := s.(place := s.place[unwanted := Handed]); t.Valid() && forall id :: t.Of(id) == s.Of(id)
  {
    var t := s.(place := s.place[unwanted := Handed]);
    SameAsking(s, t);
    forall x | x in t.place ensures t.Placed(x) {
      assert unwanted == x || s.Placed(x);
    }
  }

  lemma StrandedKeeps(s: State, stranded: set<string>, robbed: set<string>)
    requires s.Valid()
    ensures var t := s.(stranded := stranded, robbed := robbed);
            t.Valid() && forall id :: t.Of(id) == s.Of(id).(stranded := id in stranded)
  {
    var t := s.(stranded := stranded, robbed := robbed);
    SameAsking(s, t);
    forall x | x in t.place ensures t.Placed(x) {
      assert s.Placed(x);
    }
  }

  /** A failed login leaves a retry loop of its own generation behind, and hands over a token nobody wanted. */
  lemma LoginFailedKeeps(s: State, g: nat, unwanted: Option<Token>)
    requires s.Valid() && g in s.deliveries && s.deliveries[g].token.None?
    requires unwanted.Some? ==> s.client && unwanted.value !in s.place
    ensures s.LoginFailed(g, unwanted).Valid()
    ensures forall id :: s.LoginFailed(g, unwanted).Of(id) ==
              if s.Of(id).generation == Some(g) then s.Of(id).(delivering := None, asking := true) else s.Of(id)
    ensures forall id | s.Of(id).generation == Some(g) :: s.Of(id).delivering.Some?
    ensures unwanted.Some? ==> unwanted.value in s.LoginFailed(g, unwanted).place && s.LoginFailed(g, unwanted).place[unwanted.value] == Handed
  {
    FinishedKeeps(s, g);
    var f, r := Finished(s, g), Retry(s.deliveries[g].binding, g, None);
    AddedRetry(f, r);
    var a := f.(retries := f.retries + {r});
    if unwanted.Some? {
      RefusedKeeps(a, unwanted.value);
      assert s.LoginFailed(g, unwanted) == a.(place := a.place[unwanted.value := Handed]);
    } else {
      assert s.LoginFailed(g, unwanted) == a;
    }
    forall id | id != s.deliveries[g].binding ensures s.Of(id).generation != Some(g) {
    }
  }

  lemma LoginFailedDrifts(s: State, g: nat, unwanted: Option<Token>)
    requires s.Valid() && g in s.deliveries && s.deliveries[g].token.None?
    requires unwanted.Some? ==> s.client && unwanted.value !in s.place
    ensures s.LoginFailed(g, unwanted).Valid()
    ensures AllDrift(s, s.LoginFailed(g, unwanted)) && CoversStay(s, s.LoginFailed(g, unwanted))
  {
    LoginFailedKeeps(s, g, unwanted);
  }

  lemma LoggedInKeeps(s: State, g: nat, token: Token)
    requires s.Valid() && g in s.deliveries && s.deliveries[g].token.None? && s.client && token !in s.place
    ensures s.LoggedIn(g, token).Valid() && forall id :: s.LoggedIn(g, token).Of(id) == s.Of(id)
  {
    var t := s.LoggedIn(g, token);
    SameAsking(s, t);
    forall x | x in t.place ensures t.Placed(x) {
      assert x == token || s.Placed(x);
    }
  }

  lemma LoggedInDrifts(s: State, g: nat, token: Token)
    requires s.Valid() && g in s.deliveries && s.deliveries[g].token.None? && s.client && token !in s.place
    ensures s.LoggedIn(g, token).Valid() && AllDrift(s, s.LoggedIn(g, token)) && CoversStay(s, s.LoggedIn(g, token))
  {
    LoggedInKeeps(s, g, token);
  }

  /** A token nobody has cancelled becomes the binding's held token. */
  function Adopted(s: State, id: string, h: HeldToken): State {
    s.(held := s.held[id := h], place := s.place[h.token := HeldFor(id)], loops := s.loops[h.token := Loop(id, None, false)])
  }

  lemma AdoptedKeeps(s: State, id: string, h: HeldToken)
    requires s.Valid() && id !in s.held && h.token in s.place && s.place[h.token] == Handed
    requires !s.Doomed(h.token) && h.token !in s.loops && forall r | r in s.retries :: r.context != Some(h.token)
    ensures Adopted(s, id, h).Valid()
    ensures forall other :: Adopted(s, id, h).Of(other) ==
              s.Of(other).(held := if other == id then Some(h.assignment) else s.Of(other).held)
  {
    var t := Adopted(s, id, h);
    SameAsking(s, t);
    forall x | x in t.place ensures t.Placed(x) {
      assert x in s.place && s.Placed(x);
    }
  }

  lemma InstalledStale(s: State, g: nat)
    requires s.Valid() && g in s.deliveries && s.deliveries[g].token.Some?
    requires s.Of(s.deliveries[g].binding).generation != Some(g)
    ensures s.Installed(g).Valid() && AllDrift(s, s.Installed(g)) && CoversStay(s, s.Installed(g))
    ensures forall id :: s.Installed(g).Of(id) == s.Of(id)
    ensures s.Installed(g).place[s.deliveries[g].token.value] == Handed
  {
    FinishedKeeps(s, g);
    assert s.Installed(g) == Finished(s, g);
  }

  lemma InstalledIs(s: State, g: nat)
    requires g in s.deliveries && s.deliveries[g].token.Some?
    requires s.deliveries[g].binding in s.generation && s.generation[s.deliveries[g].binding] == g
    ensures var d := s.deliveries[g];
            s.Installed(g) == Adopted(Finished(s, g).GivenUp(d.binding), d.binding, HeldToken(d.assignment, d.token.value))
  {
    var d := s.deliveries[g];
    assert s.Installed(g).place
           == Adopted(Finished(s, g).GivenUp(d.binding), d.binding, HeldToken(d.assignment, d.token.value)).place;
  }

  lemma InstalledSteps(s: State, g: nat)
    requires s.Valid() && g in s.deliveries && s.deliveries[g].token.Some?
    requires s.Of(s.deliveries[g].binding).generation == Some(g)
    ensures s.Installed(g).Valid()
    ensures s.Of(s.deliveries[g].binding).delivering == Some(s.deliveries[g].assignment)
    ensures forall id :: s.Installed(g).Of(id) ==
              if id == s.deliveries[g].binding then s.Of(id).(held := Some(s.deliveries[g].assignment), delivering := None)
              else s.Of(id)
  {
    var d := s.deliveries[g];
    var h := HeldToken(d.assignment, d.token.value);
    FinishedKeeps(s, g);
    FinishedTokens(s, g);
    var f := Finished(s, g);
    GivenUpKeeps(f, d.binding);
    var a := f.GivenUp(d.binding);
    AdoptedKeeps(a, d.binding, h);
    InstalledIs(s, g);
  }

  /** A current delivery's token replaces the held one, which is taken and handed over. */
  lemma InstalledCurrent(s: State, g: nat)
    requires s.Valid() && g in s.deliveries && s.deliveries[g].token.Some?
    requires s.Of(s.deliveries[g].binding).generation == Some(g)
    ensures s.Installed(g).Valid() && AllDrift(s, s.Installed(g)) && CoversStay(s, s.Installed(g))
    ensures s.Installed(g).Of(s.deliveries[g].binding).held == Some(s.deliveries[g].assignment)
    ensures s.Installed(g).place[s.deliveries[g].token.value] == HeldFor(s.deliveries[g].binding)
    ensures HandsOver(s, s.Installed(g), s.deliveries[g].binding)
  {
    InstalledSteps(s, g);
    InstalledMoves(s, g);
    forall id ensures Drifts(s.Of(id), s.Installed(g).Of(id)) && (s.Of(id).Covered() ==> s.Installed(g).Of(id).Covered()) {
      assert id == s.deliveries[g].binding || s.Of(id).generation != Some(g);
    }
  }

  lemma InstalledMoves(s: State, g: nat)
    requires s.Valid() && g in s.deliveries && s.deliveries[g].token.Some?
    requires s.deliveries[g].binding in s.generation && s.generation[s.deliveries[g].binding] == g
    ensures Conserves(s, s.Installed(g)) && StayShutOut(s, s.Installed(g))
    ensures s.Installed(g).robbed == s.robbed && s.Installed(g).stranded == s.stranded
    ensures s.Installed(g).place[s.deliveries[g].token.value] == HeldFor(s.deliveries[g].binding)
    ensures HandsOver(s, s.Installed(g), s.deliveries[g].binding)
  {
  }

  lemma EndedDrifts(s: State, r: Retry)
    requires s.Valid() && r in s.retries
    requires s.Of(r.binding).generation != Some(r.generation) || !s.Lives(r)
    ensures s.Ended(r).Valid() && AllDrift(s, s.Ended(r)) && CoversStay(s, s.Ended(r))
  {
    var t := s.Ended(r);
    forall id ensures t.Asking(id) == s.Asking(id) {
      assert forall q | q in t.retries :: t.Lives(q) == s.Lives(q);
      if s.Asking(id) {
        var q :| q in s.retries && q.binding == id && q.generation == s.generation[id] && s.Lives(q);
        assert q in t.retries;
      }
    }
    forall x | x in t.place ensures t.Placed(x) {
      assert s.Placed(x);
    }
  }

  /** The token is dropped and nothing asks for another yet. */
  function DroppedToken(s: State, t: Token): State
    requires s.MayExpire(t)
  {
    var id := s.loops[t].binding;
    s.(held := s.held - {id}, place := s.place[s.held[id].token := Dropped], loops := s.loops - {t})
  }

  lemma DroppedKeeps(s: State, t: Token)
    requires s.Valid() && s.MayExpire(t)
    ensures DroppedToken(s, t).Valid() && Conserves(s, DroppedToken(s, t)) && StayShutOut(s, DroppedToken(s, t))
    ensures t in DroppedToken(s, t).place && DroppedToken(s, t).place[t] in {Dropped, Handed}
  {
    var d := DroppedToken(s, t);
    forall x | x in d.place ensures d.Placed(x) {
      assert x in s.place && s.Placed(x);
    }
  }

  lemma DroppedLeaves(s: State, t: Token)
    requires s.Valid() && s.MayExpire(t)
    ensures forall id :: DroppedToken(s, t).Of(id) == s.Of(id).(held := if id == s.loops[t].binding then None else s.Of(id).held)
  {
    SameAsking(s, DroppedToken(s, t));
  }

  lemma UnheldKeeps(s: State, t: Token)
    requires s.Valid() && s.MayExpire(t) && s.loops[t].binding in s.generation
    ensures s.Unheld(t).Valid() && Conserves(s, s.Unheld(t)) && StayShutOut(s, s.Unheld(t))
    ensures forall id :: s.Unheld(t).Of(id) ==
              if id == s.loops[t].binding then s.Of(id).(held := None, asking := s.Of(id).asking || !s.Doomed(t)) else s.Of(id)
  {
    var id := s.loops[t].binding;
    DroppedKeeps(s, t);
    DroppedLeaves(s, t);
    var d := DroppedToken(s, t);
    AddedRetry(d, Retry(id, s.generation[id], Some(t)));
  }

  /**
   * A renewal loop that drops a token leaves a retry loop under its own context. The
   * binding is covered after that exactly if nobody cancels that context, or the
   * binding was covered otherwise; if not, it is stranded.
   */
  lemma ExpiredLeaves(s: State, t: Token)
    requires s.Valid() && s.MayExpire(t) && s.loops[t].binding in s.generation
    ensures s.Expired(t).Valid() && Conserves(s, s.Expired(t)) && StayShutOut(s, s.Expired(t))
    ensures forall other | other != s.loops[t].binding :: s.Expired(t).Of(other) == s.Of(other)
    ensures var id := s.loops[t].binding;
            && s.Expired(t).Of(id).held.None? && s.Expired(t).Of(id).delivering == s.Of(id).delivering
            && s.Expired(t).Of(id).generation == s.Of(id).generation
            && (s.Expired(t).Of(id).Covered() <==> !s.Doomed(t) || s.Of(id).delivering.Some? || s.Of(id).asking)
            && s.Expired(t).Of(id).stranded == (s.Of(id).stranded || !s.Expired(t).Of(id).Covered())
            && s.Expired(t).robbed == if s.Doomed(t) then s.robbed + {id} else s.robbed
  {
    UnheldKeeps(s, t);
    StrandedKeeps(s.Unheld(t), s.Expired(t).stranded, s.Expired(t).robbed);
  }

  lemma ExpiredDrifts(s: State, t: Token)
    requires s.Valid() && s.MayExpire(t) && s.loops[t].binding in s.generation
    ensures s.Expired(t).Valid() && AllDrift(s, s.Expired(t))
  {
    var id, r := s.loops[t].binding, s.Expired(t);
    ExpiredLeaves(s, t);
    assert Drifts(s.Of(id), r.Of(id));
    forall other ensures Drifts(s.Of(other), r.Of(other)) {
      assert other == id || r.Of(other) == s.Of(other);
    }
  }

  lemma ExpiredCovers(s: State, t: Token)
    requires s.Valid() && s.MayExpire(t) && s.loops[t].binding in s.generation
    ensures CoversStay(s, s.Expired(t)) || DoomedDrop(s, s.Expired(t))
  {
    ExpiredLeaves(s, t);
  }

  /** A loop that drops the token it was started for leaves its binding covered. */
  lemma OwnExpiryCovers(s: State, t: Token)
    requires s.Valid() && s.MayExpire(t) && s.held[s.loops[t].binding].token == t && s.loops[t].binding in s.generation
    ensures s.Expired(t).Of(s.loops[t].binding).Covered()
  {
    ExpiredLeaves(s, t);
  }

  /** The loops' other steps, the cancelling of a taken token, and a new client change no binding's status. */
  lemma SameStatus(s: State, t: State)
    requires s.Valid() && t == s.(client := t.client, loops := t.loops, pending := t.pending, cancelled := t.cancelled)
    requires s.client ==> t.client
    requires t.pending + t.cancelled == s.pending + s.cancelled && s.cancelled <= t.cancelled
    requires forall x | x in t.loops :: x in s.loops && t.loops[x].binding == s.loops[x].binding
    requires forall x | x in t.loops && t.loops[x].passed :: s.loops[x].passed || x !in s.cancelled
    ensures t.Valid() && AllDrift(s, t) && forall id :: t.Of(id) == s.Of(id)
  {
    forall x ensures t.Doomed(x) == s.Doomed(x) {
      assert x in t.pending + t.cancelled <==> x in s.pending + s.cancelled;
    }
    forall id ensures t.Asking(id) == s.Asking(id) {
      assert forall r | r in s.retries :: t.Lives(r) == s.Lives(r);
    }
    forall x | x in t.place ensures t.Placed(x) {
      assert s.Placed(x);
    }
  }

  // ----- Conservation -----

  ghost predicate InDelivery(s: State, t: Token) { exists g | g in s.deliveries :: s.deliveries[g].token == Some(t) }

  ghost predicate IsHeld(s: State, t: Token) { exists id | id in s.held :: s.held[id].token == t }

  /**
   * The token is exactly one of in one unfinished delivery, held for one binding,
   * handed to be revoked, or dropped after expiry, and there is a client to revoke it with.
   */
  ghost predicate OnePlace(s: State, t: Token) {
    && t in s.place && s.client
    && (InDelivery(s, t) <==> s.place[t].Delivering?) && (IsHeld(s, t) <==> s.place[t].HeldFor?)
    && (forall id, other | id in s.held && other in s.held && s.held[id].token == t == s.held[other].token :: id == other)
    && (forall g, h | g in s.deliveries && h in s.deliveries && s.deliveries[g].token == Some(t) == s.deliveries[h].token :: g == h)
  }

  lemma TokenIsInOnePlace(s: State, t: Token)
    requires s.Valid() && t in s.place
    ensures OnePlace(s, t)
  {
    assert s.Placed(t);
  }

  lemma ConservesThen(s: State, t: State, u: State)
    requires Conserves(s, t) && Conserves(t, u)
    ensures Conserves(s, u)
  {
  }

  /** The token the binding held at first has been given to be revoked, or dropped after expiry. */
  ghost predicate Surrendered(s: State, t: State, id: string) {
    id in s.held ==> s.held[id].token in t.place && t.place[s.held[id].token] in {Handed, Dropped}
  }

  lemma SurrenderedOnce(s: State, t: State, id: string)
    requires s.Valid() && t.Valid() && Conserves(s, t) && id !in t.held
    ensures Surrendered(s, t, id)
  {
    if id in s.held {
      assert t.Placed(s.held[id].token);
    }
  }

  lemma SurrenderedStays(s: State, t: State, u: State, id: string)
    requires Surrendered(s, t, id) && Conserves(t, u)
    ensures Surrendered(s, u, id)
  {
  }

  lemma SurrenderedEarlier(s: State, t: State, u: State, id: string)
    requires s.Valid() && t.Valid() && Conserves(s, t) && Conserves(t, u) && Surrendered(t, u, id)
    ensures Surrendered(s, u, id)
  {
    if id in s.held {
      assert t.Placed(s.held[id].token);
    }
  }

  lemma ConservesNothing(s: State)
    ensures Conserves(s, s)
  {
  }

  /** The sections the agent runs forget no token either. */
  lemma SectionsConserve(s: State, id: string, assignment: string)
    requires s.Valid()
    ensures Conserves(s, s.Begun(id, assignment)) && Conserves(s, s.Invalidated(id)) && Conserves(s, s.Retired(id))
    ensures Conserves(s, Stopped(s)) && (id in s.generation ==> Conserves(s, s.Retrying(id)))
  {
  }

  // ----- Shutdown -----

  /** Every held token is taken at once, and every delivery becomes stale. */
  function Stopped(s: State): State {
    var taken := set id | id in s.held :: s.held[id].token;
    s.(held := map[], generation := map[], pending := s.pending + taken,
       place := map t | t in s.place :: if s.place[t].HeldFor? then Handed else s.place[t])
  }

  /** After shutdown no token is held, and a login that finishes later hands its token to revoke. */
  lemma StoppedKeeps(s: State)
    requires s.Valid()
    ensures Stopped(s).Valid() && Stopped(s).held == map[] && (Honest(s) ==> Good(Stopped(s)))
    ensures forall t | t in s.place && s.place[t].HeldFor? :: Stopped(s).place[t] == Handed
    ensures forall g | g in s.deliveries && s.deliveries[g].token.Some? ::
              Stopped(s).Installed(g).place[s.deliveries[g].token.value] == Handed
  {
    var t := Stopped(s);
    forall x | x in s.place ensures s.Placed(x) && t.Placed(x) {
    }
  }

  // ----- What the agent wants of a binding in its policy set -----

  /**
   * A token held or on its way is of the set's assignment; a name binding has one
   * only while its container is observed; and an observed binding has a token or
   * somebody asking for one exactly if it was not stranded.
   */
  ghost predicate Fine(st: Status, assignment: string, named: bool, observed: bool) {
    st.Right(assignment) && (named && !observed ==> st.Quiet()) && (observed ==> (st.Covered() <==> !st.stranded))
  }

  lemma FineDrifts(s: State, t: State, id: string, assignment: string, named: bool, observed: bool)
    requires AllDrift(s, t) && Fine(s.Of(id), assignment, named, observed)
    ensures Fine(t.Of(id), assignment, named, observed)
  {
    assert Drifts(s.Of(id), t.Of(id));
  }

  /** What a policy set, or a container's end, does to one binding's tokens, and nobody else's. */
  lemma InvalidatedIsFine(s: State, id: string, assignment: string, named: bool)
    requires s.Valid()
    ensures Fine(s.Invalidated(id).Of(id), assignment, named, false) && s.Invalidated(id).Of(id).Quiet() && id in s.Invalidated(id).generation
    ensures forall other | other != id :: s.Invalidated(id).Of(other) == s.Of(other)
  {
    InvalidatedKeeps(s, id);
  }

  lemma RetryingIsFine(s: State, id: string, assignment: string, named: bool)
    requires s.Valid() && id in s.generation && s.Of(id).Quiet()
    ensures Fine(s.Retrying(id).Of(id), assignment, named, true)
    ensures forall other | other != id :: s.Retrying(id).Of(other) == s.Of(other)
  {
    RetryingKeeps(s, id);
  }

  lemma BegunIsFine(s: State, id: string, assignment: string, named: bool)
    requires s.Valid() && s.Of(id).Right(assignment)
    ensures Fine(s.Begun(id, assignment).Of(id), assignment, named, true)
    ensures forall other | other != id :: s.Begun(id, assignment).Of(other) == s.Of(other)
  {
    BegunKeeps(s, id, assignment);
  }

  /** One delivery begun, logged in and installed. */
  function Replaced(s: State, id: string, a: string, t: Token): State {
    s.Begun(id, a).LoggedIn(s.next + 1, t).Installed(s.next + 1)
  }

  lemma ReplacedFields(s: State, id: string, a: string, t: Token)
    requires s.Valid() && t !in s.place
    ensures var r := Replaced(s, id, a, t);
            && r.held == s.held[id := HeldToken(a, t)] && r.place.Keys == s.place.Keys + {t}
            && r.client == s.client && r.loops == s.loops[t := Loop(id, None, false)] && id in r.generation
            && r.cancelled == s.cancelled && r.pending == s.pending + (if id in s.held then {s.held[id].token} else {})
  {
    assert id in s.held ==> s.held[id].token in s.place;
  }

  lemma ReplacedHolds(s: State, id: string, a: string, t: Token)
    requires s.Valid() && s.client && t !in s.place
    ensures var r := Replaced(s, id, a, t); r.Valid() && r.Of(id).delivering.None? && !r.Of(id).asking
  {
    BegunKeeps(s, id, a);
    var b := s.Begun(id, a);
    LoggedInKeeps(b, s.next + 1, t);
    InstalledSteps(b.LoggedIn(s.next + 1, t), s.next + 1);
  }

  /** Two tokens installed one after the other, neither of their loops having looked yet. */
  function Succeeded(s: State, id: string, a: string, t: Token, u: Token): State {
    Replaced(Replaced(s, id, a, t), id, a, u)
  }

  lemma SucceededHolds(s: State, id: string, a: string, t: Token, u: Token)
    requires s.Valid() && s.client && t !in s.place && u !in s.place && t != u
    ensures var r := Succeeded(s, id, a, t, u);
            && r.Valid() && id in r.held && r.held[id].token == u && t in r.loops && r.loops[t] == Loop(id, None, false)
            && t in r.pending && t !in r.cancelled && id in r.generation && r.Of(id).delivering.None? && !r.Of(id).asking
  {
    var m := Replaced(s, id, a, t);
    ReplacedHolds(s, id, a, t);
    ReplacedFields(s, id, a, t);
    ReplacedHolds(m, id, a, u);
    ReplacedFields(m, id, a, u);
    assert forall x | m.Doomed(x) :: x in m.place;
    assert t in m.place && m.place[t] == HeldFor(id);
  }

  /**
   * A binding can be left with no token and nobody asking, whatever came before: once
   * a token is replaced, and before its context is cancelled, its loop can look at the
   * next token, find that one run out and its own context alive, and drop it.
   */
  lemma StrandingHappens(s: State, id: string, a: string, t: Token, u: Token)
    requires s.Valid() && s.client && t !in s.place && u !in s.place && t != u
    ensures var r := Succeeded(s, id, a, t, u);
            && r.Valid() && t in r.loops && id in r.held && r.loops[t].binding == id && t !in r.Looked(t).cancelled
            && r.Looked(t).Passed(t).MayExpire(t) && !r.Looked(t).Passed(t).Expired(t).Of(id).Covered()
  {
    SucceededHolds(s, id, a, t, u);
    ForeignDrop(Succeeded(s, id, a, t, u), id, t);
  }

  lemma ForeignDrop(r: State, id: string, t: Token)
    requires r.Valid() && id in r.held && id in r.generation && t in r.loops && r.loops[t].binding == id
    requires t in r.pending && t !in r.cancelled && r.Of(id).delivering.None? && !r.Of(id).asking
    ensures r.Looked(t).Passed(t).MayExpire(t) && !r.Looked(t).Passed(t).Expired(t).Of(id).Covered()
  {
    var p := r.Looked(t).Passed(t);
    assert p == r.(loops := p.loops);
    SameStatus(r, p);
    ExpiredLeaves(p, t);
  }

  /** Once the replaced token is cancelled, its loop is shut out, and no later step of any goroutine lets it back. */
  lemma StrandingEndsWithCancel(s: State, id: string, a: string, t: Token, u: Token, later: State)
    requires s.Valid() && s.client && t !in s.place && u !in s.place && t != u
    requires AllDrift(Succeeded(s, id, a, t, u).Cancelled(t), later)
    ensures ShutOut(later, t) && !later.MayExpire(t)
  {
    SucceededHolds(s, id, a, t, u);
    assert ShutOut(Succeeded(s, id, a, t, u).Cancelled(t), t);
  }
}
