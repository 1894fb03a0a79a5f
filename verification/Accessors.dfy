/**
 * Accessor reports racing the binding lifecycle (internal/controller/session.go,
 * internal/controller/operations.go, internal/controller/store/store.go).
 *
 * Changing, applying and retiring bindings take turns under the mutation lock;
 * reports take no lock, so their database reads and writes fall anywhere between
 * those steps. Any call may fail, and the controller may crash.
 */
module Accessors {
  import opened Basics

  /** A revision and what it resolves to. */
  datatype Assignment = Assignment(revision: nat, effective: string)

  datatype Row = Row(agent: string, assignment: Assignment, applied: bool)

  /** An accessor as recorded, and the revision it was reported for. */
  datatype Recorded = Recorded(accessor: string, revision: nat)

  /** How far the lock holder's application of a binding is. */
  datatype Applying = Reading(id: string) | Revoking(id: string, accessor: string) | Marking(id: string)

  /** How far a report's handling is. */
  datatype Stage = Arrived | Saving(row: Row) | LookingAgain | RevokingReport | LookingUpRetired

  /** One accessor an agent reported; `own` says whether the binding is, or was, that agent's. */
  datatype Report = Report(id: string, agent: string, accessor: string, assignment: Assignment, own: bool, stage: Stage)

  /** An accessor of one binding, as reported, replaced, returned or withheld. */
  datatype Reported = Reported(id: string, accessor: string)

  datatype State = State(
    rows: map<string, Row>, retired: map<string, string>, accessors: map<string, Recorded>,
    revoked: set<string>, replaced: set<Reported>, returned: set<Reported>, withheld: set<Reported>,
    applying: Option<Applying>, reports: map<nat, Report>, acknowledged: set<Reported>)
  {
    predicate Owns(agent: string, id: string) {
      if id in rows then rows[id].agent == agent else id in retired && retired[id] == agent
    }

    // ----- Under the mutation lock -----

    function Created(id: string, row: Row): State { this.(rows := rows[id := row.(applied := false)]) }

    function Changed(id: string, effective: string): State
      requires id in rows
    {
      var row := rows[id];
      this.(rows := rows[id := row.(assignment := Assignment(row.assignment.revision + 1, effective), applied := false)])
    }

    /**
     * The row goes, with its recorded accessor. The caller is given that accessor to
     * revoke, unless it never learns that the removal committed.
     */
    function Retired(id: string, answered: bool): State
      requires id in rows
    {
      var gone := if id in accessors then {Reported(id, accessors[id].accessor)} else {};
      this.(rows := rows - {id}, retired := retired[id := rows[id].agent], accessors := accessors - {id},
            returned := if answered then returned + gone else returned,
            withheld := if answered then withheld else withheld + gone)
    }

    function AccessorRead(id: string): State {
      this.(applying := Some(if id in accessors then Revoking(id, accessors[id].accessor) else Marking(id)))
    }

    function Marked(id: string): State {
      this.(applying := None, rows := if id in rows then rows[id := rows[id].(applied := true)] else rows)
    }

    // ----- Reports -----

    function Received(n: nat, id: string, agent: string, accessor: string, assignment: Assignment): State {
      this.(reports := reports[n := Report(id, agent, accessor, assignment, Owns(agent, id), Arrived)])
    }

    function At(n: nat, stage: Stage): State
      requires n in reports
    {
      this.(reports := reports[n := reports[n].(stage := stage)])
    }

    function Unanswered(n: nat): State { this.(reports := reports - {n}) }

    function Answered(n: nat): State
      requires n in reports
    {
      var r := reports[n];
      Unanswered(n).(acknowledged := if r.own then acknowledged + {Reported(r.id, r.accessor)} else acknowledged)
    }

    /** The first read of the report's binding. */
    function Looked(n: nat): State
      requires n in reports
    {
      var r := reports[n];
      if r.id !in rows then At(n, LookingUpRetired)
      else if rows[r.id].agent != r.agent then Answered(n)
      else if r.assignment != rows[r.id].assignment || !rows[r.id].applied then At(n, RevokingReport)
      else At(n, Saving(rows[r.id]))
    }

    /** Whether the guarded write finds the row it was computed from, still applied. */
    predicate Savable(n: nat)
      requires n in reports && reports[n].stage.Saving?
    {
      var r := reports[n];
      r.id in rows && rows[r.id].assignment.revision == r.stage.row.assignment.revision && rows[r.id].applied
    }

    function Saved(n: nat): State
      requires n in reports && reports[n].stage.Saving?
    {
      var r := reports[n];
      this.(accessors := accessors[r.id := Recorded(r.accessor, r.assignment.revision)],
            replaced := if r.id in accessors && accessors[r.id].accessor != r.accessor then replaced + {Reported(r.id, accessors[r.id].accessor)}
                        else replaced)
    }

    function WithRevoked(accessor: string): State { this.(revoked := revoked + {accessor}) }
  }

  /** One atomic step. The flags say which calls succeed and which failed ones took effect. */
  datatype Step =
    | Create(id: string, row: Row)
    | Change(id: string, effective: string)
    | Retire(id: string, ok: bool, effect: bool)
    | RevokeReturned(id: string, accessor: string)
    | StartApply(id: string)
    | ContinueApply(ok: bool, effect: bool)
    | Receive(n: nat, id: string, agent: string, accessor: string, assignment: Assignment)
    | Look(n: nat, ok: bool)
    | Save(n: nat, ok: bool, effect: bool)
    | LookAgain(n: nat, ok: bool)
    | RevokeReport(n: nat, ok: bool, effect: bool)
    | LookUpRetired(n: nat, ok: bool)
    | Crash

  function NextApply(s: State, ok: bool, effect: bool): State
    requires s.applying.Some?
  {
    match s.applying.value
    case Reading(id) => if ok then s.AccessorRead(id) else s.(applying := None)
    case Revoking(id, accessor) =>
      var t := if ok || effect then s.WithRevoked(accessor) else s;
      if ok then t.(applying := Some(Marking(id))) else t.(applying := None)
    case Marking(id) => if ok || effect then s.Marked(id) else s.(applying := None)
  }

  /** The guarded write: recorded, refused because the row moved, or failed. */
  function NextSave(s: State, n: nat, ok: bool, effect: bool): State
    requires n in s.reports && s.reports[n].stage.Saving?
  {
    var written := s.Savable(n) && (ok || effect);
    var t := if written then s.Saved(n) else s;
    if !ok then t.At(n, LookingAgain) else if written then t.Answered(n) else t.At(n, RevokingReport)
  }

  function NextRevoke(s: State, n: nat, ok: bool, effect: bool): State
    requires n in s.reports
  {
    var t := if ok || effect then s.WithRevoked(s.reports[n].accessor) else s;
    if ok then t.Answered(n) else t.Unanswered(n)
  }

  function NextLookUp(s: State, n: nat, ok: bool): State
    requires n in s.reports
  {
    var r := s.reports[n];
    if !ok then s.Unanswered(n)
    else if r.id !in s.retired || s.retired[r.id] != r.agent then s.Answered(n)
    else s.At(n, RevokingReport)
  }

  /** A step that cannot be taken changes nothing. Identifiers are never reused. */
  function Next(s: State, step: Step): State {
    match step
    case Create(id, row) =>
      if s.applying.None? && id !in s.rows && id !in s.retired then s.Created(id, row) else s
    case Change(id, effective) => if s.applying.None? && id in s.rows then s.Changed(id, effective) else s
    case Retire(id, ok, effect) =>
      if s.applying.None? && id in s.rows && (ok || effect) then s.Retired(id, ok) else s
    case RevokeReturned(id, accessor) => if Reported(id, accessor) in s.returned then s.WithRevoked(accessor) else s
    case StartApply(id) =>
      if s.applying.None? && id in s.rows && !s.rows[id].applied then s.(applying := Some(Reading(id))) else s
    case ContinueApply(ok, effect) => if s.applying.Some? then NextApply(s, ok, effect) else s
    case Receive(n, id, agent, accessor, assignment) =>
      if n !in s.reports then s.Received(n, id, agent, accessor, assignment) else s
    case Look(n, ok) =>
      if n in s.reports && s.reports[n].stage.Arrived? then if ok then s.Looked(n) else s.Unanswered(n) else s
    case Save(n, ok, effect) => if n in s.reports && s.reports[n].stage.Saving? then NextSave(s, n, ok, effect) else s
    case LookAgain(n, ok) =>
      // Only a row that is gone by now sends the report on to the retired bindings.
      if n in s.reports && s.reports[n].stage.LookingAgain? then
        if ok && s.reports[n].id !in s.rows then s.At(n, LookingUpRetired) else s.Unanswered(n)
      else s
    case RevokeReport(n, ok, effect) =>
      if n in s.reports && s.reports[n].stage.RevokingReport? then NextRevoke(s, n, ok, effect) else s
    case LookUpRetired(n, ok) =>
      if n in s.reports && s.reports[n].stage.LookingUpRetired? then NextLookUp(s, n, ok) else s
    case Crash => s.(applying := None, reports := map[])
  }

  // ----- Invariants -----

  /** An applied binding's recorded accessor is of its revision, or revoked. */
  ghost predicate Current(s: State, id: string)
    requires id in s.rows
  {
    s.rows[id].applied && id in s.accessors ==>
      s.accessors[id].revision == s.rows[id].assignment.revision || s.accessors[id].accessor in s.revoked
  }

  /** The lock holder's next step is about the accessor that is recorded. */
  ghost predicate ApplyOk(s: State) {
    s.applying.Some? ==>
      && s.applying.value.id in s.rows && !s.rows[s.applying.value.id].applied
      && (s.applying.value.Revoking? ==>
            s.applying.value.id in s.accessors && s.accessors[s.applying.value.id].accessor == s.applying.value.accessor)
      && (s.applying.value.Marking? && s.applying.value.id in s.accessors ==>
            s.accessors[s.applying.value.id].accessor in s.revoked)
  }

  ghost predicate ReportOk(s: State, r: Report) {
    && (r.own ==> s.Owns(r.agent, r.id))
    && (r.own && r.stage.LookingUpRetired? ==> r.id !in s.rows)
    && (r.stage.Saving? ==> r.stage.row.assignment == r.assignment)
  }

  /** What became of an acknowledged accessor. */
  ghost predicate Settled(s: State, a: Reported) {
    || a.accessor in s.revoked || a in s.replaced
    || (a.id in s.rows && a.id in s.accessors && s.accessors[a.id].accessor == a.accessor)
    || (a.id !in s.rows && (a in s.returned || a in s.withheld))
  }

  ghost predicate RowsOk(s: State) {
    && (forall id | id in s.rows :: Current(s, id) && id !in s.retired)
    && (forall id | id in s.accessors :: id in s.rows)
  }

  ghost predicate ReportsOk(s: State) { forall n | n in s.reports :: ReportOk(s, s.reports[n]) }

  ghost predicate AcknowledgedOk(s: State) {
    forall a | a in s.acknowledged :: Settled(s, a) && (a.id in s.rows || a.id in s.retired)
  }

  ghost predicate Valid(s: State) { RowsOk(s) && ApplyOk(s) && ReportsOk(s) && AcknowledgedOk(s) }

  function Start(): State { State(map[], map[], map[], {}, {}, {}, {}, None, map[], {}) }

  lemma StageKeeps(s: State, n: nat, stage: Stage)
    requires Valid(s) && n in s.reports && ReportOk(s, s.reports[n].(stage := stage))
    ensures Valid(s.At(n, stage))
  {
  }

  lemma UnansweredKeeps(s: State, n: nat)
    requires Valid(s)
    ensures Valid(s.Unanswered(n))
  {
  }

  /** An own report may be acknowledged once its accessor is settled. */
  lemma AnsweredKeeps(s: State, n: nat)
    requires Valid(s) && n in s.reports && (s.reports[n].own ==> Settled(s, Reported(s.reports[n].id, s.reports[n].accessor)))
    ensures Valid(s.Answered(n))
  {
    UnansweredKeeps(s, n);
    var t := s.Answered(n);
    forall a | a in t.acknowledged ensures Settled(t, a) && (a.id in t.rows || a.id in t.retired) {
      assert a in s.acknowledged || (s.reports[n].own && a == Reported(s.reports[n].id, s.reports[n].accessor));
    }
  }

  lemma RevokedKeeps(s: State, accessor: string)
    requires Valid(s)
    ensures Valid(s.WithRevoked(accessor))
  {
    var t := s.WithRevoked(accessor);
    forall a | a in t.acknowledged ensures Settled(t, a) {
      assert Settled(s, a);
    }
  }

  /** A guarded write records the accessor under the row's own revision. */
  lemma SavedKeeps(s: State, n: nat)
    requires Valid(s) && n in s.reports && s.reports[n].stage.Saving? && s.Savable(n)
    ensures Valid(s.Saved(n)) && Settled(s.Saved(n), Reported(s.reports[n].id, s.reports[n].accessor))
  {
    var t, r := s.Saved(n), s.reports[n];
    assert ReportOk(s, r);
    forall a | a in t.acknowledged ensures Settled(t, a) {
      assert Settled(s, a);
    }
  }

  lemma LockedKeeps(s: State, step: Step)
    requires Valid(s) && (step.Create? || step.Change? || step.Retire? || step.StartApply? || step.Crash?)
    ensures Valid(Next(s, step))
  {
  }

  lemma ApplyKeeps(s: State, ok: bool, effect: bool)
    requires Valid(s) && s.applying.Some?
    ensures Valid(NextApply(s, ok, effect))
  {
    if s.applying.value.Revoking? {
      RevokedKeeps(s, s.applying.value.accessor);
    } else if s.applying.value.Marking? {
      MarkedKeeps(s, s.applying.value.id);
    }
  }

  /** Marking a binding applied cannot meet a live accessor of an earlier revision. */
  lemma MarkedKeeps(s: State, id: string)
    requires Valid(s) && s.applying == Some(Marking(id))
    ensures Valid(s.Marked(id))
  {
    var t := s.Marked(id);
    forall a | a in t.acknowledged ensures Settled(t, a) {
      assert Settled(s, a);
    }
  }

  lemma LookedKeeps(s: State, n: nat)
    requires Valid(s) && n in s.reports && s.reports[n].stage.Arrived?
    ensures Valid(s.Looked(n))
  {
    var r := s.reports[n];
    assert ReportOk(s, r);
    if r.id !in s.rows {
      StageKeeps(s, n, LookingUpRetired);
    } else if s.rows[r.id].agent != r.agent {
      AnsweredKeeps(s, n);
    } else if r.assignment != s.rows[r.id].assignment || !s.rows[r.id].applied {
      StageKeeps(s, n, RevokingReport);
    } else {
      StageKeeps(s, n, Saving(s.rows[r.id]));
    }
  }

  lemma SaveKeeps(s: State, n: nat, ok: bool, effect: bool)
    requires Valid(s) && n in s.reports && s.reports[n].stage.Saving?
    ensures Valid(NextSave(s, n, ok, effect))
  {
    var written := s.Savable(n) && (ok || effect);
    var t := if written then s.Saved(n) else s;
    if written {
      SavedKeeps(s, n);
    }
    assert ReportOk(t, t.reports[n]);
    if !ok {
      StageKeeps(t, n, LookingAgain);
    } else if written {
      AnsweredKeeps(t, n);
    } else {
      StageKeeps(t, n, RevokingReport);
    }
  }

  lemma RevokeKeeps(s: State, n: nat, ok: bool, effect: bool)
    requires Valid(s) && n in s.reports
    ensures Valid(NextRevoke(s, n, ok, effect))
    ensures NextRevoke(s, n, ok, effect).acknowledged != s.acknowledged ==> s.reports[n].accessor in NextRevoke(s, n, ok, effect).revoked
  {
    var t := if ok || effect then s.WithRevoked(s.reports[n].accessor) else s;
    RevokedKeeps(s, s.reports[n].accessor);
    if ok {
      AnsweredKeeps(t, n);
    } else {
      UnansweredKeeps(t, n);
    }
  }

  lemma LookUpKeeps(s: State, n: nat, ok: bool)
    requires Valid(s) && n in s.reports && s.reports[n].stage.LookingUpRetired?
    ensures Valid(NextLookUp(s, n, ok))
    ensures s.reports[n].own && ok ==>
              NextLookUp(s, n, ok).acknowledged == s.acknowledged && NextLookUp(s, n, ok).reports[n].stage.RevokingReport?
  {
    var r := s.reports[n];
    assert ReportOk(s, r);
    if !ok {
      UnansweredKeeps(s, n);
    } else if r.id !in s.retired || s.retired[r.id] != r.agent {
      AnsweredKeeps(s, n);
    } else {
      StageKeeps(s, n, RevokingReport);
    }
  }

  lemma ReceivedKeeps(s: State, n: nat, id: string, agent: string, accessor: string, assignment: Assignment)
    requires Valid(s) && n !in s.reports
    ensures Valid(s.Received(n, id, agent, accessor, assignment))
  {
  }

  lemma StepKeeps(s: State, step: Step)
    requires Valid(s)
    ensures Valid(Next(s, step))
  {
    match step
    case RevokeReturned(id, accessor) => RevokedKeeps(s, accessor);
    case ContinueApply(ok, effect) => if s.applying.Some? { ApplyKeeps(s, ok, effect); }
    case Receive(n, id, agent, accessor, assignment) =>
      if n !in s.reports { ReceivedKeeps(s, n, id, agent, accessor, assignment); }
    case Look(n, ok) =>
      if n in s.reports && s.reports[n].stage.Arrived? {
        LookedKeeps(s, n);
        UnansweredKeeps(s, n);
      }
    case Save(n, ok, effect) => if n in s.reports && s.reports[n].stage.Saving? { SaveKeeps(s, n, ok, effect); }
    case LookAgain(n, ok) =>
      if n in s.reports && s.reports[n].stage.LookingAgain? {
        UnansweredKeeps(s, n);
        if s.reports[n].id !in s.rows {
          assert ReportOk(s, s.reports[n]);
          StageKeeps(s, n, LookingUpRetired);
        }
      }
    case RevokeReport(n, ok, effect) => if n in s.reports { RevokeKeeps(s, n, ok, effect); }
    case LookUpRetired(n, ok) => if n in s.reports && s.reports[n].stage.LookingUpRetired? { LookUpKeeps(s, n, ok); }
    case _ => LockedKeeps(s, step);
  }

  // ----- Runs -----

  function Run(steps: seq<Step>): State {
    if steps == [] then Start() else Next(Run(steps[..|steps| - 1]), steps[|steps| - 1])
  }

  lemma {:induction false} RunKeeps(steps: seq<Step>)
    ensures Valid(Run(steps))
  {
    if steps != [] {
      RunKeeps(steps[..|steps| - 1]);
      StepKeeps(Run(steps[..|steps| - 1]), steps[|steps| - 1]);
    }
  }

  /** In every run, an applied binding has no recorded live accessor that was reported for an earlier revision. */
  lemma AppliedHasNoOldToken(steps: seq<Step>, id: string)
    ensures var s := Run(steps);
            id in s.rows && s.rows[id].applied && id in s.accessors && s.accessors[id].revision != s.rows[id].assignment.revision
            ==> s.accessors[id].accessor in s.revoked
  {
    RunKeeps(steps);
    if id in Run(steps).rows {
      assert Current(Run(steps), id);
    }
  }

  /**
   * In every run, each accessor of a retired binding that its own agent reported and
   * that was acknowledged was revoked, replaced by a later accepted report, or went
   * with the removal: given to the caller to revoke, or withheld because the removal
   * committed and its answer was lost.
   */
  lemma RetiredTokensAreAccountedFor(steps: seq<Step>, a: Reported)
    ensures var s := Run(steps);
            a in s.acknowledged && a.id in s.retired ==>
              a.accessor in s.revoked || a in s.replaced || a in s.returned || a in s.withheld
    ensures a in Run(steps).withheld ==> AnswerLost(steps, a.id)
  {
    RunKeeps(steps);
    if a in Run(steps).withheld {
      WithheldWasLost(steps, a);
    }
    if a in Run(steps).acknowledged && a.id in Run(steps).retired {
      assert Settled(Run(steps), a);
      assert !exists id :: id in Run(steps).rows && id in Run(steps).retired;
    }
  }

  /** Some removal of the binding committed without its caller learning so. */
  ghost predicate AnswerLost(steps: seq<Step>, id: string) { Retire(id, false, true) in steps }

  lemma {:induction false} WithheldWasLost(steps: seq<Step>, a: Reported)
    requires a in Run(steps).withheld
    ensures AnswerLost(steps, a.id)
  {
    var before, last := steps[..|steps| - 1], steps[|steps| - 1];
    WithheldAt(Run(before), last, a);
    if a in Run(before).withheld {
      WithheldWasLost(before, a);
    }
  }

  lemma WithheldAt(s: State, step: Step, a: Reported)
    requires a in Next(s, step).withheld
    ensures a in s.withheld || step == Retire(a.id, false, true)
  {
  }

  /**
   * Such a removal does leave an acknowledged token that nobody revokes: it neither
   * reaches the caller nor stays in the store.
   */
  lemma LostAnswerLeavesToken(id: string, row: Row, accessor: string)
    ensures var steps := LosingRun(id, row, accessor);
            var s, a := Run(steps), Reported(id, accessor);
            a in s.acknowledged && id in s.retired && a in s.withheld
            && accessor !in s.revoked && a !in s.replaced && a !in s.returned && id !in s.accessors
  {
    var steps := LosingRun(id, row, accessor);
    Applied(steps, id, row);
    var s := Bound(id, row);
    Prefix(steps, 4, s);
    Recording(s, id, row, accessor);
    s := s.Received(0, id, row.agent, accessor, row.assignment);
    Prefix(steps, 5, s);
    s := s.Looked(0);
    Prefix(steps, 6, s);
    s := NextSave(s, 0, true, true);
    Prefix(steps, 7, s);
    assert steps[..8] == steps;
  }

  /** One applied binding. */
  function Bound(id: string, row: Row): State { Start().(rows := map[id := row.(applied := true)]) }

  lemma Applied(steps: seq<Step>, id: string, row: Row)
    requires |steps| >= 4 && steps[..4] == [Create(id, row), StartApply(id), ContinueApply(true, true), ContinueApply(true, true)]
    ensures Run(steps[..4]) == Bound(id, row)
  {
    assert forall k | 0 <= k < 4 :: steps[k] == steps[..4][k];
    Prefix(steps, 0, Start());
    var s := Start().Created(id, row);
    Prefix(steps, 1, s);
    Prefix(steps, 2, s.(applying := Some(Reading(id))));
    Prefix(steps, 3, s.(applying := Some(Marking(id))));
    assert s.(applying := Some(Marking(id))).Marked(id).rows == Bound(id, row).rows;
  }

  lemma Recording(s: State, id: string, row: Row, accessor: string)
    requires s == Bound(id, row)
    ensures var at := s.Received(0, id, row.agent, accessor, row.assignment);
            var saved := NextSave(at.Looked(0), 0, true, true);
            0 in at.reports && at.reports[0].stage.Arrived?
            && 0 in at.Looked(0).reports && at.Looked(0).reports[0].stage.Saving?
            && saved.rows == s.rows && saved.accessors == map[id := Recorded(accessor, row.assignment.revision)]
            && saved.acknowledged == {Reported(id, accessor)}
            && saved.revoked == {} && saved.replaced == {} && saved.returned == {} && saved.applying.None?
  {
  }

  function LosingRun(id: string, row: Row, accessor: string): seq<Step> {
    [Create(id, row), StartApply(id), ContinueApply(true, true), ContinueApply(true, true),
     Receive(0, id, row.agent, accessor, row.assignment), Look(0, true), Save(0, true, true), Retire(id, false, true)]
  }

  lemma Prefix(steps: seq<Step>, n: nat, s: State)
    requires n < |steps| && Run(steps[..n]) == s
    ensures Run(steps[..n + 1]) == Next(s, steps[n])
  {
    assert steps[..n + 1][..n] == steps[..n];
  }

  /** A report that reaches the write while its binding stands at another revision, or unapplied, records nothing. */
  lemma LateReportRecordsNothing(s: State, n: nat, ok: bool, effect: bool)
    requires n in s.reports && s.reports[n].stage.Saving? && s.reports[n].id in s.rows
    requires s.rows[s.reports[n].id].assignment.revision != s.reports[n].stage.row.assignment.revision || !s.rows[s.reports[n].id].applied
    ensures NextSave(s, n, ok, effect).accessors == s.accessors
    ensures ok ==> n in NextSave(s, n, ok, effect).reports && NextSave(s, n, ok, effect).reports[n].stage.RevokingReport?
  {
  }
}
