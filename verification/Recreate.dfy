/**
 * Recreating one container (internal/agent/recreate.go), and the journal that
 * keeps a failure from being forgotten. The container's name is fixed; the engine
 * listing that a reconciliation uses is current.
 *
 * One method is one step: a call to the engine, a change of the journal file, or a
 * message. The agent may exit between any two.
 */
module Recreate {
  import opened Basics

  datatype Reason = CreateFailed | StartFailed | EngineError

  /** The file: unfinished until it records why the recreate failed. */
  datatype Journal = Journal(binding: string, failure: Option<Reason>)

  /** What the controller says it recorded. */
  datatype Recorded = Recorded(binding: string, failed: bool, reason: Reason)

  /** Where the worker stands. */
  datatype Phase = Idle | Inspecting | Journaling | Stopping | Removing | Creating(again: bool) | Starting | Finishing(failure: Option<Reason>)

  /** How one call went: it succeeded, failed without effect, or failed after taking effect. */
  datatype Fate = Succeeded | Failed | FailedAfter
  {
    predicate Took() { this != Failed }
  }

  datatype Event =
    | Request(binding: string)
    | Advance(fate: Fate, giveUp: bool)
    | Reconcile(readable: bool, fate: Fate)
    | Acknowledge(recorded: Recorded, readable: bool, fate: Fate)
    | OthersCreate
    | OthersRemove
    | Exit

  class Container {
    /** A container of this name exists. */
    var present: bool
    var journal: Option<Journal>
    /** The worker, and the binding it recreates the container for. */
    var phase: Phase
    var binding: string
    /** A recreate removed the container, none exists since, and the controller has not been heard to record it. */
    var owed: bool
    /** A reconciliation could not read the journal of an owed container, and removed it; none was written since. */
    var lost: bool

    /** The journal names the worker's recreate, not yet finished. */
    predicate Journaled()
      reads this
    {
      journal == Some(Journal(binding, None))
    }

    ghost predicate Valid()
      reads this
    {
      && (owed ==> !present && (journal.Some? <==> !lost)) && (lost ==> owed)
      && (phase in {Stopping, Removing, Starting} || phase.Creating? ==> Journaled())
      && (phase in {Starting, Finishing(None)} ==> !owed)
    }

    constructor (present: bool)
      ensures Valid() && !owed && !lost && this.present == present
    {
      this.present, journal, phase, binding, owed, lost := present, None, Idle, "", false, false;
    }

    /** Whether `recorded` acknowledges exactly the failure the journal holds. */
    predicate Acknowledges(recorded: Recorded)
      reads this
    {
      recorded.failed && journal.Some? && journal.value.failure == Some(recorded.reason) && journal.value.binding == recorded.binding
    }

    /** The file is replaced whole; a failed write leaves the old or the new one. */
    method WriteJournal(next: Journal, fate: Fate)
      modifies this`journal, this`lost
      ensures journal == if fate.Took() then Some(next) else old(journal)
      ensures lost == (old(lost) && !fate.Took())
    {
      if fate.Took() {
        journal, lost := Some(next), false;
      }
    }

    method RemoveJournal(fate: Fate)
      modifies this`journal
      ensures journal == if fate.Took() then None else old(journal)
    {
      if fate.Took() {
        journal := None;
      }
    }

    // ----- The worker -----

    /** One recreate of a container at a time. */
    method Begin(requested: string)
      requires Valid()
      modifies this`phase, this`binding
      ensures Valid() && (old(phase) != Idle ==> phase == old(phase) && binding == old(binding))
      ensures old(phase) == Idle ==> phase == Inspecting && binding == requested
    {
      if phase == Idle {
        phase, binding := Inspecting, requested;
      }
    }

    /** Everything up to the removal. Nothing is stopped before the journal is on disk. */
    method Prepare(fate: Fate)
      requires Valid() && phase in {Inspecting, Journaling, Stopping}
      modifies this`phase, this`journal, this`lost
      ensures Valid() && (journal == old(journal) || Journaled()) && (lost ==> old(lost))
      ensures phase == Stopping ==> Journaled()
    {
      match phase
      case Inspecting => phase := if fate == Succeeded && present then Journaling else Finishing(Some(EngineError));
      case Journaling =>
        WriteJournal(Journal(binding, None), fate);
        phase := if fate == Succeeded then Stopping else Finishing(Some(EngineError));
      case Stopping => phase := if fate == Succeeded then Removing else Finishing(Some(EngineError));
    }

    method Remove(fate: Fate)
      requires Valid() && phase == Removing
      modifies this`phase, this`present, this`owed
      ensures Valid() && (owed ==> Journaled() || old(owed)) && (old(owed) ==> owed)
      ensures owed == (old(owed) || (old(present) && !present))
      ensures phase.Creating? ==> fate == Succeeded && !present
    {
      var removes := present && fate.Took();
      owed := owed || removes;
      present := present && !removes;
      phase := if removes && fate == Succeeded then Creating(false) else Finishing(Some(EngineError));
    }

    /** A failed create is tried once more, unless the agent is stopping. */
    method Create(fate: Fate, giveUp: bool)
      requires Valid() && phase.Creating?
      modifies this`phase, this`present, this`owed, this`lost
      ensures Valid() && present == (old(present) || fate.Took()) && (lost ==> old(lost))
      ensures owed == (old(owed) && !present)
      ensures phase == Starting ==> fate == Succeeded && !old(present)
      ensures phase.Creating? ==> old(phase) == Creating(false) && phase == Creating(true) && !giveUp
    {
      var created := fate == Succeeded && !present;
      if fate.Took() {
        present, owed, lost := true, false, false;
      }
      if created {
        phase := Starting;
      } else if !phase.again && !giveUp {
        phase := Creating(true);
      } else {
        phase := Finishing(Some(CreateFailed));
      }
    }

    method StartContainer(fate: Fate)
      requires Valid() && phase == Starting
      modifies this`phase
      ensures Valid() && phase == Finishing(if fate == Succeeded then None else Some(StartFailed))
    {
      phase := Finishing(if fate == Succeeded then None else Some(StartFailed));
    }

    /** A failure makes the journal terminal; a success removes it. */
    method Finish(fate: Fate)
      requires Valid() && phase.Finishing?
      modifies this`phase, this`journal, this`lost
      ensures Valid() && phase == Idle && (lost ==> old(lost))
      ensures old(phase).failure.Some? && fate == Succeeded ==> journal == Some(Journal(binding, old(phase).failure))
      ensures old(journal).Some? && journal.None? ==> old(phase).failure.None?
    {
      if phase.failure.Some? {
        WriteJournal(Journal(binding, phase.failure), fate);
      } else {
        RemoveJournal(fate);
      }
      phase := Idle;
    }

    method Work(fate: Fate, giveUp: bool)
      requires Valid()
      modifies this`phase, this`present, this`owed, this`journal, this`lost
      ensures Valid() && (lost ==> old(lost)) && (old(owed) && !owed ==> present)
      ensures old(phase) == Idle ==> phase == Idle && present == old(present) && journal == old(journal)
      ensures !old(owed) && owed ==> old(phase) == Removing && old(present) && Journaled()
    {
      match phase
      case Idle =>
      case Removing => Remove(fate);
      case Creating(again) => Create(fate, giveUp);
      case Starting => StartContainer(fate);
      case Finishing(failure) => Finish(fate);
      case _ => Prepare(fate);
    }

    // ----- Everybody else -----

    /**
     * What an exit left unfinished is settled by the engine's listing: with a container
     * the journal goes, without one it records that the create failed.
     */
    method ReportInterrupted(readable: bool, fate: Fate)
      requires Valid()
      modifies this`journal, this`lost
      ensures Valid()
      ensures phase != Idle ==> journal == old(journal) && lost == old(lost)
      ensures owed && old(journal).Some? ==>
                (journal.Some? <==> readable || phase != Idle || !fate.Took())
      ensures lost != old(lost) ==> lost && !readable
      ensures readable && old(journal).Some? && phase == Idle && fate == Succeeded ==>
                journal == if old(journal).value.failure.Some? then old(journal)
                           else if present then None
                           else Some(Journal(old(journal).value.binding, Some(CreateFailed)))
    {
      if phase != Idle || journal.None? {
        return;
      }
      if !readable || (journal.value.failure.None? && present) {
        RemoveJournal(fate);
        lost := owed && journal.None?;
      } else if journal.value.failure.None? {
        WriteJournal(Journal(journal.value.binding, Some(CreateFailed)), fate);
      }
    }

    /** An acknowledgement ends what is owed only if it names this journal's binding and reason. */
    method ResultRecorded(recorded: Recorded, readable: bool, fate: Fate)
      requires Valid()
      modifies this`journal, this`owed, this`lost
      ensures Valid() && (lost ==> old(lost))
      ensures !old(Acknowledges(recorded)) || !readable ==> journal == old(journal) && owed == old(owed)
      ensures old(Acknowledges(recorded)) && readable ==> !owed && journal == if fate.Took() then None else old(journal)
    {
      if !readable || !Acknowledges(recorded) {
        return;
      }
      RemoveJournal(fate);
      owed, lost := false, false;
    }

    method Handle(event: Event)
      requires Valid()
      modifies this
      ensures Valid()
      ensures old(owed) && !owed ==> present || (event.Acknowledge? && old(Acknowledges(event.recorded)))
      ensures lost <==> owed && journal.None?
                        && (old(lost) || (event.Reconcile? && !event.readable && old(journal).Some?))
      ensures !old(owed) && owed ==> old(phase) == Removing && old(present) && Journaled()
    {
      match event
      case Request(requested) => Begin(requested);
      case Advance(fate, giveUp) => Work(fate, giveUp);
      case Reconcile(readable, fate) => ReportInterrupted(readable, fate);
      case Acknowledge(recorded, readable, fate) => ResultRecorded(recorded, readable, fate);
      case OthersCreate => present, owed, lost := true, false, false;
      case OthersRemove => present := false;
      case Exit => phase := Idle;
    }

    /**
     * In every run: a removed container that is absent, its failure unacknowledged, has
     * a journal on disk exactly if none that could not be read was removed since one
     * was last written. If reconciliations can read it, it always has one.
     */
    method Run(events: seq<Event>)
      requires Valid()
      modifies this
      ensures Valid() && (owed ==> !present && (journal.Some? <==> !lost))
      ensures !old(lost) && (forall i | 0 <= i < |events| :: events[i].Reconcile? ==> events[i].readable) ==>
                !lost && (owed ==> journal.Some? && !present)
    {
      for i := 0 to |events|
        invariant Valid()
        invariant !old(lost) && (forall j | 0 <= j < i :: events[j].Reconcile? ==> events[j].readable) ==> !lost
      {
        Handle(events[i]);
      }
    }
  }
}
