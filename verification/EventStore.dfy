/**
 * One writer's event file: what it must hold, and what survives a crash or a loss
 * of power (internal/events/store.go, internal/events/filesystem.go).
 *
 * What a process writes is at once what the next process reads. What a loss of
 * power leaves is less: a creation or a rename may be undone until the directory is
 * synced, and bytes written may be lost until the file is synced. Bytes whose sync
 * failed stay in doubt whatever is synced later.
 */
module EventStore {
  import opened Basics
  import opened Framing
  import opened EventFormat

  /** The newest `n` events of `s`. */
  function Last(s: seq<Event>, n: nat): seq<Event> {
    if |s| <= n then s else s[|s| - n..]
  }

  function First(s: seq<Event>, n: nat): seq<Event> { if n <= |s| then s[..n] else s }

  /** `a` is what remains of `b` after dropping some events. */
  ghost predicate Subsequence(a: seq<Event>, b: seq<Event>) {
    || a == []
    || (b != [] && Subsequence(a, b[..|b| - 1]))
    || (b != [] && a[|a| - 1] == b[|b| - 1] && Subsequence(a[..|a| - 1], b[..|b| - 1]))
  }

  /** How one operation on the file goes wrong, if it does. */
  datatype Fault =
    | NoFault
    | WriteStops(written: nat)          // a write fails, or the process ends, after these bytes
    | StopsBeforeSync                   // the process ends between the write and the sync
    | SyncFails
    | TruncateFails
    | RenameFails                       // compaction stops before the new file is published
    | DirectoryFails                    // a creation or rename took effect, the sync of its directory did not follow

  datatype Answer = Recorded | Refused | Closed | Failed

  /** What a loss of power may do to the bytes of a file. A sync makes dirty bytes durable, and spoiled ones not. */
  datatype Doubt = Nothing | Dirty | Spoiled
  {
    function Touched(): Doubt { if this == Nothing then Dirty else this }
  }

  /**
   * A file. Before it has its header nothing was ever recorded, and `tail` is what it
   * has; after that it is the intact image of the newest `kept` events of `history`,
   * followed by bytes that do not read as a frame, or by none.
   *
   * The header and the first frames, `sure` of them together, are durable. If anything
   * is in doubt, a loss of power may leave any bytes after those, up to the length the
   * file had at most since it was last durable as a whole: `slack` more than it has now.
   */
  datatype Log = Log(
    history: seq<Event>, started: bool, kept: nat, tail: seq<byte>, sure: nat, doubt: Doubt, slack: nat)
  {
    function Logged(): seq<Event> {
      if kept <= |history| then history[|history| - kept..] else history
    }

    function Bytes(f: Format): seq<byte> { if started then Image(f, Logged()) + tail else tail }

    ghost predicate Sound(f: Format, retention: nat) {
      && f.AllWritable(history) && (doubt == Nothing ==> slack == 0)
      && if started then HoldsNewest(f, retention) else Unstarted()
    }

    predicate HoldsNewest(f: Format, retention: nat) {
      && kept <= |history| && (kept >= retention || kept == |history|) && !f.head(tail).Next?
      && sure <= kept + 1 && (doubt == Nothing ==> sure == kept + 1)
    }

    predicate Unstarted() {
      !(FILE_MAGIC <= tail) && history == [] && kept == 0 && sure == 0 && slack == 0
    }

    /** The file holds these events and nothing else. */
    ghost predicate Holds(f: Format, retention: nat, events: seq<Event>) {
      Sound(f, retention) && started && tail == [] && Logged() == events
    }

    /** Opening the file can succeed. */
    predicate Openable(f: Format) {
      if started then !f.head(tail).Broken? else tail == []
    }

    // ----- What the store does to it -----

    function Less(slack: nat, bytes: nat): nat { if bytes <= slack then slack - bytes else 0 }

    /** A frame written at the end. */
    function Appended(frame: seq<byte>, e: Event): Log {
      this.(history := history + [e], kept := kept + 1, doubt := doubt.Touched(), slack := Less(slack, |frame|))
    }

    /** Part of a frame written at the end. */
    function Interrupted(written: seq<byte>): Log {
      if written == [] then this
      else this.(tail := written, doubt := doubt.Touched(), slack := Less(slack, |written|))
    }

    /** What follows the last whole frame removed. */
    function Truncated(): Log { this.(tail := [], doubt := doubt.Touched(), slack := slack + |tail|) }

    function Synced(): Log {
      if doubt == Dirty then this.(doubt := Nothing, sure := kept + 1, slack := 0) else this
    }

    function Unsynced(): Log { this.(doubt := Spoiled) }

    /** A new file of the newest `n` events, synced before it is renamed. */
    function Compacted(n: nat): Log {
      this.(started := true, kept := |Last(history, n)|, tail := [], sure := |Last(history, n)| + 1, doubt := Nothing, slack := 0)
    }

    // ----- What a loss of power does to it -----

    /** Everything arrived after all. */
    function Settled(): Log { this.(doubt := Nothing, sure := if started then kept + 1 else 0, slack := 0) }

    /** Of the header and the frames, the first `units` are left, then `rest`. */
    function Cut(units: nat, rest: seq<byte>): Log {
      if units == 0 then Log([], false, 0, rest, 0, Nothing, 0)
      else if units > kept then this.(tail := rest, sure := kept + 1, doubt := Nothing, slack := 0)
      else
        var left := First(Logged(), units - 1);
        Log(left, true, |left|, rest, |left| + 1, Nothing, 0)
    }

    /** What is left is at least what was durable, not longer than the file ever was, and nothing new that reads as an event. */
    predicate MayCut(f: Format, units: nat, rest: seq<byte>) {
      && doubt != Nothing && sure <= units <= (if started then kept + 1 else 0)
      && (if units == 0 then !(FILE_MAGIC <= rest) else !f.head(rest).Next?)
      && |Cut(units, rest).Bytes(f)| <= |Bytes(f)| + slack
    }

    /** No loss of power changes what the file holds or whether it opens. */
    predicate Harmless(f: Format) {
      if !started then tail == []
      else if doubt == Nothing then Openable(f)
      else sure == kept + 1 && |tail| + slack < FRAME_HEADER_BYTES
    }
  }

  /** The file, and those that a loss of power may bring back in its place. */
  datatype Files = Files(log: Log, older: seq<Log>)
  {
    ghost predicate Sound(f: Format, retention: nat) {
      log.Sound(f, retention) && forall o | o in older :: o.Sound(f, retention)
    }

    /** No loss of power changes the history or whether the file opens. */
    predicate Secure(f: Format) {
      log.Harmless(f) && forall o | o in older :: o.Harmless(f) && o.history == log.history
    }

    /** Nothing is in doubt. */
    predicate Calm(f: Format) { older == [] && log.doubt == Nothing && log.Openable(f) }

    /** A creation or rename that no sync of the directory covers yet. */
    function Replaced(next: Log): Files { Files(next, older + [log]) }
  }

  /** What a loss of power does: which file is there, whole or cut. */
  datatype Loss = Loss(which: Option<nat>, cut: Option<(nat, seq<byte>)>)

  function Found(files: Files, loss: Loss): Log {
    if loss.which.Some? && loss.which.value < |files.older| then files.older[loss.which.value] else files.log
  }

  predicate Legal(f: Format, files: Files, loss: Loss) {
    && (loss.which.Some? ==> loss.which.value < |files.older|)
    && (loss.cut.Some? ==> Found(files, loss).MayCut(f, loss.cut.value.0, loss.cut.value.1))
  }

  /** What a file comes back as, whole or cut. */
  function CameBack(l: Log, cut: Option<(nat, seq<byte>)>): Log {
    if cut.Some? then l.Cut(cut.value.0, cut.value.1) else l.Settled()
  }

  function After(f: Format, files: Files, loss: Loss): Files
    requires Legal(f, files, loss)
  {
    var l := Found(files, loss);
    Files(CameBack(l, loss.cut), [])
  }

  /** Nothing that was in the history is gone, and the file can be opened. */
  predicate Unharmed(f: Format, files: Files, later: Files) {
    later.log.history == files.log.history && later.log.Openable(f)
  }

  // ----- Exactly when a loss of power does harm -----

  lemma CutSound(f: Format, retention: nat, l: Log, units: nat, rest: seq<byte>)
    requires l.Sound(f, retention) && l.MayCut(f, units, rest)
    ensures l.Cut(units, rest).Sound(f, retention)
  {
  }

  lemma SettledSound(f: Format, retention: nat, l: Log)
    requires l.Sound(f, retention)
    ensures l.Settled().Sound(f, retention)
  {
  }

  lemma AfterSound(f: Format, retention: nat, files: Files, loss: Loss)
    requires files.Sound(f, retention) && Legal(f, files, loss)
    ensures After(f, files, loss).Sound(f, retention)
  {
    var l := Found(files, loss);
    assert l == files.log || l in files.older;
    SettledSound(f, retention, l);
    if loss.cut.Some? {
      CutSound(f, retention, l, loss.cut.value.0, loss.cut.value.1);
    }
  }

  /** Where every frame is durable, only what follows them can be cut. */
  lemma CutAfterLast(f: Format, retention: nat, l: Log, units: nat, rest: seq<byte>)
    requires l.Sound(f, retention) && l.started && l.Harmless(f) && l.MayCut(f, units, rest)
    ensures l.Cut(units, rest) == l.Settled().(tail := rest) && |rest| < FRAME_HEADER_BYTES
  {
    assert l.Cut(units, rest).Logged() == l.Logged();
  }

  lemma ShortTail(c: Codec, rest: seq<byte>)
    requires |rest| < FRAME_HEADER_BYTES
    ensures !c.Layout().head(rest).Broken?
  {
  }

  /** A file that no loss of power harms comes out of every one with its history, and opens. */
  lemma HarmlessSurvives(c: Codec, retention: nat, l: Log, units: nat, rest: seq<byte>)
    requires c.Faithful() && l.Sound(c.Layout(), retention) && l.Harmless(c.Layout()) && l.MayCut(c.Layout(), units, rest)
    ensures l.Cut(units, rest).history == l.history && l.Cut(units, rest).Openable(c.Layout())
  {
    if l.started {
      CutAfterLast(c.Layout(), retention, l, units, rest);
      ShortTail(c, rest);
    }
  }

  lemma SettledSurvives(c: Codec, retention: nat, l: Log)
    requires c.Faithful() && l.Sound(c.Layout(), retention) && l.Harmless(c.Layout())
    ensures l.Settled().history == l.history && l.Settled().Openable(c.Layout())
  {
    if l.started && l.doubt != Nothing {
      ShortTail(c, l.tail);
    }
  }

  lemma SecureSurvives(c: Codec, retention: nat, files: Files, loss: Loss)
    requires c.Faithful() && files.Sound(c.Layout(), retention) && files.Secure(c.Layout()) && Legal(c.Layout(), files, loss)
    ensures Unharmed(c.Layout(), files, After(c.Layout(), files, loss))
  {
    var l := Found(files, loss);
    assert l.Sound(c.Layout(), retention) && l.Harmless(c.Layout()) && l.history == files.log.history;
    if loss.cut.Some? {
      HarmlessSurvives(c, retention, l, loss.cut.value.0, loss.cut.value.1);
    } else {
      SettledSurvives(c, retention, l);
    }
  }

  function Zeros(n: nat): seq<byte> { seq(n, _ => 0) }

  lemma ZerosBreak(c: Codec, n: nat, rest: seq<byte>)
    requires n >= FRAME_HEADER_BYTES
    ensures c.Layout().head(Zeros(n) + rest) == Broken && !(FILE_MAGIC <= Zeros(n) + rest)
  {
    var z := Zeros(n) + rest;
    assert z[0] == 0 && z[1] == 0 && z[2] == 0 && z[3] == 0;
    assert Word(z, 0) == 0;
    assert z[0] != FILE_MAGIC[0];
  }

  /** The first frame in doubt never arrived: zeros stand where its bytes should, and what follows it is as written. */
  function Hole(f: Format, l: Log): seq<byte>
    requires 0 < l.sure <= |l.Logged()|
  {
    Zeros(|f.frame(l.Logged()[l.sure - 1])|) + f.Frames(l.Logged()[l.sure..]) + l.tail
  }

  lemma FrameLost(c: Codec, retention: nat, l: Log)
    requires c.Faithful() && l.Sound(c.Layout(), retention) && l.started && l.doubt != Nothing && 0 < l.sure <= l.kept
    ensures l.MayCut(c.Layout(), l.sure, Hole(c.Layout(), l))
    ensures l.Cut(l.sure, Hole(c.Layout(), l)).history != l.history && !l.Cut(l.sure, Hole(c.Layout(), l)).Openable(c.Layout())
  {
    var f, s, n := c.Layout(), l.Logged(), l.sure - 1;
    assert s[n] == l.history[|l.history| - l.kept + n];
    var after := f.Frames(s[n + 1..]) + l.tail;
    AppendAssociative(Zeros(|f.frame(s[n])|), f.Frames(s[n + 1..]), l.tail);
    HeadOfFrame(c, s[n], []);
    ZerosBreak(c, |f.frame(s[n])|, after);
    FramesAround(f, s, n);
    assert |First(s, n)| == n && l.Cut(l.sure, Hole(f, l)).Logged() == First(s, n);
  }

  lemma FramesAround(f: Format, s: seq<Event>, n: nat)
    requires n < |s|
    ensures |f.Frames(s)| == |f.Frames(First(s, n))| + |f.frame(s[n])| + |f.Frames(s[n + 1..])|
  {
    f.FramesSplit(s, n);
    assert s[n..][0] == s[n] && s[n..][1..] == s[n + 1..];
  }

  lemma HeaderLost(c: Codec, retention: nat, l: Log) returns (rest: seq<byte>)
    requires c.Faithful() && l.Sound(c.Layout(), retention) && l.started && l.doubt != Nothing && l.sure == 0
    ensures l.MayCut(c.Layout(), 0, rest) && !l.Cut(0, rest).Openable(c.Layout())
  {
    var after := c.Layout().Frames(l.Logged()) + l.tail;
    rest := Zeros(|FILE_MAGIC|) + after;
    ZerosBreak(c, |FILE_MAGIC|, after);
  }

  lemma TailLost(c: Codec, retention: nat, l: Log) returns (rest: seq<byte>)
    requires c.Faithful() && l.Sound(c.Layout(), retention) && l.started && l.doubt != Nothing && l.sure == l.kept + 1
    requires |l.tail| + l.slack >= FRAME_HEADER_BYTES
    ensures l.MayCut(c.Layout(), l.sure, rest) && !l.Cut(l.sure, rest).Openable(c.Layout())
  {
    rest := Zeros(|l.tail| + l.slack);
    ZerosBreak(c, |l.tail| + l.slack, []);
    AppendNothing(rest);
    TailMayBe(c.Layout(), l, rest);
  }

  lemma TailMayBe(f: Format, l: Log, rest: seq<byte>)
    requires l.started && l.kept <= |l.history| && l.doubt != Nothing && l.sure == l.kept + 1
    requires f.head(rest) == Broken && |rest| == |l.tail| + l.slack
    ensures l.MayCut(f, l.sure, rest) && !l.Cut(l.sure, rest).Openable(f)
  {
    TailCutLength(f, l, rest);
  }

  lemma TailCutLength(f: Format, l: Log, rest: seq<byte>)
    requires l.started && l.kept <= |l.history|
    ensures |l.Cut(l.kept + 1, rest).Bytes(f)| == |Image(f, l.Logged())| + |rest|
    ensures |l.Bytes(f)| == |Image(f, l.Logged())| + |l.tail|
  {
    assert l.Cut(l.kept + 1, rest).Logged() == l.Logged();
  }

  lemma HarmfulLoses(c: Codec, retention: nat, l: Log) returns (cut: Option<(nat, seq<byte>)>)
    requires c.Faithful() && l.Sound(c.Layout(), retention) && !l.Harmless(c.Layout())
    ensures cut.Some? ==> l.MayCut(c.Layout(), cut.value.0, cut.value.1)
    ensures CameBack(l, cut).history != l.history || !CameBack(l, cut).Openable(c.Layout())
  {
    if !l.started || l.doubt == Nothing {
      cut := None;
    } else if l.sure == 0 {
      var rest := HeaderLost(c, retention, l);
      cut := Some((0, rest));
    } else if l.sure <= l.kept {
      FrameLost(c, retention, l);
      cut := Some((l.sure, Hole(c.Layout(), l)));
    } else {
      var rest := TailLost(c, retention, l);
      cut := Some((l.sure, rest));
    }
  }

  /**
   * From any state that is not secure some loss of power takes away an event or leaves
   * a file that never opens. Together with `SecureSurvives`: `Secure` is exactly when
   * no loss of power does harm.
   */
  lemma InsecureLoses(c: Codec, retention: nat, files: Files) returns (loss: Loss)
    requires c.Faithful() && files.Sound(c.Layout(), retention) && !files.Secure(c.Layout())
    ensures Legal(c.Layout(), files, loss) && !Unharmed(c.Layout(), files, After(c.Layout(), files, loss))
  {
    if !files.log.Harmless(c.Layout()) {
      var cut := HarmfulLoses(c, retention, files.log);
      return Loss(None, cut);
    }
    var o :| o in files.older && !(o.Harmless(c.Layout()) && o.history == files.log.history);
    var i :| 0 <= i < |files.older| && files.older[i] == o;
    if o.history != files.log.history {
      return Loss(Some(i), None);
    }
    var cut := HarmfulLoses(c, retention, o);
    loss := Loss(Some(i), cut);
  }

  // ----- What each operation leaves on the disk -----

  /** The bytes of `frame` that are written. */
  function Persisted(frame: seq<byte>, fault: Fault): seq<byte> {
    if fault.WriteStops? && fault.written < |frame| then frame[..fault.written] else frame
  }

  function Compaction(f: Format, retention: nat, files: Files, fault: Fault): Files {
    if fault.RenameFails? then files
    else if fault.DirectoryFails? then files.Replaced(files.log.Compacted(retention))
    else Files(files.log.Compacted(retention), [])
  }

  function Serving(f: Format, retention: nat, files: Files, fault: Fault): Files {
    if files.log.kept > retention then Compaction(f, retention, files, fault) else files
  }

  predicate Serves(retention: nat, files: Files, fault: Fault) {
    files.log.kept > retention ==> !fault.RenameFails? && !fault.DirectoryFails?
  }

  /** The sync of what was written, and then serving what the file holds. */
  function SyncLeaves(f: Format, retention: nat, files: Files, fault: Fault): Files {
    if fault.WriteStops? || fault.StopsBeforeSync? then files
    else if fault.SyncFails? then files.(log := files.log.Unsynced())
    else Serving(f, retention, files.(log := files.log.Synced()), fault)
  }

  predicate SyncSucceeds(retention: nat, files: Files, fault: Fault) {
    !fault.WriteStops? && !fault.StopsBeforeSync? && !fault.SyncFails? && Serves(retention, files, fault)
  }

  /** An append to an open store: the frame, or part of it; its sync; and compaction when there are too many. */
  function AppendLeaves(f: Format, retention: nat, files: Files, e: Event, fault: Fault): Files {
    var frame := f.frame(e);
    if Persisted(frame, fault) != frame then files.(log := files.log.Interrupted(Persisted(frame, fault)))
    else SyncLeaves(f, retention, files.(log := files.log.Appended(frame, e)), fault)
  }

  predicate AppendSucceeds(retention: nat, files: Files, fault: Fault) {
    && !fault.WriteStops? && !fault.StopsBeforeSync? && !fault.SyncFails?
    && (files.log.kept + 1 > retention ==> !fault.RenameFails? && !fault.DirectoryFails?)
  }

  /** A file with this much of the header, or all of it, written and not yet synced. */
  function PartOfHeader(written: seq<byte>): Log { Log([], false, 0, written, 0, Dirty, 0) }

  function HeaderOnly(): Log { Log([], true, 0, [], 0, Dirty, 0) }

  /** A start that finds no file. */
  function CreateLeaves(files: Files, fault: Fault): Files {
    if Persisted(FILE_MAGIC, fault) != FILE_MAGIC then files.Replaced(PartOfHeader(Persisted(FILE_MAGIC, fault)))
    else CreateWhole(files, HeaderOnly(), fault)
  }

  function CreateWhole(files: Files, log: Log, fault: Fault): Files {
    if fault.WriteStops? || fault.StopsBeforeSync? then files.Replaced(log)
    else if fault.SyncFails? then files.Replaced(log.Unsynced())
    else if fault.DirectoryFails? then files.Replaced(log.Synced())
    else Files(log.Synced(), [])
  }

  predicate CreateSucceeds(fault: Fault) {
    !fault.WriteStops? && !fault.StopsBeforeSync? && !fault.SyncFails? && !fault.DirectoryFails?
  }

  /** A start that finds a readable file: what reads as interrupted goes, and that is synced. Nothing else is. */
  function RecoverLeaves(f: Format, retention: nat, files: Files, fault: Fault): Files {
    if f.head(files.log.tail).Done? then Serving(f, retention, files, fault)
    else if fault.TruncateFails? then files
    else SyncLeaves(f, retention, files.(log := files.log.Truncated()), fault)
  }

  predicate RecoverSucceeds(f: Format, retention: nat, files: Files, fault: Fault) {
    if f.head(files.log.tail).Done? then Serves(retention, files, fault)
    else !fault.TruncateFails? && SyncSucceeds(retention, files, fault)
  }

  /** A start. Sweeping up an interrupted compaction's leftovers syncs the directory. */
  function OpenLeaves(f: Format, retention: nat, files: Files, fault: Fault, swept: bool): Files {
    StartLeaves(f, retention, if swept then files.(older := []) else files, fault)
  }

  function StartLeaves(f: Format, retention: nat, files: Files, fault: Fault): Files {
    if !files.log.Openable(f) then files
    else if !files.log.started then CreateLeaves(files, fault)
    else RecoverLeaves(f, retention, files, fault)
  }

  predicate OpenSucceeds(f: Format, retention: nat, files: Files, fault: Fault) {
    && files.log.Openable(f)
    && if files.log.started then RecoverSucceeds(f, retention, files, fault) else CreateSucceeds(fault)
  }

  // ----- What each step keeps -----

  lemma AppendedHolds(f: Format, retention: nat, l: Log, events: seq<Event>, e: Event)
    requires l.Holds(f, retention, events) && f.writable(e)
    ensures l.Appended(f.frame(e), e).Holds(f, retention, events + [e])
    ensures l.Appended(f.frame(e), e).Bytes(f) == l.Bytes(f) + f.frame(e)
  {
    var next := l.Appended(f.frame(e), e);
    assert next.Logged() == events + [e];
    f.FramesAppend(events, e);
    AppendAssociative(FILE_MAGIC, f.Frames(events), f.frame(e));
    AppendNothing(Image(f, events));
    AppendNothing(Image(f, events + [e]));
  }

  lemma InterruptedSound(f: Format, retention: nat, l: Log, events: seq<Event>, written: seq<byte>)
    requires l.Holds(f, retention, events) && !f.head(written).Next?
    ensures l.Interrupted(written).Sound(f, retention)
    ensures l.Interrupted(written).Bytes(f) == l.Bytes(f) + written
  {
    assert l.Interrupted(written).Logged() == l.Logged();
    AppendNothing(Image(f, events));
    AppendNothing(Image(f, events) + []);
  }

  lemma SyncedHolds(f: Format, retention: nat, l: Log, events: seq<Event>)
    requires l.Holds(f, retention, events)
    ensures l.Synced().Holds(f, retention, events) && l.Unsynced().Holds(f, retention, events)
    ensures l.Synced().Bytes(f) == l.Bytes(f) && l.Unsynced().Bytes(f) == l.Bytes(f)
  {
    assert l.Synced().Logged() == l.Logged() && l.Unsynced().Logged() == l.Logged();
  }

  lemma TruncatedHolds(f: Format, retention: nat, l: Log)
    requires l.Sound(f, retention) && l.started && f.head([]) == Done
    ensures l.Truncated().Holds(f, retention, l.Logged())
    ensures |l.tail| <= |l.Bytes(f)| && l.Truncated().Bytes(f) == l.Bytes(f)[..|l.Bytes(f)| - |l.tail|]
  {
    DropAppend(Image(f, l.Logged()), l.tail);
    assert l.Truncated().Logged() == l.Logged();
    AppendNothing(Image(f, l.Logged()));
  }

  lemma CompactedBytes(f: Format, retention: nat, l: Log)
    ensures l.Compacted(retention).Bytes(f) == Image(f, Last(l.history, retention))
  {
    assert l.Compacted(retention).Logged() == Last(l.history, retention);
    AppendNothing(Image(f, Last(l.history, retention)));
  }

  lemma CompactedHolds(f: Format, retention: nat, l: Log)
    requires l.Sound(f, retention) && retention > 0 && f.head([]) == Done
    ensures l.Compacted(retention).Holds(f, retention, Last(l.history, retention))
  {
    assert l.Compacted(retention).Logged() == Last(l.history, retention);
  }

  /** The newest events are among those the file holds. */
  lemma KeepsNewest(f: Format, retention: nat, l: Log)
    requires l.Sound(f, retention)
    ensures Last(l.Logged(), retention) == Last(l.history, retention)
    ensures f.AllWritable(Last(l.history, retention))
  {
  }

  lemma ServingSound(f: Format, retention: nat, files: Files, fault: Fault)
    requires files.Sound(f, retention) && retention > 0 && f.head([]) == Done && files.log.Holds(f, retention, files.log.Logged())
    ensures Serving(f, retention, files, fault).Sound(f, retention)
    ensures Serving(f, retention, files, fault).log.history == files.log.history
    ensures Serves(retention, files, fault) ==>
              Serving(f, retention, files, fault).log.Holds(f, retention, Last(files.log.history, retention))
  {
    CompactedHolds(f, retention, files.log);
    KeepsNewest(f, retention, files.log);
  }

  lemma PersistedTail(c: Codec, e: Event, fault: Fault)
    requires c.Faithful() && c.Writable(e)
    ensures var p := Persisted(Frame(c, e), fault); p == Frame(c, e) || !c.Layout().head(p).Next?
  {
    if fault.WriteStops? && 0 < fault.written < |Frame(c, e)| {
      HeadOfPartial(c, e, fault.written);
    }
  }

  lemma OtherLogSound(f: Format, retention: nat, files: Files, log: Log)
    requires files.Sound(f, retention) && log.Sound(f, retention)
    ensures files.(log := log).Sound(f, retention)
  {
  }

  lemma SyncSound(f: Format, retention: nat, files: Files, fault: Fault)
    requires files.Sound(f, retention) && retention > 0 && f.head([]) == Done && files.log.Holds(f, retention, files.log.Logged())
    ensures SyncLeaves(f, retention, files, fault).Sound(f, retention)
    ensures SyncLeaves(f, retention, files, fault).log.history == files.log.history
    ensures SyncSucceeds(retention, files, fault) ==>
              SyncLeaves(f, retention, files, fault).log.Holds(f, retention, Last(files.log.history, retention))
  {
    SyncedHolds(f, retention, files.log, files.log.Logged());
    if fault.SyncFails? {
      OtherLogSound(f, retention, files, files.log.Unsynced());
    } else if !fault.WriteStops? && !fault.StopsBeforeSync? {
      OtherLogSound(f, retention, files, files.log.Synced());
      ServingSound(f, retention, files.(log := files.log.Synced()), fault);
    }
  }

  lemma FrameOf(c: Codec, e: Event)
    requires c.Writable(e)
    ensures Frame(c, e) == c.Layout().frame(e)
  {
  }

  lemma AppendSound(c: Codec, retention: nat, files: Files, events: seq<Event>, e: Event, fault: Fault)
    requires c.Faithful() && c.Writable(e) && retention > 0
    requires files.Sound(c.Layout(), retention) && files.log.Holds(c.Layout(), retention, events)
    ensures var later := AppendLeaves(c.Layout(), retention, files, e, fault);
            && later.Sound(c.Layout(), retention)
            && (later.log.history == files.log.history || later.log.history == files.log.history + [e])
            && (AppendSucceeds(retention, files, fault) ==>
                  && later.log.history == files.log.history + [e]
                  && later.log.Holds(c.Layout(), retention, Last(later.log.history, retention)))
  {
    var f := c.Layout();
    PersistedTail(c, e, fault);
    if Persisted(f.frame(e), fault) != f.frame(e) {
      InterruptedSound(f, retention, files.log, events, Persisted(f.frame(e), fault));
    } else {
      AppendedHolds(f, retention, files.log, events, e);
      SyncSound(f, retention, files.(log := files.log.Appended(f.frame(e), e)), fault);
    }
  }

  lemma HeaderOnlyHolds(f: Format, retention: nat)
    requires f.head([]) == Done
    ensures HeaderOnly().Holds(f, retention, [])
  {
  }

  lemma PartOfHeaderSound(f: Format, retention: nat, fault: Fault)
    requires Persisted(FILE_MAGIC, fault) != FILE_MAGIC
    ensures PartOfHeader(Persisted(FILE_MAGIC, fault)).Sound(f, retention)
  {
  }

  lemma CreateWholeSound(f: Format, retention: nat, files: Files, log: Log, fault: Fault)
    requires files.Sound(f, retention) && log.Holds(f, retention, [])
    ensures CreateWhole(files, log, fault).Sound(f, retention) && CreateWhole(files, log, fault).log.history == log.history
    ensures CreateSucceeds(fault) ==> CreateWhole(files, log, fault).log.Holds(f, retention, [])
  {
    SyncedHolds(f, retention, log, []);
  }

  lemma ReplacedSound(f: Format, retention: nat, files: Files, log: Log)
    requires files.Sound(f, retention) && log.Sound(f, retention)
    ensures files.Replaced(log).Sound(f, retention)
  {
  }

  lemma CreateSound(f: Format, retention: nat, files: Files, fault: Fault)
    requires files.Sound(f, retention) && f.head([]) == Done
    ensures CreateLeaves(files, fault).Sound(f, retention) && CreateLeaves(files, fault).log.history == []
    ensures CreateSucceeds(fault) ==> CreateLeaves(files, fault).log.Holds(f, retention, [])
  {
    if Persisted(FILE_MAGIC, fault) != FILE_MAGIC {
      PartOfHeaderSound(f, retention, fault);
      ReplacedSound(f, retention, files, PartOfHeader(Persisted(FILE_MAGIC, fault)));
    } else {
      HeaderOnlyHolds(f, retention);
      CreateWholeSound(f, retention, files, HeaderOnly(), fault);
    }
  }

  /** Removing what reads as interrupted, and syncing that. */
  lemma CutTailSound(f: Format, retention: nat, files: Files, fault: Fault)
    requires files.Sound(f, retention) && retention > 0 && f.head([]) == Done
    requires files.log.started && f.head(files.log.tail) != Done
    ensures var later := RecoverLeaves(f, retention, files, fault);
            && later.Sound(f, retention) && later.log.history == files.log.history
            && (RecoverSucceeds(f, retention, files, fault) ==>
                  later.log.Holds(f, retention, Last(files.log.history, retention)))
  {
    TruncatedHolds(f, retention, files.log);
    SyncSound(f, retention, files.(log := files.log.Truncated()), fault);
  }

  lemma RecoverSound(f: Format, retention: nat, files: Files, fault: Fault)
    requires files.Sound(f, retention) && retention > 0 && f.head([]) == Done && files.log.started
    requires f.head(files.log.tail) == Done ==> files.log.tail == []
    ensures var later := RecoverLeaves(f, retention, files, fault);
            && later.Sound(f, retention) && later.log.history == files.log.history
            && (RecoverSucceeds(f, retention, files, fault) ==>
                  later.log.Holds(f, retention, Last(files.log.history, retention)))
  {
    if f.head(files.log.tail) != Done {
      CutTailSound(f, retention, files, fault);
    } else {
      ServingSound(f, retention, files, fault);
    }
  }

  lemma StartSound(f: Format, retention: nat, files: Files, fault: Fault)
    requires files.Sound(f, retention) && retention > 0 && f.head([]) == Done
    requires f.head(files.log.tail) == Done ==> files.log.tail == []
    ensures StartLeaves(f, retention, files, fault).Sound(f, retention)
    ensures StartLeaves(f, retention, files, fault).log.history == files.log.history
    ensures OpenSucceeds(f, retention, files, fault) ==>
              StartLeaves(f, retention, files, fault).log.Holds(f, retention, Last(files.log.history, retention))
  {
    if files.log.started {
      RecoverSound(f, retention, files, fault);
    } else {
      CreateSound(f, retention, files, fault);
    }
  }

  // ----- Runs without a harmful fault stay calm -----

  /** The operation ends with every write synced and every new or renamed file in a synced directory. */
  predicate Benign(fault: Fault) { fault in {NoFault, TruncateFails, RenameFails} }

  lemma CalmIsSecure(f: Format, retention: nat, files: Files)
    requires files.Sound(f, retention) && files.Calm(f)
    ensures files.Secure(f)
  {
  }

  lemma AppendCalm(c: Codec, retention: nat, files: Files, events: seq<Event>, e: Event, fault: Fault)
    requires files.log.Holds(c.Layout(), retention, events) && files.Calm(c.Layout()) && Benign(fault)
    ensures AppendLeaves(c.Layout(), retention, files, e, fault).Calm(c.Layout())
  {
  }

  lemma CreateCalm(f: Format, files: Files, fault: Fault)
    requires files.Calm(f) && !files.log.started && Benign(fault) && f.head([]) == Done
    ensures CreateLeaves(files, fault).Calm(f)
  {
  }

  lemma ServingCalm(f: Format, retention: nat, files: Files, fault: Fault)
    requires files.Calm(f) && Benign(fault) && f.head([]) == Done
    ensures Serving(f, retention, files, fault).Calm(f)
  {
  }

  lemma RecoverCalm(f: Format, retention: nat, files: Files, fault: Fault)
    requires files.Calm(f) && files.log.started && Benign(fault) && f.head([]) == Done
    ensures RecoverLeaves(f, retention, files, fault).Calm(f)
  {
    ServingCalm(f, retention, files, fault);
    ServingCalm(f, retention, files.(log := files.log.Truncated().Synced()), fault);
  }

  lemma OpenCalm(c: Codec, retention: nat, files: Files, fault: Fault, swept: bool)
    requires files.Sound(c.Layout(), retention) && files.Calm(c.Layout()) && Benign(fault)
    ensures OpenLeaves(c.Layout(), retention, files, fault, swept).Calm(c.Layout())
  {
    if files.log.started {
      RecoverCalm(c.Layout(), retention, files, fault);
    } else {
      CreateCalm(c.Layout(), files, fault);
    }
    assert files.(older := []) == files;
  }

  lemma CalmSurvives(c: Codec, retention: nat, files: Files, loss: Loss)
    requires files.Sound(c.Layout(), retention) && files.Calm(c.Layout()) && Legal(c.Layout(), files, loss)
    ensures After(c.Layout(), files, loss) == files
  {
  }

  /** Compaction settles what came before: an event that a full store acknowledges is in a file that no loss of power undoes. */
  lemma FullStoreSettles(c: Codec, retention: nat, files: Files, events: seq<Event>, e: Event, fault: Fault)
    requires c.Faithful() && c.Writable(e) && retention > 0 && files.Sound(c.Layout(), retention)
    requires files.log.Holds(c.Layout(), retention, events) && |events| == retention && AppendSucceeds(retention, files, fault)
    ensures AppendLeaves(c.Layout(), retention, files, e, fault).Calm(c.Layout())
  {
  }

  // ----- The store -----

  class Store {
    const codec: Codec
    const retention: nat
    /** The bytes of the file. */
    var disk: seq<byte>
    /** What they stand for, and what a loss of power may bring back. */
    var files: Files
    var events: seq<Event>
    var isOpen: bool

    ghost predicate Valid()
      reads this
    {
      && codec.Faithful() && codec.Settles() && retention > 0 && files.Sound(codec.Layout(), retention) && Written()
      && (isOpen ==> files.log.Holds(codec.Layout(), retention, events) && |events| <= retention)
    }

    predicate Written()
      reads this`disk, this`files
    {
      disk == files.log.Bytes(codec.Layout())
    }

    /** A directory with no event file yet. */
    constructor (codec: Codec, retention: nat)
      requires codec.Faithful() && codec.Settles() && 0 < retention
      ensures Valid() && !isOpen && files == Files(Log([], false, 0, [], 0, Nothing, 0), [])
      ensures this.codec == codec && this.retention == retention
    {
      this.codec, this.retention := codec, retention;
      disk, files, events, isOpen := [], Files(Log([], false, 0, [], 0, Nothing, 0), []), [], false;
    }

    /** The list in memory and the file, while the store is open. */
    ghost predicate Faithful()
      reads this
    {
      events == Last(files.log.history, retention) && LoadFile(codec.Layout(), disk) == Loaded(events, None)
    }

    /**
     * While the store is open, memory holds exactly the newest `retention` events
     * of the durable history, and the file reads back as exactly that list.
     */
    lemma OpenMeans()
      requires Valid() && isOpen
      ensures Faithful()
    {
      FormatIsLawful(codec);
      ImageThenTail(codec.Layout(), events, []);
      AppendNothing(Image(codec.Layout(), events));
      KeepsNewest(codec.Layout(), retention, files.log);
    }

    /** The loop of replace: the bytes of a file that holds `events`. */
    method Encode() returns (image: seq<byte>)
      requires codec.Layout().AllWritable(events)
      ensures image == Image(codec.Layout(), events)
    {
      image := FILE_MAGIC;
      for i := 0 to |events|
        invariant image == Image(codec.Layout(), events[..i])
      {
        assert codec.Layout().writable(events[i]);
        var frame := Frame(codec, events[i]);
        ImageAppend(codec.Layout(), events[..i], events[i]);
        assert events[..i + 1] == events[..i] + [events[i]];
        image := image + frame;
      }
      assert events[..|events|] == events;
    }

    /** Compaction: a new file, written and synced aside, takes the place of the old one. */
    method Replace(fault: Fault) returns (ok: bool)
      requires Written() && events == Last(files.log.history, retention) && codec.Layout().AllWritable(events)
      modifies this`files, this`disk
      ensures Written() && files == Compaction(codec.Layout(), retention, old(files), fault)
      ensures ok <==> !fault.RenameFails? && !fault.DirectoryFails?
    {
      var image := Encode();
      if fault.RenameFails? {
        return false;
      }
      CompactedBytes(codec.Layout(), retention, files.log);
      disk, files := image, files.Replaced(files.log.Compacted(retention));
      if fault.DirectoryFails? {
        return false;
      }
      files := files.(older := []);
      ok := true;
    }

    /** Serves what the file holds, compacting it first when it holds too many. */
    method Serve(fault: Fault) returns (ok: bool)
      requires Valid() && !isOpen && files.log.Holds(codec.Layout(), retention, events)
      modifies this`files, this`events, this`disk
      ensures Written() && files == Serving(codec.Layout(), retention, old(files), fault) && ok == Serves(retention, old(files), fault)
      ensures events == Last(old(files).log.history, retention)
    {
      ok := true;
      KeepsNewest(codec.Layout(), retention, files.log);
      if |events| > retention {
        events := events[|events| - retention..];
        ok := Replace(fault);
      }
    }

    /**
     * A success has the event at the end of the history. A failure leaves the store
     * closed. Either way the files are exactly what the fault leaves.
     */
    method Append(event: Event, fault: Fault) returns (answer: Answer)
      requires Valid()
      modifies this
      ensures Valid()
      ensures answer == Refused <==> !Acceptable(codec, event)
      ensures answer == Closed <==> Acceptable(codec, event) && !old(isOpen)
      ensures answer in {Refused, Closed} ==> files == old(files) && disk == old(disk) && events == old(events) && isOpen == old(isOpen)
      ensures answer in {Recorded, Failed} ==>
                && files == AppendLeaves(codec.Layout(), retention, old(files), codec.normalize(event).value, fault)
                && isOpen == (answer == Recorded) && (answer == Recorded <==> AppendSucceeds(retention, old(files), fault))
      ensures answer == Recorded ==> files.log.history == old(files).log.history + [codec.normalize(event).value]
      ensures answer == Failed ==>
                || files.log.history == old(files).log.history
                || files.log.history == old(files).log.history + [codec.normalize(event).value]
    {
      var normalized := codec.normalize(event);
      if normalized.None? || !codec.Fits(normalized.value) {
        return Refused;
      }
      if !isOpen {
        return Closed;
      }
      answer := AppendWritable(normalized.value, fault);
    }

    /** The write, the sync and the compaction of an accepted event. */
    method AppendWritable(e: Event, fault: Fault) returns (answer: Answer)
      requires Valid() && isOpen && codec.Writable(e)
      modifies this
      ensures Valid() && answer in {Recorded, Failed} && isOpen == (answer == Recorded)
      ensures files == AppendLeaves(codec.Layout(), retention, old(files), e, fault)
      ensures answer == Recorded <==> AppendSucceeds(retention, old(files), fault)
      ensures answer == Recorded ==> files.log.history == old(files).log.history + [e]
      ensures files.log.history == old(files).log.history || files.log.history == old(files).log.history + [e]
    {
      AppendSound(codec, retention, files, events, e, fault);
      FrameOf(codec, e);
      isOpen := WriteFrame(e, Frame(codec, e), fault);
      answer := if isOpen then Recorded else Failed;
    }

    method WriteFrame(e: Event, frame: seq<byte>, fault: Fault) returns (ok: bool)
      requires Valid() && isOpen && codec.Writable(e) && frame == Frame(codec, e) == codec.Layout().frame(e)
      modifies this
      ensures Written() && files == AppendLeaves(codec.Layout(), retention, old(files), e, fault)
      ensures ok == AppendSucceeds(retention, old(files), fault)
      ensures ok ==> events == Last(old(files).log.history + [e], retention)
    {
      var written := Persisted(frame, fault);
      if written != frame {
        WritePart(e, fault, written);
        return false;
      }
      WriteWhole(e, frame);
      ok := SyncAndServe(fault);
    }

    /** A write that stops early: the store closes. */
    method WritePart(e: Event, fault: Fault, written: seq<byte>)
      requires Valid() && isOpen && codec.Writable(e)
      requires written == Persisted(Frame(codec, e), fault) && written != Frame(codec, e)
      modifies this`files, this`disk, this`isOpen
      ensures Valid() && !isOpen && files == old(files).(log := old(files).log.Interrupted(written))
    {
      PersistedTail(codec, e, fault);
      InterruptedSound(codec.Layout(), retention, files.log, events, written);
      disk, files, isOpen := disk + written, files.(log := files.log.Interrupted(written)), false;
    }

    /** A write that goes through; whether the store serves it is not decided yet. */
    method WriteWhole(e: Event, frame: seq<byte>)
      requires Valid() && isOpen && codec.Writable(e) && frame == Frame(codec, e)
      modifies this`files, this`disk, this`isOpen, this`events
      ensures Valid() && !isOpen && files == old(files).(log := old(files).log.Appended(frame, e))
      ensures events == old(events) + [e] && files.log.Holds(codec.Layout(), retention, events)
    {
      AppendedHolds(codec.Layout(), retention, files.log, events, e);
      disk, files, isOpen := disk + frame, files.(log := files.log.Appended(frame, e)), false;
      events := events + [e];
    }

    /** Syncs what was written and serves what the file holds. */
    method SyncAndServe(fault: Fault) returns (ok: bool)
      requires Valid() && !isOpen && files.log.Holds(codec.Layout(), retention, events)
      modifies this`files, this`events, this`disk
      ensures Written() && files == SyncLeaves(codec.Layout(), retention, old(files), fault) && ok == SyncSucceeds(retention, old(files), fault)
      ensures ok ==> events == Last(old(files).log.history, retention)
    {
      SyncedHolds(codec.Layout(), retention, files.log, events);
      if fault.WriteStops? || fault.StopsBeforeSync? {
        return false;
      }
      if fault.SyncFails? {
        files := files.(log := files.log.Unsynced());
        return false;
      }
      files := files.(log := files.log.Synced());
      ok := Serve(fault);
    }

    /** A start. Without a fault it succeeds exactly on a file that opens. */
    method Open(fault: Fault, swept: bool) returns (ok: bool)
      requires Valid() && !isOpen
      modifies this
      ensures Valid() && files == OpenLeaves(codec.Layout(), retention, old(files), fault, swept)
      ensures isOpen == ok && (ok <==> OpenSucceeds(codec.Layout(), retention, old(files), fault))
      ensures files.log.history == old(files).log.history
    {
      Sweep(swept);
      ok := Start(fault);
    }

    method Sweep(swept: bool)
      requires Valid()
      modifies this`files
      ensures Valid() && files == if swept then old(files).(older := []) else old(files)
    {
      if swept {
        files := files.(older := []);
      }
    }

    method Start(fault: Fault) returns (ok: bool)
      requires Valid() && !isOpen
      modifies this`files, this`events, this`isOpen, this`disk
      ensures Valid() && files == StartLeaves(codec.Layout(), retention, old(files), fault)
      ensures isOpen == ok && ok == OpenSucceeds(codec.Layout(), retention, old(files), fault)
      ensures files.log.history == old(files).log.history
    {
      StartSound(codec.Layout(), retention, files, fault);
      ok := ReadFile(fault);
      isOpen := ok;
    }

    method ReadFile(fault: Fault) returns (ok: bool)
      requires Valid() && !isOpen
      modifies this`files, this`events, this`disk
      ensures Written() && files == StartLeaves(codec.Layout(), retention, old(files), fault)
      ensures ok == OpenSucceeds(codec.Layout(), retention, old(files), fault)
      ensures ok ==> events == Last(old(files).log.history, retention)
    {
      var loaded := LoadFrames(codec, disk);
      LoadMeans(codec, retention, files.log);
      if loaded.Corrupt? {
        return false;
      }
      if disk == [] {
        ok := Create(fault);
      } else {
        ok := Recover(loaded, fault);
      }
    }

    /** Writing and syncing the header of a file that does not exist yet, and its directory. */
    method Create(fault: Fault) returns (ok: bool)
      modifies this`files, this`events, this`disk
      ensures Written() && files == CreateLeaves(old(files), fault) && ok == CreateSucceeds(fault) && events == []
    {
      events := [];
      var written := Persisted(FILE_MAGIC, fault);
      disk := written;
      if written != FILE_MAGIC {
        files := files.Replaced(PartOfHeader(written));
        return false;
      }
      files := files.Replaced(HeaderOnly());
      AppendNothing(FILE_MAGIC);
      if fault.WriteStops? || fault.StopsBeforeSync? {
        return false;
      }
      if fault.SyncFails? {
        files := files.(log := files.log.Unsynced());
        return false;
      }
      files := files.(log := files.log.Synced());
      if fault.DirectoryFails? {
        return false;
      }
      files := files.(older := []);
      ok := true;
    }

    /** Removing an interrupted final event from a file that was read. */
    method Recover(loaded: Load, fault: Fault) returns (ok: bool)
      requires Valid() && !isOpen && files.log.started && !codec.Layout().head(files.log.tail).Broken?
      requires loaded == Loaded(files.log.Logged(), CutOf(codec, files.log))
      modifies this`files, this`events, this`disk
      ensures Written() && files == RecoverLeaves(codec.Layout(), retention, old(files), fault)
      ensures ok == RecoverSucceeds(codec.Layout(), retention, old(files), fault)
      ensures ok ==> events == Last(old(files).log.history, retention)
    {
      events := loaded.events;
      if loaded.cut.None? {
        ok := Serve(fault);
        return;
      }
      if fault.TruncateFails? {
        return false;
      }
      TruncatedHolds(codec.Layout(), retention, files.log);
      disk, files := disk[..loaded.cut.value], files.(log := files.log.Truncated());
      ok := SyncAndServe(fault);
    }

    /** The process ends; the files stay as they are. */
    method Crash()
      requires Valid()
      modifies this`isOpen, this`events
      ensures Valid() && !isOpen
    {
      isOpen, events := false, [];
    }

    /** The power goes, and comes back. A loss that cannot happen takes nothing. */
    method PowerLoss(loss: Loss) returns (harm: bool)
      requires Valid()
      modifies this
      ensures Valid() && !isOpen
      ensures Legal(codec.Layout(), old(files), loss) ==>
                && files == After(codec.Layout(), old(files), loss)
                && harm == !Unharmed(codec.Layout(), old(files), files)
      ensures !harm ==> files.log.history == old(files).log.history
      ensures old(files).Secure(codec.Layout()) ==> !harm
      ensures old(files).Calm(codec.Layout()) ==> files == old(files)
    {
      var f := codec.Layout();
      harm, isOpen, events := false, false, [];
      if Legal(f, files, loss) {
        AfterSound(f, retention, files, loss);
        if files.Secure(f) {
          SecureSurvives(codec, retention, files, loss);
        }
        var later := After(f, files, loss);
        if files.Calm(f) {
          CalmSurvives(codec, retention, files, loss);
        }
        harm, files := !Unharmed(f, files, later), later;
        disk := later.log.Bytes(f);
      }
    }
  }

  // ----- Runs -----

  /**
   * `lived` says whether the caller lived to see the answer, `swept` whether the start
   * found leftovers of a compaction.
   */
  datatype Operation =
    | AppendEvent(event: Event, fault: Fault, lived: bool)
    | Reopen(fault: Fault, swept: bool)
    | Stop
    | PowerLost(loss: Loss)

  /** The operation may leave something that is not durable. */
  predicate Unsettles(operation: Operation) {
    match operation
    case AppendEvent(_, fault, _) => !Benign(fault)
    case Reopen(fault, _) => !Benign(fault)
    case _ => false
  }

  /** One operation, the events it acknowledged, and whether it was a loss of power that did harm or could have. */
  method Step(s: Store, operation: Operation, ghost before: seq<Event>) returns (heard: seq<Event>, harm: bool, risk: bool)
    requires s.Valid() && Subsequence(before, s.files.log.history)
    modifies s
    ensures s.Valid() && (harm ==> risk)
    ensures !harm ==> Subsequence(before + heard, s.files.log.history)
    ensures old(s.files).Calm(s.codec.Layout()) ==> !risk && (!Unsettles(operation) ==> s.files.Calm(s.codec.Layout()))
  {
    heard, harm, risk := [], false, false;
    AppendNothing(before);
    match operation {
      case AppendEvent(event, fault, lived) => heard := AppendHeard(s, event, fault, lived, before);
      case Reopen(fault, swept) =>
        if !s.isOpen {
          if s.files.Calm(s.codec.Layout()) && Benign(fault) {
            OpenCalm(s.codec, s.retention, s.files, fault, swept);
          }
          var _ := s.Open(fault, swept);
        }
      case Stop =>
        s.Crash();
      case PowerLost(loss) =>
        risk := !s.files.Secure(s.codec.Layout());
        if s.files.Calm(s.codec.Layout()) {
          CalmIsSecure(s.codec.Layout(), s.retention, s.files);
        }
        harm := s.PowerLoss(loss);
    }
  }

  method AppendHeard(s: Store, event: Event, fault: Fault, lived: bool, ghost before: seq<Event>) returns (heard: seq<Event>)
    requires s.Valid() && Subsequence(before, s.files.log.history)
    modifies s
    ensures s.Valid() && Subsequence(before + heard, s.files.log.history)
    ensures old(s.files).Calm(s.codec.Layout()) && Benign(fault) ==> s.files.Calm(s.codec.Layout())
  {
    heard := [];
    AppendNothing(before);
    if s.isOpen && s.files.Calm(s.codec.Layout()) && Benign(fault) && Acceptable(s.codec, event) {
      AppendCalm(s.codec, s.retention, s.files, s.events, s.codec.normalize(event).value, fault);
    }
    var answer := s.Append(event, fault);
    if answer in {Recorded, Failed} {
      Longer(before, old(s.files).log.history, s.codec.normalize(event).value);
    }
    if answer == Recorded && lived {
      heard := [s.codec.normalize(event).value];
    }
  }

  /**
   * Any run of appends, faults, crashes, losses of power and reopens. The events
   * acknowledged since a loss of power last did harm are in the durable history, in
   * order. None does harm but one that strikes a store that is not secure, and without
   * an unsynced write, creation or rename the store is secure throughout.
   */
  method Run(s: Store, operations: seq<Operation>)
    returns (acknowledged: seq<Event>, since: seq<Event>, harmed: bool, exposed: bool)
    requires s.Valid() && s.files.Calm(s.codec.Layout()) && s.files.log.history == []
    modifies s
    ensures s.Valid() && Subsequence(since, s.files.log.history) && (!harmed ==> since == acknowledged)
    ensures harmed ==> exposed
    ensures (forall i | 0 <= i < |operations| :: !Unsettles(operations[i])) ==> !exposed
    ensures s.isOpen ==> s.Faithful()
  {
    acknowledged, since, harmed, exposed := [], [], false, false;
    for i := 0 to |operations|
      invariant s.Valid() && Subsequence(since, s.files.log.history)
      invariant (!harmed ==> since == acknowledged) && (harmed ==> exposed)
      invariant (forall j | 0 <= j < i :: !Unsettles(operations[j])) ==> s.files.Calm(s.codec.Layout()) && !exposed
    {
      var heard, harm, risk := Step(s, operations[i], since);
      acknowledged := acknowledged + heard;
      since, harmed, exposed := if harm then [] else since + heard, harmed || harm, exposed || risk;
    }
    if s.isOpen {
      s.OpenMeans();
    }
  }

  // ----- Two ways to lose an acknowledged event -----

  function NoFile(): Log { Log([], false, 0, [], 0, Nothing, 0) }

  /** A file of these events, all durable. */
  function Durable(events: seq<Event>): Log { Log(events, true, |events|, [], |events| + 1, Nothing, 0) }

  lemma CreationUnsynced(f: Format, retention: nat)
    requires f.head([]) == Done
    ensures OpenLeaves(f, retention, Files(NoFile(), []), DirectoryFails, false) == Files(Durable([]), [NoFile()])
    ensures OpenLeaves(f, retention, Files(NoFile(), []), NoFault, false) == Files(Durable([]), [])
    ensures OpenSucceeds(f, retention, Files(NoFile(), []), NoFault)
    ensures !OpenSucceeds(f, retention, Files(NoFile(), []), DirectoryFails)
  {
  }

  /** A start that finds a whole file writes nothing, and syncs nothing. */
  lemma FoundAsItIs(f: Format, retention: nat, files: Files)
    requires f.head([]) == Done && files.log.started && files.log.tail == [] && files.log.kept <= retention
    ensures OpenLeaves(f, retention, files, NoFault, false) == files && OpenSucceeds(f, retention, files, NoFault)
  {
  }

  lemma FirstAppend(f: Format, retention: nat, older: seq<Log>, e: Event)
    requires retention > 0
    ensures AppendLeaves(f, retention, Files(Durable([]), older), e, NoFault) == Files(Durable([e]), older)
    ensures AppendSucceeds(retention, Files(Durable([]), older), NoFault)
  {
  }

  /**
   * A new store whose directory is not synced when its file is created. The next start
   * finds the file, and does not make up for that.
   */
  method DirectoryMissed(codec: Codec, retention: nat) returns (s: Store)
    requires codec.Faithful() && codec.Settles() && retention > 0
    ensures s.Valid() && s.isOpen && s.codec == codec && s.retention == retention && fresh(s)
    ensures s.files == Files(Durable([]), [NoFile()])
  {
    s := new Store(codec, retention);
    CreationUnsynced(codec.Layout(), retention);
    var first := s.Open(DirectoryFails, false);
    FoundAsItIs(codec.Layout(), retention, s.files);
    var second := s.Open(NoFault, false);
  }

  lemma CreationUndone(f: Format, log: Log)
    ensures Legal(f, Files(log, [NoFile()]), Loss(Some(0), None))
    ensures After(f, Files(log, [NoFile()]), Loss(Some(0), None)) == Files(NoFile(), []) && NoFile().Bytes(f) == []
  {
  }

  /** So a loss of power can take the file, with the event that was acknowledged. */
  method CreationLost(codec: Codec, retention: nat, a: Event) returns (answer: Answer, s: Store)
    requires codec.Faithful() && codec.Settles() && retention > 0 && Acceptable(codec, a)
    ensures answer == Recorded && s.Valid() && s.files == Files(NoFile(), []) && s.disk == []
  {
    s := DirectoryMissed(codec, retention);
    FirstAppend(codec.Layout(), retention, [NoFile()], codec.normalize(a).value);
    answer := s.Append(a, NoFault);
    CreationUndone(codec.Layout(), s.files.log);
    var _ := s.PowerLoss(Loss(Some(0), None));
  }

  /** Two events, the sync of the first failed, that of the second did not. */
  function FirstInDoubt(a: Event, b: Event): Log { Log([a, b], true, 2, [], 1, Spoiled, 0) }

  /** One event, whose sync failed. */
  function AloneInDoubt(a: Event): Log { Log([a], true, 1, [], 1, Spoiled, 0) }

  lemma SyncFailsFirst(f: Format, retention: nat, a: Event)
    requires retention > 1
    ensures AppendLeaves(f, retention, Files(Durable([]), []), a, SyncFails) == Files(AloneInDoubt(a), [])
    ensures !AppendSucceeds(retention, Files(Durable([]), []), SyncFails)
  {
  }

  lemma SyncNeverComes(f: Format, retention: nat, a: Event, b: Event)
    requires retention > 1 && f.head([]) == Done
    ensures var one := Files(AloneInDoubt(a), []);
            && OpenLeaves(f, retention, one, NoFault, false) == one && OpenSucceeds(f, retention, one, NoFault)
            && AppendLeaves(f, retention, one, b, NoFault) == Files(FirstInDoubt(a, b), []) && AppendSucceeds(retention, one, NoFault)
  {
    FoundAsItIs(f, retention, Files(AloneInDoubt(a), []));
  }

  lemma DoubtIsFatal(c: Codec, retention: nat, a: Event, b: Event)
    requires c.Faithful() && FirstInDoubt(a, b).Sound(c.Layout(), retention)
    ensures var loss := Loss(None, Some((1, Hole(c.Layout(), FirstInDoubt(a, b)))));
            && Legal(c.Layout(), Files(FirstInDoubt(a, b), []), loss)
            && !After(c.Layout(), Files(FirstInDoubt(a, b), []), loss).log.Openable(c.Layout())
            && After(c.Layout(), Files(FirstInDoubt(a, b), []), loss).log.history == []
  {
    FrameLost(c, retention, FirstInDoubt(a, b));
  }

  /** A new store whose first append fails in its sync. */
  method FirstSyncFails(codec: Codec, retention: nat, a: Event) returns (s: Store)
    requires codec.Faithful() && codec.Settles() && retention > 1 && Acceptable(codec, a)
    ensures s.Valid() && !s.isOpen && s.codec == codec && s.retention == retention && fresh(s)
    ensures s.files == Files(AloneInDoubt(codec.normalize(a).value), [])
  {
    s := new Store(codec, retention);
    CreationUnsynced(codec.Layout(), retention);
    var first := s.Open(NoFault, false);
    SyncFailsFirst(codec.Layout(), retention, codec.normalize(a).value);
    var failed := s.Append(a, SyncFails);
  }

  /** The next start reads the event back, and the store goes on after it. */
  method GoesOn(s: Store, x: Event, b: Event) returns (answer: Answer)
    requires s.Valid() && !s.isOpen && s.retention > 1 && s.files == Files(AloneInDoubt(x), []) && Acceptable(s.codec, b)
    modifies s
    ensures s.Valid() && answer == Recorded && s.files == Files(FirstInDoubt(x, s.codec.normalize(b).value), [])
  {
    SyncNeverComes(s.codec.Layout(), s.retention, x, s.codec.normalize(b).value);
    var second := s.Open(NoFault, false);
    answer := s.Append(b, NoFault);
  }

  /**
   * When the first frame turns out not to have arrived, what was acknowledged after it
   * cannot be read, and the file does not open any more.
   */
  method UnsyncedFrameLost(codec: Codec, retention: nat, a: Event, b: Event) returns (answer: Answer, opens: bool, s: Store)
    requires codec.Faithful() && codec.Settles() && retention > 1 && Acceptable(codec, a) && Acceptable(codec, b)
    ensures answer == Recorded && s.Valid() && s.files.log.history == [] && !opens
  {
    s := FirstSyncFails(codec, retention, a);
    answer := GoesOn(s, codec.normalize(a).value, b);
    DoubtIsFatal(codec, retention, codec.normalize(a).value, codec.normalize(b).value);
    var _ := s.PowerLoss(Loss(None, Some((1, Hole(codec.Layout(), s.files.log)))));
    opens := s.Open(NoFault, false);
  }

  lemma Longer(a: seq<Event>, b: seq<Event>, e: Event)
    requires Subsequence(a, b)
    ensures Subsequence(a, b + [e]) && Subsequence(a + [e], b + [e])
  {
    assert (b + [e])[..|b|] == b;
    assert (a + [e])[..|a|] == a;
  }

  /** encodeFrame accepts the normalized event. */
  predicate Acceptable(codec: Codec, event: Event) {
    codec.normalize(event).Some? && codec.Fits(codec.normalize(event).value)
  }

  lemma ImageAppend(f: Format, s: seq<Event>, e: Event)
    ensures Image(f, s + [e]) == Image(f, s) + f.frame(e)
  {
    f.FramesAppend(s, e);
    AppendAssociative(FILE_MAGIC, f.Frames(s), f.frame(e));
  }

  /** Where a file that was written here reads as interrupted. */
  function CutOf(c: Codec, l: Log): Option<nat> {
    if l.tail == [] then None else Some(|Image(c.Layout(), l.Logged())|)
  }

  /** What a start reads: nothing it can use, or exactly the events the file holds. */
  lemma LoadMeans(c: Codec, retention: nat, l: Log)
    requires c.Faithful() && l.Sound(c.Layout(), retention)
    ensures LoadFile(c.Layout(), l.Bytes(c.Layout())).Corrupt? <==> !l.Openable(c.Layout())
    ensures l.Bytes(c.Layout()) == [] <==> !l.started && l.tail == []
    ensures l.started && l.Openable(c.Layout()) ==>
              LoadFile(c.Layout(), l.Bytes(c.Layout())) == Loaded(l.Logged(), CutOf(c, l))
  {
    FormatIsLawful(c);
    if l.started {
      TailReads(c.Layout(), l.Logged(), l.tail);
    } else if |l.tail| >= |FILE_MAGIC| {
      assert l.tail[..|FILE_MAGIC|] != FILE_MAGIC;
    }
  }
}
