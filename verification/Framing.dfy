/**
 * Append-only logs of frames, for any way of spelling a frame.
 *
 * The event log only relies on the few laws of `Format`; recovery after a cut is
 * proved here from those laws and used for the concrete format in EventFormat.
 */
module Framing {
  import opened Basics

  type byte = b: int | 0 <= b < 256

  /** One operational event; a timestamp is its instant and how its zone is spelled. */
  datatype Event = Event(
    time: int, zone: string, operation: string, outcome: string, latency: int, errorCode: string, agent: string,
    binding: string, containerKey: string, policy: string, newPolicy: string, operator: string,
    fingerprint: string, mount: string, verb: string)

  /** What the next bytes of a file hold. */
  datatype Head = Done | CrashTail | Broken | Next(event: Event, size: nat)

  /** Events read from a file, and where a crash tail starts if there is one. */
  datatype Load = Loaded(events: seq<Event>, cut: Option<nat>) | Corrupt(at: nat)

  datatype Format = Format(head: seq<byte> -> Head, frame: Event -> seq<byte>, writable: Event -> bool) {

    /** A frame is read from its own bytes alone. */
    ghost predicate Local() {
      && head([]) == Done
      && (forall rest, k {:trigger head(rest[..k])} ::
            head(rest).Next? && 0 < head(rest).size <= k <= |rest| ==> head(rest[..k]) == head(rest))
    }

    /** A writable event is read back from its frame, and a cut frame is a crash tail. */
    ghost predicate Lawful() {
      && Local()
      && (forall e, next {:trigger head(frame(e) + next)} :: writable(e) ==> |frame(e)| > 0 && head(frame(e) + next) == Next(e, |frame(e)|))
      && (forall e, k {:trigger head(frame(e)[..k])} :: writable(e) && 0 < k < |frame(e)| ==> head(frame(e)[..k]) == CrashTail)
    }

    ghost predicate AllWritable(s: seq<Event>) { forall i | 0 <= i < |s| :: writable(s[i]) }

    function Frames(s: seq<Event>): seq<byte> {
      if s == [] then [] else frame(s[0]) + Frames(s[1..])
    }

    /** Reading the frames in `rest`, which starts at `offset` in the file. */
    ghost function Parse(rest: seq<byte>, offset: nat): Load
      decreases |rest|
    {
      match head(rest)
      case Done => Loaded([], None)
      case CrashTail => Loaded([], Some(offset))
      case Broken => Corrupt(offset)
      case Next(event, size) =>
        if 0 < size <= |rest| then Prepend([event], Parse(rest[size..], offset + size)) else Corrupt(offset)
    }

    /** How many whole frames fit in the first `k` bytes of the frames of `s`. */
    ghost function Whole(s: seq<Event>, k: nat): nat {
      if s == [] || k < |frame(s[0])| then 0 else 1 + Whole(s[1..], k - |frame(s[0])|)
    }

    /** `Whole` is the longest prefix of whole frames: its frames fit, and one more would not. */
    lemma {:induction false} WholeIsLongest(s: seq<Event>, k: nat)
      ensures var j := Whole(s, k);
              && j <= |s| && |Frames(s[..j])| <= k && (j < |s| ==> k < |Frames(s[..j + 1])|)
    {
      var j := Whole(s, k);
      if s == [] {
      } else if k < |frame(s[0])| {
        assert s[..0] == [];
        FramesFirst(s, 1);
      } else {
        WholeIsLongest(s[1..], k - |frame(s[0])|);
        FramesFirst(s, j);
        if j < |s| {
          FramesFirst(s, j + 1);
        }
      }
    }

    lemma FramesFirst(s: seq<Event>, j: nat)
      requires 0 < j <= |s|
      ensures Frames(s[..j]) == frame(s[0]) + Frames(s[1..][..j - 1])
    {
      TakeFirst(s, j);
    }

    lemma {:induction false} FramesSplit(s: seq<Event>, j: nat)
      requires j <= |s|
      ensures Frames(s) == Frames(s[..j]) + Frames(s[j..])
    {
      if j == 0 {
        assert s[..0] == [] && s[0..] == s;
      } else {
        FramesSplit(s[1..], j - 1);
        FramesFirst(s, j);
        assert s[1..][j - 1..] == s[j..];
      }
    }

    lemma FramesAppend(s: seq<Event>, e: Event)
      ensures Frames(s + [e]) == Frames(s) + frame(e)
    {
      FramesSplit(s + [e], |s|);
      assert (s + [e])[..|s|] == s && (s + [e])[|s|..] == [e];
      assert Frames([e]) == frame(e) + Frames([e][1..]);
    }

    /** Reading one intact frame and then what follows it. */
    lemma ParseFrame(e: Event, next: seq<byte>, offset: nat)
      requires Lawful() && writable(e)
      ensures |frame(e)| > 0
      ensures Parse(frame(e) + next, offset) == Prepend([e], Parse(next, offset + |frame(e)|))
    {
      var rest := frame(e) + next;
      assert head(rest) == Next(e, |frame(e)|);
      DropAppend(frame(e), next);
    }

    /** Reading the first `k` bytes of the frames of `s` gives its whole frames and where they end. */
    ghost predicate ReadsCut(s: seq<Event>, k: nat, offset: nat)
      requires k <= |Frames(s)|
    {
      var j := Whole(s, k);
      && j <= |s| && |Frames(s[..j])| <= k
      && Parse(Frames(s)[..k], offset) == Loaded(s[..j], CutAt(offset + |Frames(s[..j])|, offset + k))
    }

    /** Reading any cut of a run of frames gives the whole frames and where they end. */
    lemma {:induction false} ParseCut(s: seq<Event>, k: nat, offset: nat)
      requires Lawful() && AllWritable(s) && k <= |Frames(s)|
      ensures ReadsCut(s, k, offset)
      decreases s, 1
    {
      if s == [] {
      } else if k < |frame(s[0])| {
        TakeAppend(frame(s[0]), Frames(s[1..]), k);
        ParsePartial(s[0], k, offset);
        assert s[..0] == [];
      } else {
        ParseCutAfterFrame(s, k, offset);
      }
    }

    lemma ParsePartial(e: Event, k: nat, offset: nat)
      requires Lawful() && writable(e) && k < |frame(e)|
      ensures Parse(frame(e)[..k], offset) == Loaded([], CutAt(offset, offset + k))
    {
      if k == 0 {
        assert frame(e)[..k] == [];
      }
    }

    lemma {:induction false} ParseCutAfterFrame(s: seq<Event>, k: nat, offset: nat)
      requires Lawful() && AllWritable(s) && s != [] && |frame(s[0])| <= k <= |Frames(s)|
      ensures ReadsCut(s, k, offset)
      decreases s, 0
    {
      var n := k - |frame(s[0])|;
      ParseCut(s[1..], n, offset + |frame(s[0])|);
      ParseFrame(s[0], Frames(s[1..])[..n], offset);
      AddFrame(s, k, offset);
    }

    /** Putting a frame before a cut that reads well. */
    lemma AddFrame(s: seq<Event>, k: nat, offset: nat)
      requires s != [] && |frame(s[0])| <= k <= |Frames(s)|
      requires ReadsCut(s[1..], k - |frame(s[0])|, offset + |frame(s[0])|)
      requires var cut := Frames(s[1..])[..k - |frame(s[0])|];
               Parse(frame(s[0]) + cut, offset) == Prepend([s[0]], Parse(cut, offset + |frame(s[0])|))
      ensures ReadsCut(s, k, offset)
    {
      var j := Whole(s, k);
      TakeAppend(frame(s[0]), Frames(s[1..]), k);
      FramesFirst(s, j);
      TakeFirst(s, j);
    }

    /** Intact frames read back as themselves. */
    lemma {:induction false} ParseAll(s: seq<Event>, tail: seq<byte>, offset: nat)
      requires Lawful() && AllWritable(s) && head(tail) in {Done, CrashTail}
      ensures Parse(Frames(s) + tail, offset)
              == Loaded(s, if head(tail).Done? then None else Some(offset + |Frames(s)|))
    {
      if s == [] {
        assert Frames(s) + tail == tail;
      } else {
        AppendAssociative(frame(s[0]), Frames(s[1..]), tail);
        ParseFrame(s[0], Frames(s[1..]) + tail, offset);
        ParseAll(s[1..], tail, offset + |frame(s[0])|);
        assert [s[0]] + s[1..] == s;
      }
    }

    lemma {:induction false} ParseBroken(s: seq<Event>, tail: seq<byte>, offset: nat)
      requires Lawful() && AllWritable(s) && head(tail) == Broken
      ensures Parse(Frames(s) + tail, offset) == Corrupt(offset + |Frames(s)|)
    {
      if s == [] {
        assert Frames(s) + tail == tail;
      } else {
        AppendAssociative(frame(s[0]), Frames(s[1..]), tail);
        ParseFrame(s[0], Frames(s[1..]) + tail, offset);
        ParseBroken(s[1..], tail, offset + |frame(s[0])|);
      }
    }

    /** Every byte string: a tail that recovery cuts is gone after one truncation. */
    lemma {:induction false} TruncationSettles(rest: seq<byte>, offset: nat)
      requires Local() && Parse(rest, offset).Loaded? && Parse(rest, offset).cut.Some?
      ensures var r := Parse(rest, offset);
              && offset <= r.cut.value <= offset + |rest|
              && Parse(rest[..r.cut.value - offset], offset) == Loaded(r.events, None)
      decreases |rest|
    {
      match head(rest)
      case CrashTail =>
        assert rest[..0] == [];
      case Next(event, size) =>
        var at := offset + size;
        TruncationSettles(rest[size..], at);
        var n := Parse(rest[size..], at).cut.value - offset;
        assert head(rest[..n]) == head(rest);
        TakeDrop(rest, size, n);
    }
  }

  function Prepend(events: seq<Event>, rest: Load): Load {
    if rest.Loaded? then Loaded(events + rest.events, rest.cut) else rest
  }

  lemma PrependTwice(a: seq<Event>, b: seq<Event>, rest: Load)
    ensures Prepend(a, Prepend(b, rest)) == Prepend(a + b, rest)
  {
    if rest.Loaded? {
      assert a + (b + rest.events) == a + b + rest.events;
    }
  }

  /** Where recovery cuts a file whose whole frames end at `end`, out of `size` bytes. */
  function CutAt(end: nat, size: nat): Option<nat> { if end == size then None else Some(end) }
}
