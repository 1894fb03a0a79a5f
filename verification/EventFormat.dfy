/**
 * The byte format of the operational event log (internal/events/format.go).
 *
 * A file is a magic header followed by frames: a big-endian length, a CRC-32C
 * (section 12.1 of RFC 3720) and that many bytes of JSON. The JSON codec and the
 * checksum are parameters; nothing below depends on which ones they are.
 */
module EventFormat {
  import opened Basics
  import opened Framing

  const FILE_MAGIC: seq<byte> := [87, 89, 82, 69, 86, 84, 48, 50]  // "WYREVT02"
  const FRAME_HEADER_BYTES := 8
  const MAXIMUM_EVENT_JSON_BYTES := 2048

  /** Validation, timestamp normalization and JSON for events, and the frame checksum. */
  datatype Codec = Codec(
    normalize: Event -> Option<Event>, encode: Event -> Option<seq<byte>>, decode: seq<byte> -> Option<Event>,
    checksum: seq<byte> -> nat)
  {
    /** Normalizing once is enough. */
    ghost predicate Settles() {
      forall e, n {:trigger normalize(e), normalize(n)} :: normalize(e) == Some(n) ==> normalize(n) == Some(n)
    }

    /** A normalized event survives its own encoding, and a checksum is 32 bits. */
    ghost predicate Faithful() {
      && (forall e :: normalize(e) == Some(e) && encode(e).Some? ==>
                        encode(e).value != [] && decode(encode(e).value) == Some(e))
      && (forall p :: checksum(p) < 0x1_0000_0000)
    }

    /** encodeFrame accepts the event. */
    predicate Fits(e: Event) {
      encode(e).Some? && |encode(e).value| <= MAXIMUM_EVENT_JSON_BYTES
    }

    /** An event as Append writes it: normalized and within the frame bound. */
    predicate Writable(e: Event) { normalize(e) == Some(e) && Fits(e) }

    /** This codec's frames, as the log theory sees them. */
    function Layout(): Format {
      Format(rest => ReadHead(this, rest), e => if Fits(e) then Frame(this, e) else [], e => Writable(e))
    }
  }

  function BigEndian(n: nat): seq<byte> {
    [n / 0x100 / 0x100 / 0x100 % 0x100, n / 0x100 / 0x100 % 0x100, n / 0x100 % 0x100, n % 0x100]
  }

  /** The big-endian word at `i`. */
  function Word(s: seq<byte>, i: nat): nat
    requires i + 4 <= |s|
  {
    (s[i] as int) * 0x100_0000 + (s[i + 1] as int) * 0x1_0000 + (s[i + 2] as int) * 0x100 + s[i + 3] as int
  }

  lemma BigEndianRoundTrip(n: nat)
    requires n < 0x1_0000_0000
    ensures Word(BigEndian(n), 0) == n
  {
  }

  /** encodeFrame's layout. */
  function Frame(c: Codec, e: Event): seq<byte>
    requires c.Fits(e)
  {
    var payload := c.encode(e).value;
    BigEndian(|payload|) + BigEndian(c.checksum(payload)) + payload
  }

  function ReadHead(c: Codec, rest: seq<byte>): Head {
    if rest == [] then Done
    else if |rest| < FRAME_HEADER_BYTES then CrashTail
    else
      var length := Word(rest, 0);
      if length == 0 || length > MAXIMUM_EVENT_JSON_BYTES then Broken
      else if |rest| < FRAME_HEADER_BYTES + length then CrashTail
      else
        var payload := rest[8..8 + length];
        if c.checksum(payload) != Word(rest, 4) then
          if |rest| == 8 + length then CrashTail else Broken
        else if c.decode(payload).None? then Broken
        else Next(c.decode(payload).value, 8 + length)
  }

  // ----- The format is lawful -----

  /** Reading back the header of a frame. */
  lemma FrameHead(c: Codec, e: Event, rest: seq<byte>)
    requires c.Faithful() && c.Fits(e)
    requires |rest| >= 8 && forall i | 0 <= i < 8 :: rest[i] == Frame(c, e)[i]
    ensures Word(rest, 0) == |c.encode(e).value| && Word(rest, 4) == c.checksum(c.encode(e).value)
  {
    BigEndianRoundTrip(|c.encode(e).value|);
    BigEndianRoundTrip(c.checksum(c.encode(e).value));
  }

  lemma HeadOfFrame(c: Codec, e: Event, next: seq<byte>)
    requires c.Faithful() && c.Writable(e)
    ensures |Frame(c, e)| > 8 && ReadHead(c, Frame(c, e) + next) == Next(e, |Frame(c, e)|)
  {
    var payload, rest := c.encode(e).value, Frame(c, e) + next;
    FrameHead(c, e, rest);
    assert rest[8..8 + |payload|] == payload;
  }

  lemma HeadOfPartial(c: Codec, e: Event, k: nat)
    requires c.Faithful() && c.Writable(e) && 0 < k < |Frame(c, e)|
    ensures ReadHead(c, Frame(c, e)[..k]) == CrashTail
  {
    if k >= 8 {
      FrameHead(c, e, Frame(c, e)[..k]);
    }
  }

  lemma HeadKept(c: Codec, rest: seq<byte>, k: nat)
    requires ReadHead(c, rest).Next? && ReadHead(c, rest).size <= k <= |rest|
    ensures ReadHead(c, rest[..k]) == ReadHead(c, rest)
  {
    var n := ReadHead(c, rest).size;
    assert rest[..k][8..n] == rest[8..n];
  }

  lemma FormatIsLocal(c: Codec)
    ensures c.Layout().Local()
  {
    var f := c.Layout();
    forall rest, k | f.head(rest).Next? && 0 < f.head(rest).size <= k <= |rest|
      ensures f.head(rest[..k]) == f.head(rest)
    {
      HeadKept(c, rest, k);
    }
  }

  lemma FormatIsLawful(c: Codec)
    requires c.Faithful()
    ensures c.Layout().Lawful()
  {
    var f := c.Layout();
    FormatIsLocal(c);
    forall e, next | f.writable(e)
      ensures |f.frame(e)| > 0 && f.head(f.frame(e) + next) == Next(e, |f.frame(e)|)
    {
      HeadOfFrame(c, e, next);
    }
    forall e, k | f.writable(e) && 0 < k < |f.frame(e)| ensures f.head(f.frame(e)[..k]) == CrashTail {
      HeadOfPartial(c, e, k);
    }
  }

  // ----- Reading a file -----

  /** What a file holds. */
  ghost function LoadFile(f: Format, file: seq<byte>): Load {
    if file == [] then Loaded([], None)
    else if |file| < |FILE_MAGIC| || file[..|FILE_MAGIC|] != FILE_MAGIC then Corrupt(0)
    else f.Parse(file[|FILE_MAGIC|..], |FILE_MAGIC|)
  }

  /** One round of the loop of loadFrames: the frame that starts at `offset`. */
  method ReadFrame(c: Codec, file: seq<byte>, offset: nat) returns (h: Head)
    requires offset < |file|
    ensures h == c.Layout().head(file[offset..])
    ensures !h.Done? && (h.Next? ==> 8 < h.size <= |file| - offset)
  {
    ghost var rest := file[offset..];
    if |file| - offset < FRAME_HEADER_BYTES {
      return CrashTail;
    }
    var length, expected := Word(file, offset), Word(file, offset + 4);
    assert length == Word(rest, 0) && expected == Word(rest, 4);
    if length == 0 || length > MAXIMUM_EVENT_JSON_BYTES {
      return Broken;
    }
    var start, end := offset + FRAME_HEADER_BYTES, offset + FRAME_HEADER_BYTES + length;
    if |file| < end {
      return CrashTail;
    }
    var payload := file[start..end];
    assert rest[8..8 + length] == payload;
    if c.checksum(payload) != expected {
      return if end == |file| then CrashTail else Broken;
    }
    var event := c.decode(payload);
    h := if event.None? then Broken else Next(event.value, 8 + length);
  }

  /** loadFrames: one pass over the file, advancing an offset. */
  method LoadFrames(c: Codec, file: seq<byte>) returns (r: Load)
    ensures r == LoadFile(c.Layout(), file)
  {
    if |file| == 0 {
      return Loaded([], None);
    }
    if |file| < |FILE_MAGIC| || file[..|FILE_MAGIC|] != FILE_MAGIC {
      return Corrupt(0);
    }
    var events: seq<Event>, offset := [], |FILE_MAGIC|;
    Begins(c.Layout(), file);
    while offset < |file|
      invariant |FILE_MAGIC| <= offset <= |file| && Reached(c.Layout(), file, events, offset)
    {
      var head := ReadFrame(c, file, offset);
      Advance(c.Layout(), file, events, offset);
      match head {
        case CrashTail => return Loaded(events, Some(offset));
        case Broken => return Corrupt(offset);
        case Next(event, size) => events, offset := events + [event], offset + size;
      }
    }
    Advance(c.Layout(), file, events, offset);
    r := Loaded(events, None);
  }

  /** Loading has gathered `events` and stands at `offset`. */
  ghost predicate Reached(f: Format, file: seq<byte>, events: seq<Event>, offset: nat) {
    && |file| >= |FILE_MAGIC| && offset <= |file|
    && LoadFile(f, file) == Prepend(events, f.Parse(file[offset..], offset))
  }

  lemma Begins(f: Format, file: seq<byte>)
    requires |file| >= |FILE_MAGIC| && file[..|FILE_MAGIC|] == FILE_MAGIC
    ensures Reached(f, file, [], |FILE_MAGIC|)
  {
  }

  lemma Advance(f: Format, file: seq<byte>, events: seq<Event>, offset: nat)
    requires Reached(f, file, events, offset)
    ensures var head := f.head(file[offset..]);
            match head
            case Done => LoadFile(f, file) == Loaded(events, None)
            case CrashTail => LoadFile(f, file) == Loaded(events, Some(offset))
            case Broken => LoadFile(f, file) == Corrupt(offset)
            case Next(event, size) =>
              0 < size <= |file| - offset ==> Reached(f, file, events + [event], offset + size)
  {
    var head := f.head(file[offset..]);
    if head.Next? && 0 < head.size <= |file| - offset {
      assert file[offset..][head.size..] == file[offset + head.size..];
      PrependTwice(events, [head.event], f.Parse(file[offset + head.size..], offset + head.size));
    }
  }

  /** The file that holds exactly these events. */
  function Image(f: Format, s: seq<Event>): seq<byte> { FILE_MAGIC + f.Frames(s) }

  lemma HeaderThen(f: Format, rest: seq<byte>)
    ensures LoadFile(f, FILE_MAGIC + rest) == f.Parse(rest, |FILE_MAGIC|)
  {
    DropAppend(FILE_MAGIC, rest);
  }

  lemma TruncatedReloads(f: Format, file: seq<byte>)
    requires f.Local() && LoadFile(f, file).Loaded? && LoadFile(f, file).cut.Some?
    ensures var r := LoadFile(f, file);
            && |FILE_MAGIC| <= r.cut.value <= |file|
            && LoadFile(f, file[..r.cut.value]) == Loaded(r.events, None)
  {
    var r, rest := LoadFile(f, file), file[|FILE_MAGIC|..];
    f.TruncationSettles(rest, |FILE_MAGIC|);
    var n := r.cut.value - |FILE_MAGIC|;
    assert file == FILE_MAGIC + rest;
    TakeAppend(FILE_MAGIC, rest, r.cut.value);
    HeaderThen(f, rest[..n]);
  }

  lemma CutReads(f: Format, s: seq<Event>, k: nat)
    requires f.Lawful() && f.AllWritable(s) && |FILE_MAGIC| <= k <= |Image(f, s)|
    ensures var j := f.Whole(s, k - |FILE_MAGIC|);
            && j <= |s| && |Image(f, s[..j])| <= k && (j < |s| ==> k < |Image(f, s[..j + 1])|)
            && LoadFile(f, Image(f, s)[..k]) == Loaded(s[..j], CutAt(|Image(f, s[..j])|, k))
  {
    var n := k - |FILE_MAGIC|;
    f.WholeIsLongest(s, n);
    f.ParseCut(s, n, |FILE_MAGIC|);
    TakeAppend(FILE_MAGIC, f.Frames(s), k);
    HeaderThen(f, f.Frames(s)[..n]);
  }

  /**
   * Any cut of a log at or after its header recovers exactly the events of its
   * longest whole-frame prefix and reports where that prefix ends; nothing is
   * reported at a frame boundary. Cut there, the file loads to the same events and
   * reports nothing.
   */
  lemma CutRecovers(f: Format, s: seq<Event>, k: nat)
    requires f.Lawful() && f.AllWritable(s) && |FILE_MAGIC| <= k <= |Image(f, s)|
    ensures var j := f.Whole(s, k - |FILE_MAGIC|);
            && j <= |s| && |Image(f, s[..j])| <= k && (j < |s| ==> k < |Image(f, s[..j + 1])|)
            && LoadFile(f, Image(f, s)[..k]) == Loaded(s[..j], CutAt(|Image(f, s[..j])|, k))
            && LoadFile(f, Image(f, s)[..|Image(f, s[..j])|]) == Loaded(s[..j], None)
  {
    CutReads(f, s, k);
    var file, n := Image(f, s)[..k], |Image(f, s[..f.Whole(s, k - |FILE_MAGIC|)])|;
    if n < k {
      TruncatedReloads(f, file);
      assert file[..n] == Image(f, s)[..n];
    }
  }

  /**
   * A cut inside the header is the one cut that cannot be read: recovery of a
   * prefix of a log fails exactly when it kept some but not all of the header.
   */
  lemma CutFailsOnlyInHeader(f: Format, s: seq<Event>, k: nat)
    requires f.Lawful() && f.AllWritable(s) && k <= |Image(f, s)|
    ensures LoadFile(f, Image(f, s)[..k]).Corrupt? <==> 0 < k < |FILE_MAGIC|
  {
    if k >= |FILE_MAGIC| {
      CutRecovers(f, s, k);
    }
  }

  /** Intact frames followed by nothing, or by a tail that reads as interrupted. */
  lemma ImageThenTail(f: Format, s: seq<Event>, tail: seq<byte>)
    requires f.Lawful() && f.AllWritable(s) && f.head(tail) in {Done, CrashTail}
    ensures LoadFile(f, Image(f, s) + tail) == Loaded(s, if f.head(tail).Done? then None else Some(|Image(f, s)|))
  {
    AppendAssociative(FILE_MAGIC, f.Frames(s), tail);
    HeaderThen(f, f.Frames(s) + tail);
    f.ParseAll(s, tail, |FILE_MAGIC|);
  }

  /** Intact frames followed by bytes that do not read as another: whether they load is decided by those bytes alone. */
  lemma TailReads(f: Format, s: seq<Event>, tail: seq<byte>)
    requires f.Lawful() && f.AllWritable(s) && !f.head(tail).Next?
    ensures LoadFile(f, Image(f, s) + tail)
            == match f.head(tail)
               case Done => Loaded(s, None)
               case CrashTail => Loaded(s, Some(|Image(f, s)|))
               case _ => Corrupt(|Image(f, s)|)
  {
    if f.head(tail).Broken? {
      AppendAssociative(FILE_MAGIC, f.Frames(s), tail);
      HeaderThen(f, f.Frames(s) + tail);
      f.ParseBroken(s, tail, |FILE_MAGIC|);
    } else {
      ImageThenTail(f, s, tail);
    }
  }

  /**
   * Exactly which bytes after the last whole frame a start can drop: too few for a frame
   * header, a payload that is not all there, or a final one that fails its checksum. Any
   * other makes the whole file unreadable.
   */
  lemma TailRecovers(c: Codec, s: seq<Event>, tail: seq<byte>)
    requires c.Faithful() && c.Layout().AllWritable(s) && tail != [] && !c.Layout().head(tail).Next?
    ensures LoadFile(c.Layout(), Image(c.Layout(), s) + tail) ==
              if (|tail| < FRAME_HEADER_BYTES
                  || (0 < Word(tail, 0) <= MAXIMUM_EVENT_JSON_BYTES
                      && (|tail| < FRAME_HEADER_BYTES + Word(tail, 0)
                          || (|tail| == FRAME_HEADER_BYTES + Word(tail, 0) && c.checksum(tail[8..]) != Word(tail, 4)))))
              then Loaded(s, Some(|Image(c.Layout(), s)|))
              else Corrupt(|Image(c.Layout(), s)|)
  {
    FormatIsLawful(c);
    TailReads(c.Layout(), s, tail);
    if |tail| >= FRAME_HEADER_BYTES && |tail| == FRAME_HEADER_BYTES + Word(tail, 0) {
      assert tail[8..8 + Word(tail, 0)] == tail[8..];
    }
  }

  /** A final frame whose checksum does not match its payload is cut like an interrupted one. */
  lemma TornFrameRecovers(c: Codec, s: seq<Event>, torn: seq<byte>)
    requires c.Faithful() && c.Layout().AllWritable(s)
    requires 8 < |torn| == 8 + Word(torn, 0) <= 8 + MAXIMUM_EVENT_JSON_BYTES
    requires c.checksum(torn[8..]) != Word(torn, 4)
    ensures LoadFile(c.Layout(), Image(c.Layout(), s) + torn) == Loaded(s, Some(|Image(c.Layout(), s)|))
  {
    FormatIsLawful(c);
    assert torn[8..8 + Word(torn, 0)] == torn[8..];
    assert c.Layout().head(torn) == CrashTail;
    ImageThenTail(c.Layout(), s, torn);
  }

  /**
   * For every file, not only ones the store wrote: truncating where loading says
   * and loading again gives the same events with nothing left to truncate.
   */
  lemma RecoveryIsStable(c: Codec, file: seq<byte>)
    requires LoadFile(c.Layout(), file).Loaded? && LoadFile(c.Layout(), file).cut.Some?
    ensures var r := LoadFile(c.Layout(), file);
            && |FILE_MAGIC| <= r.cut.value <= |file|
            && LoadFile(c.Layout(), file[..r.cut.value]) == Loaded(r.events, None)
  {
    FormatIsLocal(c);
    TruncatedReloads(c.Layout(), file);
  }
}
