/**
 * The two collaborators the upload session talks to, modelled as scripted
 * objects: the serial link to the programmer and the firmware file.
 *
 * Each class keeps its state in plain fields; `State()` reads them out as a
 * value of a datatype whose member functions say what one call does. The
 * session's specification is written over those values, the session's code
 * over the objects.
 */
module Io {

  type byte = bv8

  datatype Option<T> = None | Some(value: T)

  /** The errors the session can meet. `Os` carries an error code reported by
      the operating system and passed through unchanged. */
  datatype Error =
    | Os(code: nat)
    | TimedOut
    | ConnectionClosed
    | IncompleteWrite(wrote: nat, expected: nat)
    | IncompleteRead
    | ProgrammerError

  datatype Result<T> = Ok(value: T) | Err(error: Error)

  /** The error code a failed file read reports (EIO). */
  const ReadFault: nat := 5

  function Min(a: nat, b: nat): nat
  {
    if a < b then a else b
  }

  // ---------------------------------------------------------------- the link

  /** What the link does with the next write: take at most `limit` bytes of
      it, or fail with an OS error. */
  datatype WriteReply = Accept(limit: nat) | Refuse(code: nat)

  /** What the next read on the link delivers: the bytes one read returns
      (possibly none), or an OS error. */
  datatype ReadReply = Bytes(data: seq<byte>) | Fail(code: nat)

  /** One entry of the link's log: the bytes a write took, or a read,
      each with the read timeout the link had at that moment. */
  datatype Event = Wrote(bytes: seq<byte>, timeoutMs: nat) | Awaited(timeoutMs: nat)

  /** The link as a value. When the write script is exhausted the link takes
      every byte; when the read script is exhausted a read times out. */
  datatype LinkState = LinkState(events: seq<Event>, writes: seq<WriteReply>,
                                 replies: seq<ReadReply>, timeoutMs: nat)
  {
    /** Whether the next write takes all of a buffer of `len` bytes. */
    predicate TakesWhole(len: nat)
    {
      writes == [] || (writes[0].Accept? && len <= writes[0].limit)
    }

    /** One `write`: how many bytes the link took, or its error. */
    function Write(buf: seq<byte>): (r: (LinkState, Result<nat>))
      ensures r.0.replies == replies && r.0.timeoutMs == timeoutMs
      ensures r.0.writes == if writes == [] then [] else writes[1..]
      ensures r.1.Ok? ==> r.1.value <= |buf|
                          && r.0.events == events + [Wrote(buf[..r.1.value], timeoutMs)]
      ensures r.1.Err? <==> writes != [] && writes[0].Refuse?
      ensures r.1.Err? ==> r.1.error == Os(writes[0].code) && r.0.events == events
      ensures writes != [] && writes[0].Accept? ==> r.1 == Ok(Min(writes[0].limit, |buf|))
      ensures r.1.Ok? && r.1.value == |buf| <==> TakesWhole(|buf|)
    {
      if writes == [] then
        assert buf[..|buf|] == buf;
        var n: nat := |buf|;
        (this.(events := events + [Wrote(buf, timeoutMs)]), Ok(n))
      else
        match writes[0]
        case Accept(limit) =>
          var n: nat := Min(limit, |buf|);
          (this.(events := events + [Wrote(buf[..n], timeoutMs)], writes := writes[1..]), Ok(n))
        case Refuse(code) =>
          (this.(writes := writes[1..]), Err(Os(code)))
    }

    /** One `read`: the bytes received, or the link's error. */
    function Read(): (r: (LinkState, Result<seq<byte>>))
      ensures r.0.events == events + [Awaited(timeoutMs)]
      ensures r.0.writes == writes && r.0.timeoutMs == timeoutMs
      ensures r.0.replies == if replies == [] then [] else replies[1..]
      ensures replies == [] ==> r.1 == Err(TimedOut)
      ensures replies != [] ==> r.1 == match replies[0]
                                       case Bytes(data) => Ok(data)
                                       case Fail(code) => Err(Os(code))
    {
      var s := this.(events := events + [Awaited(timeoutMs)]);
      if replies == [] then
        (s, Err(TimedOut))
      else
        match replies[0]
        case Bytes(data) => (s.(replies := replies[1..]), Ok(data))
        case Fail(code) => (s.(replies := replies[1..]), Err(Os(code)))
    }
  }

  /** The serial port: a log of what was written and read, the scripted
      behaviour of the device on the other side, and the read timeout. */
  class Link {
    var events: seq<Event>
    var writes: seq<WriteReply>
    var replies: seq<ReadReply>
    var timeoutMs: nat

    function State(): LinkState
      reads this
    {
      LinkState(events, writes, replies, timeoutMs)
    }

    constructor (writes: seq<WriteReply>, replies: seq<ReadReply>, timeoutMs: nat)
      ensures State() == LinkState([], writes, replies, timeoutMs)
    {
      this.events := [];
      this.writes := writes;
      this.replies := replies;
      this.timeoutMs := timeoutMs;
    }

    method Write(buf: seq<byte>) returns (r: Result<nat>)
      modifies this
      ensures (State(), r) == old(State()).Write(buf)
    {
      if writes == [] {
        events := events + [Wrote(buf, timeoutMs)];
        r := Ok(|buf|);
      } else {
        match writes[0] {
          case Accept(limit) =>
            var n := Min(limit, |buf|);
            events := events + [Wrote(buf[..n], timeoutMs)];
            r := Ok(n);
          case Refuse(code) =>
            r := Err(Os(code));
        }
        writes := writes[1..];
      }
    }

    method Read() returns (r: Result<seq<byte>>)
      modifies this
      ensures (State(), r) == old(State()).Read()
    {
      events := events + [Awaited(timeoutMs)];
      if replies == [] {
        r := Err(TimedOut);
      } else {
        match replies[0] {
          case Bytes(data) => r := Ok(data);
          case Fail(code) => r := Err(Os(code));
        }
        replies := replies[1..];
      }
    }

    /** `timeout()`. */
    function Timeout(): (ms: nat)
      reads this
      ensures ms == State().timeoutMs
    {
      timeoutMs
    }

    /** `set_timeout`: changes the read timeout and nothing else. */
    method SetTimeout(ms: nat)
      modifies this
      ensures State() == old(State()).(timeoutMs := ms)
    {
      timeoutMs := ms;
    }
  }

  // ---------------------------------------------------------------- the file

  /** The firmware file as a value: its bytes, the read cursor, and
      optionally the offset of an unreadable byte; a read whose range covers
      that byte fails with an I/O error and leaves the cursor where it was. */
  datatype FileState = FileState(content: seq<byte>, pos: nat, badOffset: Option<nat>)
  {
    predicate Valid()
    {
      pos <= |content|
    }

    /** The bytes still to be read. */
    function Remaining(): nat
      requires Valid()
    {
      |content| - pos
    }

    /** Whether the unreadable byte lies among the `n` bytes from offset `from`. */
    predicate Unreadable(from: nat, n: nat)
    {
      badOffset.Some? && from <= badOffset.value < from + n
    }

    /** One `read` into a buffer of `size` bytes: as many bytes as fit and as
      are left (none at the end of the file), or an I/O error when the
      unreadable byte is among them. */
    function Read(size: nat): (r: (FileState, Result<seq<byte>>))
      requires Valid()
      ensures r.0.Valid() && r.0.content == content && r.0.badOffset == badOffset
      ensures r.1.Err? <==> Unreadable(pos, Min(size, Remaining()))
      ensures r.1.Ok? ==> r.0.pos == pos + |r.1.value| && r.1.value == content[pos..r.0.pos]
                          && |r.1.value| == Min(size, Remaining())
      ensures r.1.Err? ==> r.0 == this && r.1.error == Os(ReadFault)
    {
      var n := Min(size, Remaining());
      if Unreadable(pos, n) then
        (this, Err(Os(ReadFault)))
      else
        (this.(pos := pos + n), Ok(content[pos..pos + n]))
    }
  }

  /** The opened firmware file with its read cursor. */
  class FirmwareFile {
    var content: seq<byte>
    var pos: nat
    var badOffset: Option<nat>

    function State(): FileState
      reads this
    {
      FileState(content, pos, badOffset)
    }

    constructor (content: seq<byte>, badOffset: Option<nat>)
      ensures State() == FileState(content, 0, badOffset) && State().Valid()
    {
      this.content := content;
      this.pos := 0;
      this.badOffset := badOffset;
    }

    /** `metadata().len()`: the size of the file, wherever the cursor is. */
    function Length(): (len: nat)
      reads this
      ensures len == |State().content|
    {
      |content|
    }

    /** `read` into a fresh buffer of `size` bytes: returns the bytes read. */
    method Read(size: nat) returns (r: Result<seq<byte>>)
      requires State().Valid()
      modifies this
      ensures (State(), r) == old(State()).Read(size)
    {
      var n := Min(size, |content| - pos);
      if badOffset.Some? && pos <= badOffset.value < pos + n {
        r := Err(Os(ReadFault));
      } else {
        r := Ok(content[pos..pos + n]);
        pos := pos + n;
      }
    }
  }
}
