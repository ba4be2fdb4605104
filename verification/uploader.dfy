/**
 * The upload session of the command-line tool: count the blocks, open the
 * programmer with SBEGIN, send the firmware 512 bytes at a time in SDATA
 * frames, each acknowledged before the next is read, and close with SEND.
 *
 * `Session` specifies one run over the link and file as values; `Upload`
 * performs it on the objects and is proved to agree with it.
 */
module Uploader {
  import opened Io
  import opened Protocol

  /** The size of a firmware block, and of the buffer each file read fills. */
  const BlockSize: nat := 512
  /** The read timeout while the programmer writes the blocks to flash. */
  const DataTimeoutMs: nat := 2000

  /** The number of whole blocks in a file of `len` bytes, as reported. */
  function BlockCount(len: nat): (blocks: nat)
    ensures blocks * BlockSize <= len < blocks * BlockSize + BlockSize
  {
    len / BlockSize
  }

  /** Whether the tool warns that the file does not end on a block boundary:
      exactly when the whole blocks do not cover it. */
  function BoundaryWarning(len: nat): (warn: bool)
    ensures warn <==> BlockCount(len) * BlockSize < len
  {
    len % BlockSize > 0
  }

  /** The calls that end the program with a panic (`expect`) when they fail. */
  datatype Abort =
    | SbeginFailed(error: Error)
    | BeginReplyFailed(error: Error)
    | SdataFailed(error: Error)
    | SendFailed(error: Error)

  /** How a session ends: in a panic, by returning early because the
      programmer did not acknowledge SBEGIN, or after writing SEND, with the
      result of the data loop and the number of acknowledged blocks. */
  datatype Outcome =
    | Aborted(reason: Abort)
    | BeginRejected(reply: OpCode)
    | Completed(upload: Result<()>, blockCount: nat)

  /** What the session reports: the block count it announces, whether it
      warned about a partial last block, and how it ended. */
  datatype Report = Report(blocks: nat, boundaryWarning: bool, outcome: Outcome)

  /** How one pass of the data loop ends: the programmer acknowledged the
      block, the loop breaks with a result, or sending the block panicked. */
  datatype PassEnd = Acked | Break(result: Result<()>) | Crash(error: Error)

  datatype Pass = Pass(file: FileState, link: LinkState, end: PassEnd)

  /** The two link events of one SDATA round trip: the frame carrying
      `block`, then the read of the programmer's answer. */
  function BlockRound(block: seq<byte>, t: nat): seq<Event>
  {
    [Wrote(Encode(Data(block)), t), Awaited(t)]
  }

  /** Whether a scripted reply, once read, decodes to SRSP. */
  predicate Acknowledges(reply: ReadReply)
  {
    reply.Bytes? && reply.data != [] && FromByte(reply.data[0]) == SRSP
  }

  /** How a pass ends once its block is sent whole, by the programmer's next
      scripted answer: acknowledged on SRSP; otherwise the loop breaks with
      the rejection, the failed or empty read, or the timeout. */
  function AnswerEnd(replies: seq<ReadReply>): (e: PassEnd)
    ensures e.Acked? <==> replies != [] && Acknowledges(replies[0])
    ensures e.Break? ==> e.result.Err? && e.result.error != IncompleteRead
    ensures !e.Crash?
  {
    if replies == [] then Break(Err(TimedOut))
    else
      match replies[0]
      case Fail(code) => Break(Err(Os(code)))
      case Bytes(data) =>
        if data == [] then Break(Err(ConnectionClosed))
        else if FromByte(data[0]) == SRSP then Acked
        else Break(Err(ProgrammerError))
  }

  /** The link half of a pass: send `block` in an SDATA frame and, once it
      is taken whole, read one answer. A frame not taken whole panics. */
  function Exchange(l: LinkState, block: seq<byte>): (r: (LinkState, PassEnd))
    ensures r.0.timeoutMs == l.timeoutMs
    ensures r.0.writes == if l.writes == [] then [] else l.writes[1..]
    ensures r.0.replies == if !l.TakesWhole(|block| + 3) || l.replies == [] then l.replies else l.replies[1..]
    ensures l.events <= r.0.events && |r.0.events| <= |l.events| + 2
    ensures forall i | |l.events| <= i < |r.0.events| :: r.0.events[i].timeoutMs == l.timeoutMs
    ensures if l.TakesWhole(|block| + 3) then
              r.0.events == l.events + BlockRound(block, l.timeoutMs) && r.1 == AnswerEnd(l.replies)
            else
              r.1 == Crash(if l.writes[0].Refuse? then Os(l.writes[0].code)
                           else IncompleteWrite(l.writes[0].limit, |block| + 3))
  {
    hide Encode, FromByte;
    var (l1, sent) := Transmit(l, Encode(Data(block)));
    if sent.Err? then (l1, Crash(sent.error))
    else
      var (l2, reply) := Response(l1);
      match reply
      case Err(e) => (l2, Break(Err(e)))
      case Ok(op) => (l2, if op != SRSP then Break(Err(ProgrammerError)) else Acked)
  }

  /** One pass of the data loop: read up to a block from the file; stop with
      success on an empty read and with an error on a failed or partial read;
      otherwise send the block in an SDATA frame and read one response. */
  function Round(f: FileState, l: LinkState): (p: Pass)
    requires f.Valid()
    ensures p.file.Valid() && p.file.content == f.content && p.file.badOffset == f.badOffset
    ensures p.link.timeoutMs == l.timeoutMs
    ensures l.events <= p.link.events && |p.link.events| <= |l.events| + 2
    ensures forall i | |l.events| <= i < |p.link.events| :: p.link.events[i].timeoutMs == l.timeoutMs
    // the four cases of the file read
    ensures f.Remaining() == 0 ==> p == Pass(f, l, Break(Ok(())))
    ensures 0 < f.Remaining() && f.Unreadable(f.pos, Min(BlockSize, f.Remaining())) ==>
              p == Pass(f, l, Break(Err(Os(ReadFault))))
    ensures 0 < f.Remaining() < BlockSize && !f.Unreadable(f.pos, f.Remaining()) ==>
              p.link == l && p.end == Break(Err(IncompleteRead))
    ensures BlockSize <= f.Remaining() && !f.Unreadable(f.pos, BlockSize) ==>
              p.file.pos == f.pos + BlockSize
              && if l.TakesWhole(BlockSize + 3) then
                   p.link.events == l.events + BlockRound(f.content[f.pos..f.pos + BlockSize], l.timeoutMs)
                   && p.end == AnswerEnd(l.replies)
                 else
                   p.end == Crash(if l.writes[0].Refuse? then Os(l.writes[0].code)
                                  else IncompleteWrite(l.writes[0].limit, BlockSize + 3))
    // consequences the proofs about the loop use
    ensures p.end == Break(Ok(())) <==> f.pos == |f.content|
    ensures p.end.Break? && (p.end.result.Ok? || p.end.result.error == IncompleteRead) ==> p.link == l
    ensures p.end.Acked? || p.end == Break(Err(ProgrammerError)) ==>
              f.pos + BlockSize <= |f.content| && p.file.pos == f.pos + BlockSize
              && p.link.events == l.events + BlockRound(f.content[f.pos..f.pos + BlockSize], l.timeoutMs)
              && l.replies != [] && (p.end.Acked? <==> Acknowledges(l.replies[0]))
  {
    hide Exchange, AnswerEnd;
    var (f1, got) := f.Read(BlockSize);
    match got
    case Err(e) => Pass(f1, l, Break(Err(e)))
    case Ok(block) =>
      if |block| == 0 then Pass(f1, l, Break(Ok(())))
      else if |block| != BlockSize then Pass(f1, l, Break(Err(IncompleteRead)))
      else
        var (l2, end) := Exchange(l, block);
        Pass(f1, l2, end)
  }

  /** How the data loop ends: with its result, or in a panic. */
  datatype LoopExit = Finished(result: Result<()>) | Crashed(error: Error)

  datatype LoopEnd = LoopEnd(file: FileState, link: LinkState, count: nat, exit: LoopExit)

  /** The data loop from `count` acknowledged blocks on: passes repeat while
      the programmer acknowledges, and each acknowledgement counts one block. */
  function DataLoop(f: FileState, l: LinkState, count: nat): (r: LoopEnd)
    requires f.Valid()
    ensures r.file.Valid() && r.file.content == f.content
    ensures count <= r.count && f.pos + 512 * (r.count - count) <= |f.content|
    decreases f.Remaining()
  {
    var p := Round(f, l);
    match p.end
    case Acked => DataLoop(p.file, p.link, count + 1)
    case Break(result) => LoopEnd(p.file, p.link, count, Finished(result))
    case Crash(e) => LoopEnd(p.file, p.link, count, Crashed(e))
  }

  datatype SessionEnd = SessionEnd(report: Report, link: LinkState, file: FileState)

  /** The whole session on a link and a freshly opened file. */
  function Session(l: LinkState, f: FileState, verify: bool): (r: SessionEnd)
    requires f.Valid()
    ensures r.file.Valid() && r.file.content == f.content
    ensures r.report.blocks == BlockCount(|f.content|)
    ensures r.report.outcome.Completed? ==> f.pos + 512 * r.report.outcome.blockCount <= |f.content|
  {
    var blocks := BlockCount(|f.content|);
    var warn := BoundaryWarning(|f.content|);
    var (l1, begun) := Transmit(l, Encode(Begin(verify)));
    if begun.Err? then
      SessionEnd(Report(blocks, warn, Aborted(SbeginFailed(begun.error))), l1, f)
    else
      var (l2, reply) := Response(l1);
      if reply.Err? then
        SessionEnd(Report(blocks, warn, Aborted(BeginReplyFailed(reply.error))), l2, f)
      else if reply.value != SRSP then
        SessionEnd(Report(blocks, warn, BeginRejected(reply.value)), l2, f)
      else
        var saved := l2.timeoutMs;
        var loop := DataLoop(f, l2.(timeoutMs := DataTimeoutMs), 0);
        match loop.exit
        case Crashed(e) =>
          SessionEnd(Report(blocks, warn, Aborted(SdataFailed(e))), loop.link, loop.file)
        case Finished(result) =>
          var (l4, ended) := Transmit(loop.link.(timeoutMs := saved), Encode(End));
          if ended.Err? then
            SessionEnd(Report(blocks, warn, Aborted(SendFailed(ended.error))), l4, loop.file)
          else
            SessionEnd(Report(blocks, warn, Completed(result, loop.count)), l4, loop.file)
  }

  /** The session as the tool runs it, on the serial port and the opened file. */
  method Upload(port: Link, file: FirmwareFile, verify: bool) returns (report: Report)
    requires file.State().Valid()
    modifies port, file
    ensures SessionEnd(report, port.State(), file.State()) == Session(old(port.State()), old(file.State()), verify)
  {
    var len := file.Length();
    var blocks := len / BlockSize;
    var warn := len % BlockSize > 0;

    var begun := SendSbegin(port, verify);
    if begun.Err? {
      return Report(blocks, warn, Aborted(SbeginFailed(begun.error)));
    }
    var reply := ReadResponse(port);
    if reply.Err? {
      return Report(blocks, warn, Aborted(BeginReplyFailed(reply.error)));
    }
    if reply.value != SRSP {
      return Report(blocks, warn, BeginRejected(reply.value));
    }

    var timeout := port.Timeout();
    port.SetTimeout(DataTimeoutMs);
    var exit, blockCount := SendBlocks(port, file);
    if exit.Crashed? {
      return Report(blocks, warn, Aborted(SdataFailed(exit.error)));
    }

    port.SetTimeout(timeout);
    var ended := SendSend(port);
    if ended.Err? {
      return Report(blocks, warn, Aborted(SendFailed(ended.error)));
    }
    report := Report(blocks, warn, Completed(exit.result, blockCount));
  }

  /** The data loop of the session: reads the file a block at a time and
      sends each block, until the file ends, a read or a reply fails, or the
      programmer rejects a block; a failed send panics. */
  method SendBlocks(port: Link, file: FirmwareFile) returns (exit: LoopExit, blockCount: nat)
    requires file.State().Valid()
    modifies port, file
    ensures LoopEnd(file.State(), port.State(), blockCount, exit) == DataLoop(old(file.State()), old(port.State()), 0)
  {
    ghost var f0 := file.State();
    ghost var l0 := port.State();
    blockCount := 0;
    while true
      invariant file.State().Valid()
      invariant DataLoop(file.State(), port.State(), blockCount) == DataLoop(f0, l0, 0)
      decreases file.State().Remaining()
    {
      var got := file.Read(BlockSize);
      if got.Err? {
        return Finished(Err(got.error)), blockCount;
      }
      var buffer := got.value;
      if |buffer| == 0 {
        return Finished(Ok(())), blockCount;
      }
      if |buffer| != BlockSize {
        return Finished(Err(IncompleteRead)), blockCount;
      }
      var sent := SendSdata(port, buffer);
      if sent.Err? {
        return Crashed(sent.error), blockCount;
      }
      var response := ReadResponse(port);
      if response.Err? {
        return Finished(Err(response.error)), blockCount;
      }
      if response.value != SRSP {
        return Finished(Err(ProgrammerError)), blockCount;
      }
      blockCount := blockCount + 1;
    }
  }
}
