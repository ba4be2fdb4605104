/**
 * What a session does, stated over `Session` and `DataLoop` and proved for
 * every link script and every file: the order of the frames, the blocks
 * they carry, when SEND is written, and the read timeout each frame sees.
 */
module UploadProperties {
  import opened Io
  import opened Protocol
  import opened Uploader

  /** The link events of `k` acknowledged SDATA round trips carrying the
      consecutive blocks of `content` that start at offset `from`. */
  function Rounds(content: seq<byte>, from: nat, k: nat, t: nat): (events: seq<Event>)
    requires from + 512 * k <= |content|
    ensures |events| == 2 * k
    ensures forall i | 0 <= i < |events| :: events[i].timeoutMs == t
    decreases k
  {
    if k == 0 then []
    else BlockRound(content[from..from + BlockSize], t) + Rounds(content, from + BlockSize, k - 1, t)
  }

  /** The link events of the data loop's last pass, the one that is not
      acknowledged: none when the file ends or cannot be read, a partial
      write when sending the block fails, and a whole round trip otherwise.
      They happen at the loop's timeout. */
  function LastPass(f: FileState, l: LinkState): (events: seq<Event>)
    requires f.Valid()
    ensures |events| <= 2
    ensures forall i | 0 <= i < |events| :: events[i].timeoutMs == l.timeoutMs
    decreases f.Remaining()
  {
    var p := Round(f, l);
    if p.end.Acked? then LastPass(p.file, p.link)
    else
      var tail := p.link.events[|l.events|..];
      assert forall i | 0 <= i < |tail| :: tail[i] == p.link.events[|l.events| + i];
      tail
  }

  /** The data loop's log from `c` acknowledged blocks on: the blocks
      it counts are the next ones of the file, in order, each one SDATA
      write and one read, followed only by the last pass; the timeout is
      left as it was. */
  predicate TraceShape(f: FileState, l: LinkState, c: nat)
    requires f.Valid()
  {
    && DataLoop(f, l, c).link.timeoutMs == l.timeoutMs
    && DataLoop(f, l, c).link.events
       == l.events + Rounds(f.content, f.pos, DataLoop(f, l, c).count - c, l.timeoutMs) + LastPass(f, l)
  }

  /** How the data loop ends, by what its last pass meets at `q`, the start
      of the first block it does not count, with `n` bytes left to read
      there: the end of the file ends it successfully; an unreadable block
      ends it with EIO and a partial one with an incomplete read, neither
      writing anything; a whole readable block that does not panic was sent
      and answered once, is not counted, and ends it with an error. A
      rejection or a panic happens only on a whole readable block. */
  predicate LastPassShape(f: FileState, l: LinkState, c: nat)
    requires f.Valid()
  {
    var r := DataLoop(f, l, c);
    var q := f.pos + 512 * (r.count - c);
    var n := Min(BlockSize, |f.content| - q);
    && (r.exit == Finished(Ok(())) <==> q == |f.content|)
    && (q == |f.content| ==> LastPass(f, l) == [])
    && (0 < n && f.Unreadable(q, n) ==> r.exit == Finished(Err(Os(ReadFault))) && LastPass(f, l) == [])
    && (0 < n < BlockSize && !f.Unreadable(q, n) ==>
          r.exit == Finished(Err(IncompleteRead)) && LastPass(f, l) == [])
    && (n == BlockSize && !f.Unreadable(q, n) && r.exit.Finished? ==>
          r.exit.result.Err? && r.exit.result.error != IncompleteRead
          && LastPass(f, l) == BlockRound(f.content[q..q + BlockSize], l.timeoutMs))
    && (r.exit == Finished(Err(ProgrammerError)) || r.exit.Crashed? ==>
          n == BlockSize && !f.Unreadable(q, n))
  }

  /** The data loop, whatever the file and the link do: the blocks counted
      are the next ones of the file, in order, each sent once and answered
      once, and only the last pass follows them; the loop leaves the timeout
      as it found it. */
  lemma {:induction false} LoopTrace(f: FileState, l: LinkState, c: nat)
    requires f.Valid()
    ensures TraceShape(f, l, c)
    decreases f.Remaining(), 1
  {
    if Round(f, l).end.Acked? {
      LoopTraceAcked(f, l, c);
    } else {
      LoopTraceLast(f, l, c);
    }
  }

  /** LoopTrace when the first block is acknowledged. */
  lemma {:induction false} LoopTraceAcked(f: FileState, l: LinkState, c: nat)
    requires f.Valid() && Round(f, l).end.Acked?
    ensures TraceShape(f, l, c)
    decreases f.Remaining(), 0
  {
    hide Round, Exchange, AnswerEnd, Encode, FromByte, Transmit, Response;
    var p := Round(f, l);
    var r := DataLoop(f, l, c);
    LoopTrace(p.file, p.link, c + 1);
    assert r == DataLoop(p.file, p.link, c + 1);
    RoundsStep(f.content, f.pos, r.count - c, l.timeoutMs,
               p.file.content, p.file.pos, DataLoop(p.file, p.link, c + 1).count - (c + 1), p.link.timeoutMs);
    AppendAssoc(l.events, BlockRound(f.content[f.pos..f.pos + BlockSize], l.timeoutMs),
                Rounds(p.file.content, p.file.pos, DataLoop(p.file, p.link, c + 1).count - (c + 1), p.link.timeoutMs));
  }

  /** LoopTrace when the first pass ends the loop. */
  lemma LoopTraceLast(f: FileState, l: LinkState, c: nat)
    requires f.Valid() && !Round(f, l).end.Acked?
    ensures TraceShape(f, l, c)
  {
    hide Exchange, Encode, FromByte, Transmit, Response;
    var p := Round(f, l);
    var r := DataLoop(f, l, c);
    assert r.count == c && r.link == p.link;
    assert l.events + Rounds(f.content, f.pos, 0, l.timeoutMs) == l.events;
    PrefixSplit(l.events, p.link.events);
  }

  /** How the data loop's last pass looks for the results the loop breaks
      with: an end of file comes after the whole file was counted and writes
      nothing; a partial block writes nothing; a block the programmer
      rejects is the next block of the file, sent and answered but not
      counted. */
  lemma {:induction false} LastPassCases(f: FileState, l: LinkState, c: nat)
    requires f.Valid()
    ensures LastPassShape(f, l, c)
    decreases f.Remaining(), 1
  {
    if Round(f, l).end.Acked? {
      LastPassCasesAcked(f, l, c);
    } else {
      LastPassCasesLast(f, l, c);
    }
  }

  /** LastPassCases when the first block is acknowledged. */
  lemma {:induction false} LastPassCasesAcked(f: FileState, l: LinkState, c: nat)
    requires f.Valid() && Round(f, l).end.Acked?
    ensures LastPassShape(f, l, c)
    decreases f.Remaining(), 0
  {
    hide Round, Exchange, AnswerEnd, Encode, FromByte, Transmit, Response;
    var p := Round(f, l);
    var r := DataLoop(f, l, c);
    LastPassCases(p.file, p.link, c + 1);
    assert r == DataLoop(p.file, p.link, c + 1);
    assert f.pos + 512 * (r.count - c) == p.file.pos + 512 * (DataLoop(p.file, p.link, c + 1).count - (c + 1));
  }

  /** LastPassCases when the first pass ends the loop. */
  lemma LastPassCasesLast(f: FileState, l: LinkState, c: nat)
    requires f.Valid() && !Round(f, l).end.Acked?
    ensures LastPassShape(f, l, c)
  {
    hide Exchange, Encode, FromByte, Transmit, Response;
    var p := Round(f, l);
    var r := DataLoop(f, l, c);
    assert r.count == c && r.link == p.link;
    if BlockSize <= f.Remaining() && !f.Unreadable(f.pos, BlockSize) && l.TakesWhole(BlockSize + 3) {
      DropAppend(l.events, BlockRound(f.content[f.pos..f.pos + BlockSize], l.timeoutMs));
    }
  }

  // The lemmas below state steps the proofs above could assert directly.
  // As lemmas, each is proved once in a small context; where their arguments
  // come in two sets only required equal, the call sites write them in terms
  // of different states, and passing them separately saves the solver from
  // establishing equality of the two sequences element by element.

  /** `k` consecutive round trips are the first block's followed by the
      `k - 1` after it. */
  lemma RoundsStep(content: seq<byte>, from: nat, k: nat, t: nat,
                   content': seq<byte>, from': nat, k': nat, t': nat)
    requires 0 < k && from + 512 * k <= |content|
    requires content' == content && from' == from + BlockSize && k' == k - 1 && t' == t
    ensures Rounds(content, from, k, t)
            == BlockRound(content[from..from + BlockSize], t) + Rounds(content', from', k', t')
  {
  }

  /** Two ways of writing the same consecutive round trips. */
  lemma SameRounds(content: seq<byte>, from: nat, k: nat, t: nat,
                   content': seq<byte>, from': nat, k': nat, t': nat)
    requires from + 512 * k <= |content|
    requires content' == content && from' == from && k' == k && t' == t
    ensures Rounds(content, from, k, t) == Rounds(content', from', k', t')
  {
  }

  lemma AppendAssoc(a: seq<Event>, b: seq<Event>, c: seq<Event>)
    ensures a + (b + c) == (a + b) + c
  {
  }

  lemma PrefixSplit(a: seq<Event>, b: seq<Event>)
    requires a <= b
    ensures b == a + b[|a|..]
  {
  }

  lemma DropAppend(a: seq<Event>, b: seq<Event>)
    ensures (a + b)[|a|..] == b
  {
  }

  /** A session completes exactly when SBEGIN is written whole, the
      programmer answers it with SRSP, the data loop ends without a panic
      (successfully or not) and SEND, written after the timeout is restored,
      is taken whole; it then reports the loop's result and count, and SEND
      is the last thing written. */
  lemma SendAfterLoop(l: LinkState, f: FileState, verify: bool)
    requires f.Valid()
    ensures var (l1, begun) := Transmit(l, Encode(Begin(verify)));
            var (l2, reply) := Response(l1);
            var loop := DataLoop(f, l2.(timeoutMs := DataTimeoutMs), 0);
            var (l4, ended) := Transmit(loop.link.(timeoutMs := l.timeoutMs), Encode(End));
            var r := Session(l, f, verify);
            (r.report.outcome.Completed? <==> begun.Ok? && reply == Ok(SRSP) && loop.exit.Finished? && ended.Ok?)
            && (r.report.outcome.Completed? ==>
                  r.report.outcome == Completed(loop.exit.result, loop.count)
                  && r.link == l4 && r.file == loop.file
                  && r.link.events == loop.link.events + [Wrote(Encode(End), l.timeoutMs)]
                  && r.link.timeoutMs == l.timeoutMs)
  {
    hide Round, DataLoop, Exchange, Encode, FromByte;
  }

  /** A session that completes wrote SBEGIN and read its answer at the
      original timeout; then, at the 2000 ms timeout, sent the file's blocks
      from the start, in order, one acknowledged round trip each, as many as
      it counts, followed by the loop's last pass; and finally wrote SEND at
      the original timeout, which the link has again. */
  lemma CompletedTrace(l: LinkState, f: FileState, verify: bool)
    requires f.Valid()
    ensures var r := Session(l, f, verify);
            var t := l.timeoutMs;
            var start := Response(Transmit(l, Encode(Begin(verify))).0).0.(timeoutMs := DataTimeoutMs);
            r.report.outcome.Completed? ==>
              r.link.events == l.events + [Wrote(Encode(Begin(verify)), t), Awaited(t)]
                               + Rounds(f.content, f.pos, r.report.outcome.blockCount, DataTimeoutMs)
                               + LastPass(f, start) + [Wrote(Encode(End), t)]
              && r.link.timeoutMs == t
  {
    hide Round, Exchange, AnswerEnd, Encode, FromByte, Transmit, Response;
    var r := Session(l, f, verify);
    if r.report.outcome.Completed? {
      SendAfterLoop(l, f, verify);
      var start := Response(Transmit(l, Encode(Begin(verify))).0).0.(timeoutMs := DataTimeoutMs);
      var loop := DataLoop(f, start, 0);
      LoopTrace(f, start, 0);
      SameRounds(f.content, f.pos, loop.count - 0, start.timeoutMs,
                 f.content, f.pos, r.report.outcome.blockCount, DataTimeoutMs);
      assert start.events == l.events + [Wrote(Encode(Begin(verify)), l.timeoutMs), Awaited(l.timeoutMs)];
    }
  }

  /** If the programmer does not answer SBEGIN with SRSP, the session stops
      after SBEGIN and that one read: no SDATA, no SEND, the file untouched. */
  lemma BeginNotAcknowledged(l: LinkState, f: FileState, verify: bool)
    requires f.Valid()
    ensures var r := Session(l, f, verify);
            var begins := l.writes == [] || (l.writes[0].Accept? && 2 <= l.writes[0].limit);
            (r.report.outcome.BeginRejected? <==>
               begins && l.replies != [] && l.replies[0].Bytes? && l.replies[0].data != []
               && !Acknowledges(l.replies[0]))
            && (r.report.outcome.BeginRejected? ==>
                  r.report.outcome.reply == FromByte(l.replies[0].data[0])
                  && r.link.events == l.events + [Wrote(Encode(Begin(verify)), l.timeoutMs), Awaited(l.timeoutMs)]
                  && r.file == f)
  {
    hide Round, DataLoop, Exchange, Encode, FromByte;
  }

  /** The loop part of AllAcknowledged, from any block boundary on: with
      every write taken and the next `k` answers acknowledgements, the loop
      counts the `k` remaining blocks and ends at the end of the file. */
  lemma {:induction false} AcknowledgedLoop(f: FileState, l: LinkState, c: nat, k: nat)
    requires f.Valid() && f.badOffset.None? && f.pos + 512 * k == |f.content|
    requires l.writes == [] && k <= |l.replies|
    requires forall i | 0 <= i < k :: Acknowledges(l.replies[i])
    ensures var r := DataLoop(f, l, c);
            r.exit == Finished(Ok(())) && r.count == c + k && r.link.writes == [] && r.file.pos == |f.content|
    decreases k
  {
    hide Exchange, Encode, FromByte, Transmit, Response;
    var p := Round(f, l);
    if k == 0 {
      assert p.end == Break(Ok(()));
    } else {
      assert Acknowledges(l.replies[0]);
      assert p.end.Acked?;
      assert p.link.replies == l.replies[1..] && p.link.writes == [];
      AcknowledgedLoop(p.file, p.link, c + 1, k - 1);
    }
  }

  /** A link that takes every write and answers everything with SRSP, and a
      file of exactly `n` blocks with no read error: the session writes
      SBEGIN, then `n` SDATA frames carrying the file block by block, each
      answered once, then SEND; it counts `n` blocks, as announced, and
      reports success. */
  lemma AllAcknowledged(l: LinkState, f: FileState, verify: bool, n: nat)
    requires f.pos == 0 && f.badOffset.None? && |f.content| == 512 * n
    requires l.writes == [] && n < |l.replies|
    requires forall i | 0 <= i <= n :: Acknowledges(l.replies[i])
    ensures var r := Session(l, f, verify);
            var t := l.timeoutMs;
            r.report == Report(n, false, Completed(Ok(()), n))
            && r.link.events == l.events + [Wrote(Encode(Begin(verify)), t), Awaited(t)]
                                + Rounds(f.content, 0, n, DataTimeoutMs) + [Wrote(Encode(End), t)]
            && r.link.timeoutMs == t
            && r.file.pos == |f.content|
  {
    hide Round, Exchange, AnswerEnd, Encode, FromByte, Transmit, Response;
    var (l1, _) := Transmit(l, Encode(Begin(verify)));
    var (l2, reply) := Response(l1);
    assert reply == Ok(SRSP);
    var start := l2.(timeoutMs := DataTimeoutMs);
    assert start.replies == l.replies[1..];
    AcknowledgedLoop(f, start, 0, n);
    LastPassCases(f, start, 0);
    SendAfterLoop(l, f, verify);
    CompletedTrace(l, f, verify);
    var r := Session(l, f, verify);
    SameRounds(f.content, f.pos, r.report.outcome.blockCount, DataTimeoutMs, f.content, 0, n, DataTimeoutMs);
    assert LastPass(f, start) == [];
  }

  /** The programmer rejects the first block of a one-block file: the loop
      ends with an error and no block counted, and SEND is still written. */
  lemma SendFollowsRejectedBlock(l: LinkState, f: FileState, verify: bool)
    requires f.pos == 0 && f.badOffset.None? && |f.content| == BlockSize
    requires l.writes == [] && l.events == []
    requires l.replies == [Bytes([SRSP.Value()]), Bytes([ERRO.Value()])]
    ensures var r := Session(l, f, verify);
            var t := l.timeoutMs;
            r.report.outcome == Completed(Err(ProgrammerError), 0)
            && r.link.events == [Wrote(Encode(Begin(verify)), t), Awaited(t),
                                 Wrote(Encode(Data(f.content)), DataTimeoutMs), Awaited(DataTimeoutMs),
                                 Wrote(Encode(End), t)]
  {
    hide Encode, FromByte;
    var (l1, _) := Transmit(l, Encode(Begin(verify)));
    var (l2, _) := Response(l1);
    var l3 := l2.(timeoutMs := DataTimeoutMs);
    var p := Round(f, l3);
    assert f.content[0..BlockSize] == f.content;
    assert !Acknowledges(l3.replies[0]);
    assert p.end == Break(Err(ProgrammerError));
  }
}
