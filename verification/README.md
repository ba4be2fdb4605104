# ccloader uploader, modelled in Dafny

This project models the host side of the ccloader upload protocol. The host
sends a firmware image over a serial link to a programmer.

- The wire protocol lives in `src/protocol.rs`:
  - one-byte opcodes and their decoding;
  - the three frames the host builds, SBEGIN `[0x01, verify]`, SEND `[0x04]`
    and SDATA `[0x02] ++ payload ++ crc_hi ++ crc_lo`;
  - the reader of the programmer's one-byte answer.
- The upload session lives in `main` of `src/main.rs`. It:
  - counts the file's 512-byte blocks;
  - sends SBEGIN and requires SRSP;
  - raises the read timeout to 2000 ms;
  - sends the file block by block, each in an SDATA frame answered before the
    next block is read;
  - restores the timeout and sends SEND.
- The SDATA checksum is CRC-16/XMODEM: polynomial 0x1021, initial value 0,
  no reflection, no final XOR. It is defined bit by bit.

Modules:

- `Crc16` (`crc16.dfy`): the checksum, its big-endian split into two bytes,
  and the residue and check-value properties.
- `Io` (`io.dfy`): the two collaborators as scripted objects.
  - The serial link is `Link`. It keeps a log of events: the bytes each write
    took, and each read, both stamped with the read timeout at that
    moment. It follows a script of how many bytes each write takes and what
    each read returns.
  - The firmware file is `FirmwareFile`: the content, a cursor, and
    optionally one unreadable offset.
  - Each class reads out its state as a value (`State()`). That value's member
    functions say what one call does.
- `Protocol` (`protocol.dfy`):
  - the opcodes and the frame encoder;
  - the receiver's reading of a frame (`Decode`), the partner of the encoder;
  - `Transmit`/`Response`, which specify writing a frame and reading an
    answer;
  - the four protocol functions as methods of `Protocol` that take the `Link`
    they write to and read from, each proved to agree with those
    specifications;
  - `TransmitAsWritten`, the short-write report exactly as `send_sbegin` and
    `send_send` word it (see Findings).
- `Uploader` (`uploader.dfy`): the session.
  - `Round`, `DataLoop` and `Session` specify it on values. `Exchange` is the
    link half of one pass: the SDATA frame and the answer read after it.
  - The methods `Upload` and `SendBlocks` run it on the objects and are proved
    equal to `Session` and `DataLoop`.
- `UploadProperties` (`upload_properties.dfy`): what every session does.
  - The exact sequence of link events, with the blocks in file order and the
    timeout each event sees.
  - When SEND is written.
  - The results the loop can end with.
  - The all-acknowledged run.

The `expect` calls that panic become the `Aborted` outcome. The early return
after a non-SRSP answer to SBEGIN becomes `BeginRejected`.

Four behaviours of the code shape the model:

- the announced block count is `len / 512`, which leaves out a partial last block;
- the answer to SBEGIN and the answer to each block are read once each;
- SEND is written after a data loop that ends in an error too;
- a non-SRSP answer to SBEGIN ends the session without an error and without SEND.

## Model

| member | source | states |
|---|---|---|
| Crc16.Checksum | src/protocol.rs:77 | the CRC-16/XMODEM of a buffer (`CRC_16.checksum`, src/main.rs:32): the bytes fed most significant bit first into a register starting at 0, polynomial 0x1021; its properties are the lemmas below |
| Crc16.Join | src/protocol.rs:77-78 | reading two bytes big-endian gives back the same high and low byte |
| Crc16.SplitJoin | src/protocol.rs:78 | splitting a CRC into `(crc >> 8) & 0xFF` and `crc & 0xFF` and joining them gives the CRC back |
| Crc16.FoldAppend | src/main.rs:32 | the CRC of a concatenation continues from the register the first part leaves |
| Crc16.UpdateResidue | src/main.rs:32 | feeding a register its own two bytes, high first, clears it |
| Crc16.Residue | src/main.rs:32 | a buffer followed by its big-endian CRC-16/XMODEM has checksum 0 |
| Crc16.CheckValue | src/main.rs:29-32 | the CRC-16/XMODEM check value: the checksum of "123456789" is 0x31C3 |
| Io.LinkState.Write | src/protocol.rs:53 | a write consumes one write-script entry. An `Accept(limit)` entry takes exactly `min(limit, |buf|)` bytes, and an exhausted script takes all of them; what was taken is logged. Only a `Refuse(code)` entry fails, with `Os(code)`, and it logs nothing. The whole buffer is taken exactly when `TakesWhole` holds. Replies and timeout are unchanged |
| Io.LinkState.Read | src/protocol.rs:89 | a read logs one wait at the current timeout and consumes one scripted reply; it delivers that reply's bytes or its OS error, and times out when no reply is left |
| Io.Link.constructor | src/main.rs:57-61 | an opened port has an empty log, the given scripts and the given timeout |
| Io.Link.Write | src/protocol.rs:53 | the port's new state and result are exactly `LinkState.Write` of the old state |
| Io.Link.Read | src/protocol.rs:89 | the port's new state and result are exactly `LinkState.Read` of the old state |
| Io.Link.Timeout | src/main.rs:101 | returns the port's current read timeout |
| Io.Link.SetTimeout | src/main.rs:102-103 | changes the read timeout and nothing else |
| Io.FileState.Read | src/main.rs:108-109 | a read fails exactly when the unreadable byte is among the next `min(size, remaining)` bytes; it then gives EIO and leaves the file as it was. Otherwise it returns those bytes of the content and advances the cursor by that many |
| Io.FirmwareFile.constructor | src/main.rs:64-67 | an opened file has its cursor at 0 |
| Io.FirmwareFile.Length | src/main.rs:69-74 | the metadata length is the content's length |
| Io.FirmwareFile.Read | src/main.rs:109 | the file's new state and result are exactly `FileState.Read` of the old state |
| Protocol.OpCode.Value | src/protocol.rs:25-31 | decoding each opcode's wire value gives that opcode, UNKN = 0xFF included |
| Protocol.FromByte | src/protocol.rs:34-45 | the decoding is total; it gives UNKN exactly for 0x00 and bytes above 0x05, and SRSP exactly for 0x03 |
| Protocol.FromByteValue | src/protocol.rs:25-45 | a byte that decodes to a defined opcode is that opcode's wire value |
| Protocol.Encode | src/protocol.rs:48-85 | SBEGIN is 2 bytes with the verify flag second, SEND 1 byte, SDATA `|payload| + 3` bytes with the payload unchanged between the opcode and the CRC; the first byte decodes to the frame's opcode |
| Protocol.DataFrameChecksum | src/protocol.rs:77-78 | the two trailing bytes of an SDATA frame, read big-endian, are the CRC-16/XMODEM of its payload |
| Protocol.DecodeEncode | src/protocol.rs:48-85 | the programmer reads every frame the host builds as that frame |
| Protocol.EncodeDecode | src/protocol.rs:71-85 | a byte string the programmer accepts is exactly the encoding of the frame it reads |
| Protocol.DataFrameResidue | src/protocol.rs:74-78 | the CRC over everything after the opcode of an SDATA frame, checksum included, is 0 |
| Protocol.Transmit | src/protocol.rs:53-56 | writing a frame succeeds exactly when the link takes all of it. A refused write passes the OS error on. A partial write is an incomplete-write error naming the bytes taken and the frame's length |
| Protocol.Response | src/protocol.rs:87-99 | a failed read is passed on; an empty read is "connection closed"; otherwise the answer is the decoded first byte, and further bytes are ignored |
| Protocol.SendSbegin | src/protocol.rs:48-58 | writes `[0x01, verify]` through the link, with `Transmit`'s result |
| Protocol.SendSend | src/protocol.rs:60-69 | writes `[0x04]` through the link, with `Transmit`'s result |
| Protocol.SendSdata | src/protocol.rs:71-85 | writes the SDATA frame of `data`, whatever its length, with `Transmit`'s result |
| Protocol.ReadResponse | src/protocol.rs:87-99 | performs one read on the link, with `Response`'s result |
| Protocol.TransmitAsWritten | src/protocol.rs:53-67 | the write-and-check of `send_sbegin` and `send_send` as the code has it: success exactly when the link takes the whole frame, a refused write passes the OS error on, and a short write reports `IncompleteWrite(taken, 1000)`, the scratch buffer's length |
| Protocol.ShortWriteMisreported | src/protocol.rs:53-67 | for SBEGIN and SEND, the code as written and `Transmit` leave the link in the same state. Their results differ exactly on a short write, where the code as written names 1000 expected bytes instead of the frame's length |
| Uploader.BlockCount | src/main.rs:74 | `blocks * 512 <= len < blocks * 512 + 512` |
| Uploader.BoundaryWarning | src/main.rs:75-77 | the warning is given exactly when the whole blocks do not cover the file |
| Uploader.Exchange | src/main.rs:124-140 | if the link takes the whole SDATA frame, the frame and one read are logged and the pass ends as `AnswerEnd` of the read script; otherwise the send panics, with the OS error or the short-write error. The timeout is kept |
| Uploader.AnswerEnd | src/main.rs:127-139 | how the programmer's next scripted answer ends a pass: it counts the block exactly when the answer decodes to SRSP; every other answer (a rejection, a failed or empty read, or no answer before the timeout) breaks the loop with an error other than an incomplete read, and none panics |
| Uploader.Round | src/main.rs:106-140 | one pass of the loop, case by case on the file read. At the end of the file it ends with Ok and leaves everything as it was. A read that hits the unreadable byte ends with that EIO error and writes nothing. A partial block ends with an incomplete-read error and writes nothing. For a whole block, the cursor moves 512 bytes. If the link takes the whole SDATA frame of the next 512 file bytes, one frame and one read are logged and the pass ends as the answer decides; otherwise it panics with the write's error. The file content and the link's timeout are kept |
| Uploader.DataLoop | src/main.rs:105-142 | the loop keeps the file content; the count never decreases and its blocks fit in the file |
| Uploader.Session | src/main.rs:74-157 | the session keeps the file content and announces `len / 512` blocks; the blocks a completed session counts fit in the file |
| Uploader.Upload | src/main.rs:74-157 | the session run on the port and the file ends in exactly the report, port and file that `Session` gives |
| Uploader.SendBlocks | src/main.rs:105-142 | the loop run on the port and the file ends exactly as `DataLoop` from a count of 0 |
| UploadProperties.Rounds | src/main.rs:108-133 | `k` acknowledged round trips are `2k` events, all at the given timeout |
| UploadProperties.LastPass | src/main.rs:106-142 | the loop's last, unacknowledged pass logs at most two events, at the loop's timeout |
| UploadProperties.LoopTrace | src/main.rs:106-142 | the loop's log is the counted blocks, consecutive from the cursor and in file order, each one SDATA write then one read, followed only by the last pass; the timeout is left as it was |
| UploadProperties.LastPassCases | src/main.rs:110-140 | the cases of the block after the counted ones. The loop ends Ok exactly when the counted blocks cover the whole file, and then writes nothing more. If that block's read hits the unreadable byte, the loop ends with EIO and writes nothing. If it is partial, the loop ends with an incomplete-read error and writes nothing. If it is whole and readable and the loop does not panic, it was sent and answered once, not counted, and the loop ends with an error. A rejected block or a panic happens only on a whole, readable block |
| UploadProperties.SendAfterLoop | src/main.rs:86-154 | a session completes exactly when SBEGIN is taken whole, answered with SRSP, the loop does not panic and SEND is taken whole, whether the loop succeeded or failed. It then reports the loop's result and count, SEND is the last write, at the restored timeout |
| UploadProperties.CompletedTrace | src/main.rs:86-154 | a completed session's log is SBEGIN and its answer at the original timeout, then the counted blocks from the start of the file and the last pass at 2000 ms, then SEND at the original timeout, which the link keeps |
| UploadProperties.BeginNotAcknowledged | src/main.rs:86-96 | the session stops after SBEGIN exactly when SBEGIN is taken and the first answer decodes to something other than SRSP. Then it writes no SDATA and no SEND, and leaves the file untouched |
| UploadProperties.AcknowledgedLoop | src/main.rs:106-142 | with every write taken and `k` acknowledgements, the loop counts the `k` remaining blocks and ends Ok at the end of the file |
| UploadProperties.AllAcknowledged | src/main.rs:86-154 | a link that takes every write and acknowledges everything, and a file of exactly `n` blocks: the log is SBEGIN, `n` SDATA round trips carrying the file in order, then SEND. The count is `n`, as announced, with no warning |
| UploadProperties.SendFollowsRejectedBlock | src/main.rs:127-154 | when the programmer rejects the only block, the loop ends with an error and a count of 0, and SEND is still written |

## Left out

- Command-line parsing and opening and configuring the serial port (baud rate, 8N1, DTR). These are library calls; the model starts from an opened `Link`, and its initial timeout is a parameter.
- Opening the file and reading its metadata. The model starts from an opened `FirmwareFile`.
- Printing: the progress lines, the warning text and the stdout flush. `BoundaryWarning` gives only whether the warning is printed.
- Panics from `expect` are the `Aborted` outcome. The process does not end in the model; nothing else happens after an abort.
- `set_timeout` cannot fail in the model. The real call can, and its failure panics.
- Real time: the timeout is a stored number stamped on each event. A read with no scripted reply left is a timeout.
- The `crc` crate's table-driven implementation. The checksum is the bit-by-bit definition the table is derived from.
- The 1000-byte scratch buffers. A scripted reply longer than 1000 bytes is delivered whole; only its first byte matters either way. Their length appears only in the finding below.
- Io.FileState.Read: a read returns fewer bytes than asked only at the end of the file. Short reads in the middle of a regular file are not modelled.
- Protocol.SendSbegin: on a short write the error names the frame's length, 2, as the expected count, where the code names 1000 (see Findings; `TransmitAsWritten` is the code as written).
- Protocol.SendSend: on a short write the error names the frame's length, 1, as the expected count, where the code names 1000 (see Findings).
- Uploader.SendBlocks: `block_count` is an `i32` in the source and would overflow only past 2^31 blocks (a terabyte file). The count is unbounded here.
- `Protocol.Decode` is the programmer's side of the frame format. The source does not contain it; it is the reference the encoder is proved against.

## Findings

| source | as written | input that shows it | evidently intended | confidence | as-written member | corrected member |
|---|---|---|---|---|---|---|
| src/protocol.rs:55, src/protocol.rs:66 | on a short write, `send_sbegin` and `send_send` report `expected {serial_buf.len()}`, which is 1000, the scratch buffer's length | a link that takes 1 byte of SBEGIN: the error says "wrote 1 expected 1000"; one that takes none of SEND: "wrote 0 expected 1000" | the frame's length, 2 for SBEGIN and 1 for SEND, as `send_sdata` reports | high; not executed | Protocol.ShortWriteMisreported | Protocol.Transmit |
