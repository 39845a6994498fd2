# Verified model of the never-fox network core

A Dafny model of the parts of the client where order, counting and concurrency decide whether it is correct,
with proofs about every run of them. `dafny verify dfyconfig.toml` checks all of it.

**QUIC keys** (the patched neqo `crypto.rs`). `CryptoDx` and `CryptoStates` give one key state and the connection's
set of them as values; `KeyStore` is the object that updates them in place, proved against those functions. `KeyRuns`
makes them a machine: installing keys, Retry and version confirmation, sending, receiving (select by phase, decrypt,
note an update, check overlap), forged packets, timers and the three ways to update. Its history records what was
accepted, what was sent and every turn of the keys. `ReadSide`, `SendSide`, `InitialSide`, `AeadBudget`,
`ReadBudget` and `KeyTurns` hold what is true of every run. `CryptoFrames` and `CryptoStreamTx` model how CRYPTO frames
are packed and sliced through the SNI.

**HTTP/2** (`h2conn.py`). `H2Frames` reads and writes frames; `H2Conn` is the connection as atomic steps, one for each
lock section; `H2Connection` is the object, with its loops, proved to take those steps. `H2Streams` shows that
multiplexing is invisible to a stream, `H2Life` how streams end, `H2Log` what a server makes of the wire, `H2Flow`
where the credit goes, `H2Slots` how reservations meet the limit on streams. `H2Teardown` breaks sends, the reader's
exit and `close` into their separate lock sections and unlocked accesses. `Pool` and `PoolSession` are the session's connection pool, `RateLimit` its per-host pacing.

**Byte-level readers.** `Wire` is the transport over arbitrary fragmentation. `ClientHello` specifies the parser and
masker of `hello_sink.py`, `HelloSink` has its loops, `TlsRecords` its reassembly. `HelloWriter` is an encoder of
ClientHello messages that knows nothing of the parser, and `HelloBlank` says what masking makes of its messages. `Http1`
is the buffered reader with chunked decoding. `Prelude` holds shared vocabulary.

Conventions. Keys, secrets and header protection are opaque and infallible, each derived secret is new, and AEAD
authenticates what it should; a forged packet costs an invocation. `debug_assert`s are not checks. A run ends at its
first error. Clocks, jitter, the sizes of received pieces, SNI search and HPACK blocks are parameters.

Where code and comment or intent disagree, the model follows the code, and lemmas show the case and say exactly when it
arises:

- a delayed packet under the old key can be refused although no number overlaps (`DelayedPacketRefused`,
  `DelayedPacketAccepted`);
- repeating the only packet of an epoch starts a rotation (`RepeatStartsRotation`, `CurrentKeyStartsRotation`), or puts a
  pending one off (`RepeatPostponesRotation`, `ReceiptSetsDeadline`);
- `auto_update` does not wait for an acknowledgement (`AutoUpdateUnacknowledged`, `AutoUpdateCondition`);
- confirming a version can take its Initial packet numbers back (`ConfirmTakesNumbersBack`, `GoesBackExactly`);
- read keys do not share the single limit that is meant for them (`SingleLimitBroken`, `SingleLimitExactly`);
- the chunk estimate falls short just above 2^14 and 2^30 bytes (`ChunkFallsShort`, `ChunkFallsShortExactly`);
- a ClientHello that breaks off is returned as far as it came (`InterruptionUnnoticed`);
- an HTTP/1.1 body that breaks off anywhere passes as complete, chunked (`TruncationUnnoticed`) or counted
  (`ShortBodyUnnoticed`);
- a header block longer than a frame is sent as one oversized frame (`OversizedBlockRefused`, `ServerReadsRequests`);
- late headers change an answer already given (`SettledHeadersMove`, `HeadersMoveExactly`);
- senders that acquire before others have sent can pass the peer's limit on streams (`LimitIsPassed`, `CoveredExactly`,
  `LimitPassedExactly`);
- a sender that checked `closed` in time can register a stream too late (`StragglerIsLeft`, `StragglersAreTheCleared`);
- the maker of a connection ignores its `acquire`, and can then write unprotected (`BargerIsUnprotected`,
  `FreedWriterHasNoReference`) and release what it does not hold (`BargingBreaksTheDrain`, `FreeUnderOwnerNeedsTheft`,
  `ReleaseCountsExactly`).

## Model

| member | source | states |
|---|---|---|
| `ReadSide.AcceptedNumbersFollowEpochs` | native/h3/files/neqo/neqo-transport/src/crypto.rs:657-701 | In every error-free run of key installation, receipts, forgeries, timers and updates, every packet number accepted under one read epoch is below every number accepted under a later one, in any order of arrival (section 6.4 of RFC 9001). |
| `ReadSide.EarlyNumbersComeFirst` | native/h3/files/neqo/neqo-transport/src/crypto.rs:1243-1262 | In every run, every 1-RTT number accepted is above every 0-RTT number accepted before the application read key was installed. |
| `ReadSide.ReachableInv` | native/h3/files/neqo/neqo-transport/src/crypto.rs:1326-1390 | The invariant behind it holds in every reachable state: ranges and minima of the two read keys, and that a used next key means a rotation timer is running. |
| `ReadSide.ReceiveCurrent` | native/h3/files/neqo/neqo-transport/src/crypto.rs:1378-1390 | A composite receipt under the current key keeps its epoch and minimum, covers the packet number, and leaves a used next key as it was. |
| `ReadSide.ReceiveNext` | native/h3/files/neqo/neqo-transport/src/crypto.rs:1326-1342 | A composite receipt under the next key leaves the current key alone, covers the packet number, and never moves the start of a used range. |
| `KeyRuns.WriteKeyMoves` | native/h3/files/neqo/neqo-transport/src/crypto.rs:1286-1342 | Outside key installation the write key stays or becomes the next on its ladder, and no other write key changes. |
| `KeyRuns.ReceiveMoves` | native/h3/files/neqo/neqo-transport/src/crypto.rs:1326-1342 | A receipt moves the write key by at most one step and touches no Initial or Handshake key. |
| `KeyTurns.EpochsStayInStep` | native/h3/files/neqo/neqo-transport/src/crypto.rs:1024-1048 | In every reachable state with read keys: next epoch is read epoch plus one, the write epoch is one of the two and the later one while a rotation is pending, and each phase bit selects exactly one read key, of that phase. |
| `KeyTurns.UpdatesWaitForRotation` | native/h3/files/neqo/neqo-transport/src/crypto.rs:1264-1342 | Over any run, write-key updates number at most read rotations plus one, and at least the read rotations, whatever triggered them. |
| `KeyTurns.LocalUpdatesWereAcknowledged` | native/h3/files/neqo/neqo-transport/src/crypto.rs:704-709 | Every self-initiated update followed an acknowledgement of a packet really sent under the key it left, or left the first application key with nothing acknowledged. |
| `KeyTurns.InitiateSucceedsExactly` | native/h3/files/neqo/neqo-transport/src/crypto.rs:1264-1284 | In every reachable state a self-initiated update succeeds if and only if no read timer runs, the write key is level with the read key, and a packet really sent under it was acknowledged, or it is the first key and nothing was. |
| `KeyTurns.TimerActsInTime` | native/h3/files/neqo/neqo-transport/src/crypto.rs:1352-1369 | In every reachable state a timer check rotates the read keys if and only if a rotation is pending and its time has come, drops 0-RTT read keys if and only if theirs has, and changes nothing before. |
| `KeyTurns.AutoUpdateCondition` | native/h3/files/neqo/neqo-transport/src/crypto.rs:1305-1315 | The automatic update fires exactly when the budget is nearly spent and the write key is not ahead of the read key, and fails with exhausted keys exactly when it is ahead; acknowledgements have no say. |
| `KeyTurns.AutoUpdateUnacknowledged` | native/h3/files/neqo/neqo-transport/src/crypto.rs:1305-1315 | A reachable state, past the first epoch and with nothing ever acknowledged, in which the automatic update moves the key while a self-initiated one is refused. |
| `KeyTurns.DelayedPacketAccepted` | native/h3/files/neqo/neqo-transport/src/crypto.rs:657-693 | Once the next key is in use, a delayed packet under the old key is accepted if and only if its number is inside the old range as frozen then and an invocation is left. |
| `KeyTurns.DelayedPacketRefused` | native/h3/files/neqo/neqo-transport/src/crypto.rs:657-693 | A reachable state in which a delayed packet below every number of the new epoch is refused: comment and code disagree. |
| `KeyTurns.CurrentKeyStartsRotation` | native/h3/files/neqo/neqo-transport/src/crypto.rs:696-701 | With no rotation pending, a packet under the current key starts one if and only if the key is past the first and the packet is first in its range or repeats (or precedes) the only one. |
| `KeyTurns.ReceiptSetsDeadline` | native/h3/files/neqo/neqo-transport/src/crypto.rs:1326-1342 | Under either read key, with or without a timer, an accepted packet sets the rotation deadline and ends 0-RTT if and only if the key is past the first and the packet is first in its range or repeats (or precedes) the only one; otherwise timer and 0-RTT keys stay. |
| `KeyTurns.RepeatPostponesRotation` | native/h3/files/neqo/neqo-transport/src/crypto.rs:1326-1342 | A reachable state with a rotation pending in which repeating the only packet under the next key moves the deadline, and would again. |
| `KeyTurns.RepeatStartsRotation` | native/h3/files/neqo/neqo-transport/src/crypto.rs:696-701 | A reachable state in which repeating one packet after a rotation moves the write key although the peer updated once. |
| `ReadSide.OnlyApplicationKeysTurn` | native/h3/files/neqo/neqo-transport/src/crypto.rs:696-701 | In every reachable state Initial, 0-RTT and Handshake keys keep epochs 0, 1 and 2, so no packet under them ever looks like a key update. |
| `SendSide.NoncesNeverRepeat` | native/h3/files/neqo/neqo-transport/src/crypto.rs:725-757 | In every run, over Initial, Handshake, 0-RTT and all 1-RTT keys, packets sent under one key have strictly increasing numbers, so no key meets a number twice. |
| `SendSide.AppNumbersAreConsecutive` | native/h3/files/neqo/neqo-transport/src/crypto.rs:1229-1241 | Application packet numbers are 0, 1, 2, … without gap or repeat across 0-RTT, 1-RTT and every update, unless 0-RTT was discarded; a number is in the current write key's range if and only if it was sent under that key. |
| `SendSide.InitialContinues` | native/h3/files/neqo/neqo-transport/src/crypto.rs:1100-1118 | Initial keys installed again by Retry, or unused at version confirmation, start exactly where their predecessors ended, range and minimum, in both directions (section 17.2.5.3 of RFC 9000). |
| `SendSide.ApplicationCipher` | native/h3/files/neqo/neqo-transport/src/crypto.rs:1200-1262 | In every run application keys of either direction use the cipher of the last handshake keys, and a secret of their own. |
| `SendSide.DiscardedKeysSendNothing` | native/h3/files/neqo/neqo-transport/src/crypto.rs:1179-1199 | After Initial, Handshake or 0-RTT keys are discarded nothing can be sent with them. |
| `InitialSide.InstallsExactly` | native/h3/files/neqo/neqo-transport/src/crypto.rs:1068-1127 | Installing Initial keys renews every listed version and no other: after its predecessor in both directions, or at the given minimum (and zero for reading) where it had none. |
| `InitialSide.InitialNumbersIncrease` | native/h3/files/neqo/neqo-transport/src/crypto.rs:1068-1127 | In every run the Initial packet numbers of a version strictly increase across every Retry, until Initial keys are dropped or confirming the version takes its numbers back. |
| `InitialSide.GoesBackExactly` | native/h3/files/neqo/neqo-transport/src/crypto.rs:1141-1157 | Version confirmation takes numbers back if and only if nothing was sent under the confirmed version's present keys and the original version is behind it. |
| `InitialSide.ConfirmTakesNumbersBack` | native/h3/files/neqo/neqo-transport/src/crypto.rs:1141-1157 | A reachable state in which it does. |
| `SendSide.RunKeepsInv` | native/h3/files/neqo/neqo-transport/src/crypto.rs:1141-1157 | Every event of a run keeps distinct secrets in distinct slots and every sent number below its key's next one. |
| `AeadBudget.WeightedBudgetHolds` | native/h3/files/neqo/neqo-transport/src/crypto.rs:574-606 | For every key ever used, the sum of weights 2^k of its packets is within the limit, and for every live write key, that sum plus what is left at the present weight. |
| `AeadBudget.AesGcmUseIsBounded` | native/h3/files/neqo/neqo-transport/src/crypto.rs:740-748 | An AES-GCM write key protects at most 2^28 packets and 2^39 bytes of body over any run (section 6.6 of RFC 9001). |
| `AeadBudget.ShortPacketsCostOne` | native/h3/files/neqo/neqo-transport/src/crypto.rs:725-757 | In every run, while no body under a live write key is longer than 2^11 bytes, packets sent plus invocations left are exactly 2^28, or 2^64 - 1 for ChaCha20-Poly1305. |
| `AeadBudget.FreshKeysHaveAll` | native/h3/files/neqo/neqo-transport/src/crypto.rs:574-591 | A write key just installed or derived has exactly that many invocations. |
| `AeadBudget.AdjustConserves` | native/h3/files/neqo/neqo-transport/src/crypto.rs:740-748 | The right shift of the remaining invocations never creates budget, whatever it rounds away. |
| `AeadBudget.AdjustLosesLessThanOne` | native/h3/files/neqo/neqo-transport/src/crypto.rs:740-748 | The right shift loses less than one packet of the new size, and nothing while the bit length stays. |
| `AeadBudget.EncryptConserves` | native/h3/files/neqo/neqo-transport/src/crypto.rs:725-757 | One encryption keeps spent weight plus remaining worth within the limit. |
| `AeadBudget.WeightBoundsUse` | native/h3/files/neqo/neqo-transport/src/crypto.rs:740-748 | Weight bounds both the packets and, times 2^11, the bytes protected. |
| `ReadBudget.ReadLimitHolds` | native/h3/files/neqo/neqo-transport/src/crypto.rs:574-606 | In every run each read key, 0-RTT or 1-RTT, is tried at most as often as its integrity limit allows, forged packets included, and a live key has no more left than remains of that (section 6.6 of RFC 9001). |
| `ReadBudget.ReadTriesAreBounded` | native/h3/files/neqo/neqo-transport/src/crypto.rs:574-591 | In numbers: at most 2^52 tries with an AES-128-GCM key, 2^36 with ChaCha20-Poly1305 and 2^64 - 1 with AES-256-GCM, over any run. |
| `ReadBudget.FreshKeysHaveAll` | native/h3/files/neqo/neqo-transport/src/crypto.rs:574-591 | A read key just installed, 0-RTT, application or next, has exactly that many tries. |
| `ReadBudget.SingleLimitExactly` | native/h3/files/neqo/neqo-transport/src/crypto.rs:615-625 | The single limit meant for all read keys of a ladder holds exactly for tries with keys that were still ahead, whatever rotates; all tries together stay within it if and only if those with current keys are covered by what the next key has left. |
| `ReadBudget.SingleLimitBroken` | native/h3/files/neqo/neqo-transport/src/crypto.rs:615-625 | A run in which one ladder is tried 2^36 + 1 times with ChaCha20-Poly1305. |
| `ReadBudget.ReceiptSpends` | native/h3/files/neqo/neqo-transport/src/crypto.rs:766-783 | A composite receipt costs the selected key one invocation and no other key any. |
| `ReadBudget.RotateKeepsInv` | native/h3/files/neqo/neqo-transport/src/crypto.rs:1352-1369 | Rotation and the derived next key, which copies the count, keep every key within its own limit. |
| `CryptoDx.UnusedContinues` | native/h3/files/neqo/neqo-transport/src/crypto.rs:657-677 | A state not used yet continues another without error, exactly where that one ended. |
| `CryptoDx.CryptoDxState.MarkInvoked` | native/h3/files/neqo/neqo-transport/src/crypto.rs:593-606 | Takes one invocation, or fails and changes nothing at zero. |
| `CryptoDx.CryptoDxState.ContinueFrom` | native/h3/files/neqo/neqo-transport/src/crypto.rs:657-677 | Continues another state's numbers; on overlap the minimum has moved and the range has not. |
| `CryptoDx.CryptoDxState.MarkUsed` | native/h3/files/neqo/neqo-transport/src/crypto.rs:680-693 | Extends the used range, or refuses a number below the minimum and changes nothing. |
| `CryptoDx.CryptoDxState.NextOf` | native/h3/files/neqo/neqo-transport/src/crypto.rs:615-640 | The successor state: next epoch, next key, range starting where this one ends. |
| `CryptoDx.CryptoDxState.AdjustBudget` | native/h3/files/neqo/neqo-transport/src/crypto.rs:740-748 | Shifts the remaining invocations by the growth in bit length of the largest body. |
| `CryptoDx.CryptoDxState.EncryptPacket` | native/h3/files/neqo/neqo-transport/src/crypto.rs:725-757 | Budget adjustment, invocation and use, with the same errors, as the step the runs take. |
| `CryptoDx.CryptoDxState.DecryptInPlace` | native/h3/files/neqo/neqo-transport/src/crypto.rs:766-783 | A packet that does not authenticate costs an invocation and nothing else; one that does is recorded. |
| `KeyStore.CryptoStates.Receive` | native/h3/files/neqo/neqo-transport/src/crypto.rs:1024-1048 | Select by phase, decrypt, note the peer's update, check overlap: succeeds exactly when the step of the runs does, with its state. |
| `KeyStore.CryptoStates.ReceiveUnder` | native/h3/files/neqo/neqo-transport/src/crypto.rs:1378-1390 | The same with the selected key: decrypt, note the update, check overlap. |
| `KeyStore.CryptoStates.AfterDecryption` | native/h3/files/neqo/neqo-transport/src/crypto.rs:1382-1390 | The update and overlap checks after every decryption. |
| `KeyStore.CryptoStates.SelectRx` | native/h3/files/neqo/neqo-transport/src/crypto.rs:1024-1048 | The exclusive-or lookup of the read key. |
| `KeyStore.CryptoStates.MaybeUpdateWrite` | native/h3/files/neqo/neqo-transport/src/crypto.rs:1286-1303 | Moves the write key only when it is level with the read key, and tells whether it did. |
| `KeyStore.CryptoStates.InitiateKeyUpdate` | native/h3/files/neqo/neqo-transport/src/crypto.rs:1264-1284 | Moves the write key if an acknowledgement allows it and no timer runs; otherwise blocked. |
| `KeyStore.CryptoStates.AutoUpdate` | native/h3/files/neqo/neqo-transport/src/crypto.rs:1305-1315 | Moves the write key near the end of its budget, or reports exhausted keys. |
| `KeyStore.CryptoStates.KeyUpdateReceived` | native/h3/files/neqo/neqo-transport/src/crypto.rs:1326-1342 | Follows the peer's update, drops 0-RTT read keys and starts the rotation timer. |
| `KeyStore.CryptoStates.CheckKeyUpdate` | native/h3/files/neqo/neqo-transport/src/crypto.rs:1352-1369 | On expiry drops 0-RTT read keys, or rotates the read keys and derives the next. |
| `KeyStore.CryptoStates.CheckPnOverlap` | native/h3/files/neqo/neqo-transport/src/crypto.rs:1382-1390 | While a timer runs, the next key continues the current one, or the connection fails. |
| `KeyStore.CryptoStates.SetApplicationWriteKey` | native/h3/files/neqo/neqo-transport/src/crypto.rs:1229-1241 | Installs the write key, continuing 0-RTT numbers. |
| `KeyStore.CryptoStates.SetApplicationReadKey` | native/h3/files/neqo/neqo-transport/src/crypto.rs:1243-1262 | Installs the read key and the next one, starting the timer when 0-RTT read keys linger. |
| `KeyStore.CryptoStates.SendApplication` | native/h3/files/neqo/neqo-transport/src/crypto.rs:949-972 | Protects one application packet with the key the space selects and its next number. |
| `KeyStore.CryptoStates.Init` | native/h3/files/neqo/neqo-transport/src/crypto.rs:1068-1127 | Installs Initial keys for each version, continuing those already there. |
| `KeyStore.CryptoStates.ConfirmVersion` | native/h3/files/neqo/neqo-transport/src/crypto.rs:1141-1157 | Continues the original version's Initial numbers in the confirmed one. |
| `CryptoFrames.VarintRoundTrip` | native/h3/files/neqo/neqo-transport/src/crypto.rs:1641-1665 | Variable-length integers read back (section 16 of RFC 9000). |
| `CryptoFrames.VarintIsShortest` | native/h3/files/neqo/neqo-transport/src/crypto.rs:1641-1665 | No shorter bytes read as the same integer. |
| `CryptoFrames.StandardExamples` | native/h3/files/neqo/neqo-transport/src/crypto.rs:1641-1665 | The examples of appendix A.1 of RFC 9000, one for each length. |
| `CryptoFrames.FrameInBytes` | native/h3/files/neqo/neqo-transport/src/crypto.rs:1641-1665 | A small CRYPTO frame in bytes: type 6, offset, length, data. |
| `CryptoFrames.CryptoRoundTrip` | native/h3/files/neqo/neqo-transport/src/crypto.rs:1641-1665 | A CRYPTO frame reads back with its offset and data (section 19.6 of RFC 9000). |
| `CryptoFrames.ChunkFits` | native/h3/files/neqo/neqo-transport/src/crypto.rs:1641-1665 | For every offset, length and space, the two-pass estimate yields a frame that fits and carries at least a byte of nonempty data. |
| `CryptoFrames.ChunkRefusedOnlyWhenFull` | native/h3/files/neqo/neqo-transport/src/crypto.rs:1641-1665 | Nothing is written if and only if not even one byte would fit. |
| `CryptoFrames.ChunkIsMaximal` | native/h3/files/neqo/neqo-transport/src/crypto.rs:1641-1665 | No fitting chunk is more than four bytes longer than the estimate, and below 2^14 bytes of space none is longer. |
| `CryptoFrames.ChunkFallsShortExactly` | native/h3/files/neqo/neqo-transport/src/crypto.rs:1641-1665 | A longer chunk would fit if and only if the room for length field and data is one or two bytes above 2^14, or one to six above 2^30, and at least that much data is there. |
| `CryptoFrames.ChunkFallsShort` | native/h3/files/neqo/neqo-transport/src/crypto.rs:1641-1665 | The two kinds of shortfall: 16381 bytes where 16383 fit, and 2^30 - 7 where 2^30 - 3 fit. |
| `CryptoFrames.LimitChunksCuts` | native/h3/files/neqo/neqo-transport/src/crypto.rs:1686-1712 | The two limited chunks are cut from the stream, disjoint, in order, and total at most the limit. |
| `CryptoFrames.LimitChunksExactly` | native/h3/files/neqo/neqo-transport/src/crypto.rs:1686-1712 | Which bytes go: everything if it fits; else the whole left half and the end of the right one, which then starts past the midpoint; else the beginning of the left half and the whole right one; else half the limit from the beginning of each. |
| `CryptoFrames.NoHalfCovers` | native/h3/files/neqo/neqo-transport/src/crypto.rs:1724-1732 | Neither chunk contains the whole SNI if it has two bytes or more; with fewer, the second can. |
| `CryptoStreamTx.FramesRoundTrip` | native/h3/files/neqo/neqo-transport/src/crypto.rs:1641-1665 | A packet's CRYPTO frames read back as written. |
| `CryptoStreamTx.PacketBuilder.WriteChunk` | native/h3/files/neqo/neqo-transport/src/crypto.rs:1641-1665 | Writes one frame with a prefix of the chunk, of the estimated length, or leaves the packet unchanged. |
| `CryptoStreamTx.PacketShare` | native/h3/files/neqo/neqo-transport/src/crypto.rs:1728-1730 | The share per packet is between one byte and the limit. |
| `CryptoStreamTx.ShareIsEven` | native/h3/files/neqo/neqo-transport/src/crypto.rs:1728-1730 | The share times the fewest packets that hold the total is within the total, and a share one byte larger is not. |
| `CryptoStreamTx.WriteTwo` | native/h3/files/neqo/neqo-transport/src/crypto.rs:1733-1736 | Two chunks, the later first; tokens name exactly the frames written. |
| `CryptoStreamTx.WriteSlice` | native/h3/files/neqo/neqo-transport/src/crypto.rs:1722-1736 | Cutting at the midpoint of the SNI: two disjoint frames from the run, neither with the whole SNI; where the left half fits a packet that cannot take everything, the byte at the midpoint waits for another packet; if only one frame fits, the packet has no room left for the whole SNI. |
| `CryptoStreamTx.WriteRun` | native/h3/files/neqo/neqo-transport/src/crypto.rs:1722-1744 | One turn's frames, sliced or not, come from the run; an unsliced one carries as much as fits, and nothing is written only where nothing fits. |
| `CryptoStreamTx.Book` | native/h3/files/neqo/neqo-transport/src/crypto.rs:1746-1758 | Marks exactly the written bytes as sent and pushes one token for each frame. |
| `CryptoStreamTx.Turn` | native/h3/files/neqo/neqo-transport/src/crypto.rs:1717-1759 | One turn keeps tokens, frames and sent bytes in step. |
| `CryptoStreamTx.SlicingTurn` | native/h3/files/neqo/neqo-transport/src/crypto.rs:1717-1759 | Once a slice has begun, no later turn of the packet can hold the whole SNI. |
| `CryptoStreamTx.WriteFrame` | native/h3/files/neqo/neqo-transport/src/crypto.rs:1714-1760 | The loop terminates; every token matches a frame carrying exactly those bytes of the stream; frames already in the packet stay; it stops only when nothing is unsent, a slice is complete or not one more byte fits; whatever the length of the stream, no frame of the packet holds the whole SNI. |
| `CryptoStreamTx.TokensAreDisjoint` | native/h3/files/neqo/neqo-transport/src/crypto.rs:1667-1683 | Tokens of one call name disjoint bytes, all unsent before. |
| `CryptoStreamTx.TxBuffer.MarkAsSent` | native/h3/files/neqo/neqo-transport/src/crypto.rs:1667-1683 | Marks a token's bytes as sent and no others. |
| `ClientHello.Normalize` | harness/hello_sink.py:132-142 | Zeroes exactly the random, session id, key exchange and ECH bytes. |
| `ClientHello.ParseIgnoresMasked` | harness/hello_sink.py:43-101 | Bytes that agree outside the masked regions parse to the same fields at the same offsets. |
| `ClientHello.NormalizePreservesStructure` | harness/hello_sink.py:132-142 | The normalized bytes of every well-formed message parse as the original does. |
| `ClientHello.NormalizeIsIdempotent` | harness/hello_sink.py:132-142 | Normalizing twice is normalizing once. |
| `ClientHello.EqualNormalForms` | harness/hello_sink.py:132-142 | Two well-formed messages have one normal form if and only if they differ only in masked bytes, and then every structural field is equal. |
| `HelloSink.ParseClientHello` | harness/hello_sink.py:43-101 | The offset-loop parser returns the fields, offsets and lists of the specification, or fails where it does. |
| `HelloWriter.WrittenIsReported` | harness/hello_sink.py:43-101 | A ClientHello written by an independent encoder from any version, random, session id, ciphers, compression and typed extensions is reported with exactly those values in those fields, and the key and ECH regions by position. |
| `HelloWriter.ReportWritten` | harness/hello_sink.py:43-101 | So does the offset-loop parser. |
| `HelloWriter.CutHeadFails` | harness/hello_sink.py:43-58 | Such a message cut anywhere before its extensions, and any message of another type, is not parsed. |
| `HelloBlank.NormalIsBlank` | harness/hello_sink.py:132-142 | Masking such a message gives exactly the message written with zeros for its random, session id, keys and ECH payload and everything else as it was. |
| `HelloBlank.OneNormalForm` | harness/hello_sink.py:132-142 | Messages written alike but for those have one normal form. |
| `HelloBlank.WrittenIsWellFormed` | harness/hello_sink.py:43-101 | Every message whose values fit their fields is well formed, so the laws of masking apply to it. |
| `HelloBlank.MaskWritten` | harness/hello_sink.py:132-142 | The masking loops, given the parser's report alone, produce that blank message. |
| `HelloSink.ReadAlpn` | harness/hello_sink.py:43-101 | The ALPN loop collects the names of the specification. |
| `HelloSink.ReadKeyShares` | harness/hello_sink.py:43-101 | The key share loop collects groups and regions of the specification. |
| `HelloSink.ReadBody` | harness/hello_sink.py:43-101 | The branch on the extension type, as specified. |
| `HelloSink.ReadExtension` | harness/hello_sink.py:43-101 | One extension adds its type, values and masked regions to the lists so far. |
| `HelloSink.ScanExtensions` | harness/hello_sink.py:43-101 | The extension loop gathers exactly what the specification finds. |
| `HelloSink.NormalizedHex` | harness/hello_sink.py:132-142 | The overwriting loop over recorded offsets computes the normal form. |
| `HelloSink.MaskRegions` | harness/hello_sink.py:132-142 | Overwriting the recorded regions zeroes exactly the masked bytes. |
| `HelloSink.ZeroRegions` | harness/hello_sink.py:132-142 | Zeroes the bytes in the regions and no others. |
| `TlsRecords.ReassemblyIsExact` | harness/hello_sink.py:145-165 | A message cut into records in any way, whatever follows, is received whole if and only if the first record holds four bytes; otherwise nothing is (section 5.1 of RFC 8446). |
| `TlsRecords.InterruptionUnnoticed` | harness/hello_sink.py:155-165 | A message that breaks off, at the end of the input or at a record of another type, is returned as far as it came; input that does not begin with a handshake record gives nothing. |
| `TlsRecords.ReceiveClientHello` | harness/hello_sink.py:145-165 | The loop returns what the function of the whole byte stream says, for every fragmentation. |
| `TlsRecords.ReadN` | harness/hello_sink.py:147-154 | Reads n bytes or all that are left, losing and reordering none. |
| `Http1.ChunkedRoundTrip` | never_fox/http1.py:62-72 | Decoding inverts chunked encoding for all cuts, size spellings, extensions and trailers, and leaves what follows (section 7.1 of RFC 9112). |
| `Http1.WrittenIsRead` | never_fox/http1.py:62-72 | In plain bytes: chunks with sizes in hexadecimal of either case, spaces around them and any extension are read back, and what follows is left. |
| `Http1.HexRoundTrip` | never_fox/http1.py:64-65 | Sizes written in hexadecimal digits of either case read back. |
| `Http1.DigitsExactly` | never_fox/http1.py:64-65 | A size is read if and only if every byte of it is a hexadecimal digit. |
| `Http1.TruncationUnnoticed` | never_fox/http1.py:64-71 | Wherever a well-formed encoding is cut, decoding succeeds with the data so far; that is the whole body if and only if the cut lies at or after the end of the last chunk's data. |
| `Http1.ShortBodyUnnoticed` | never_fox/http1.py:73-74 | A body with a Content-Length that breaks off passes as complete; it is complete if and only if every byte arrived. |
| `Http1.WholeBodyRead` | never_fox/http1.py:73-75 | A whole counted body is read and what follows left; a body up to the close is everything. |
| `Http1.Reader.ReadChunked` | never_fox/http1.py:63-72 | The loop over the buffered reader decodes the stream as specified, or fails where the specification does, through any time-outs short of 480 in a row. |
| `Http1.Reader.ReadBody` | never_fox/http1.py:61-75 | Chunked, counted or up to the close: the body the framing says, through any time-outs short of 480 in a row. |
| `Http1.Reader.ReadTrailers` | never_fox/http1.py:66-69 | Consumes lines to the first blank one, through any time-outs short of 480 in a row. |
| `Http1.Reader.ReadLine` | never_fox/http1.py:17-23 | The next line of the stream, however it arrives, through any time-outs short of 480 in a row. |
| `Http1.Reader.ReadExact` | never_fox/http1.py:25-30 | The next n bytes of the stream, or all that are left, through any time-outs short of 480 in a row. |
| `Http1.Reader.ReadAll` | never_fox/http1.py:32-36 | Everything that is left, through any time-outs short of 480 in a row. |
| `Http1.Reader.Fill` | never_fox/http1.py:10-15 | Moves bytes into the buffer and keeps the stream as a whole; adds nothing only at its end, short of 480 time-outs in a row. |
| `Wire.Transport.RecvN` | never_fox/_native.py:107-122 | Unless stopped, exactly the next n bytes or all that are left; never a byte lost, repeated or reordered. |
| `Wire.Transport.Recv` | never_fox/_native.py:93-105 | Rides out up to 479 time-outs in a row: a byte at least unless the stream has ended; 480 in a row, or one after reads were stopped, return nothing. |
| `Wire.Transport.Write` | never_fox/_native.py:81-91 | Everything is sent in order, or it fails and a prefix was. |
| `H2Frames.RoundTripIffFits` | never_fox/h2conn.py:23-24 | Reading inverts writing if and only if the length is below 2^24 and the identifier below 2^31. |
| `H2Frames.RoundTrip` | never_fox/h2conn.py:23-24 | A frame followed by anything reads back, leaving the rest. |
| `H2Frames.WholeFramesAreRead` | never_fox/h2conn.py:60-79 | From whole frames and part of another, exactly the whole ones are read. |
| `H2Frames.PartIsNoFrame` | never_fox/h2conn.py:60-79 | No proper prefix of a frame is read as a frame. |
| `H2Frames.ReadFramesFit` | never_fox/h2conn.py:70-72 | Whatever arrives, every frame read has a length and identifier within their fields. |
| `H2Frames.ReadFrame` | never_fox/h2conn.py:66-75 | One turn of the reader: the next whole frame or the break, also once reads are stopped. |
| `H2Frames.ReadFrames` | never_fox/h2conn.py:66-76 | For every fragmentation and any time-outs the loop sees the maximal prefix of whole frames; once reads are stopped, a prefix of them. |
| `H2Conn.Dispatch` | never_fox/h2conn.py:98-151 | Dispatching neither adds nor removes a stream and never reopens the connection. |
| `H2Conn.ReadLoopIsRun` | never_fox/h2conn.py:60-79 | The reader's whole loop is a run: one arrival for each frame, then the end of the input. |
| `H2Streams.RunsAlone` | never_fox/h2conn.py:89-151 | In every run whose peer keeps header blocks contiguous, a stream with its block under assembly is exactly what a machine of that one stream makes of its own frames, GOAWAY, the reader's exit and its caller's acts. |
| `H2Streams.NonInterference` | never_fox/h2conn.py:89-151 | Two runs that give a stream equal signals leave it equal: headers, body, byte count, outcome and future. |
| `H2Streams.StepSeen` | never_fox/h2conn.py:98-151 | One event changes a stream exactly as its signal does, and not at all without one. |
| `H2Streams.BodyIsPayloads` | never_fox/h2conn.py:105-128 | A body is the in-order DATA payloads of its stream, all of them while it is open; one that ends without error runs to END_STREAM. |
| `H2Streams.ErrorFreeBody` | never_fox/h2conn.py:176-187 | The same of the multiplexed connection. |
| `H2Life.ResultsAreFinal` | never_fox/h2conn.py:169-187 | Nothing later changes a finished stream's chunks, count or error, nor the body and status a future was settled with, for any peer. |
| `H2Life.DroppedStaysDropped` | never_fox/h2conn.py:176-180 | A future its caller drops before it is settled stays dropped, whatever arrives later. |
| `H2Life.HeadersMoveExactly` | never_fox/h2conn.py:89-96 | The header list, which a settled answer shares with its stream, changes with an event if and only if a frame completes a header block for a stream still in the table, finished or not. |
| `H2Life.SettledHeadersMove` | never_fox/h2conn.py:176-180 | A run in which a HEADERS frame after END_STREAM changes the headers of an answer already given. |
| `H2Life.RunKeepsInv` | never_fox/h2conn.py:169-187 | In every run: byte counts match bodies, settled futures tell the stream's outcome, a finished awaited stream has its callback queued or its future settled. |
| `H2Life.CapHolds` | never_fox/h2conn.py:120-128 | A capped stream without error holds at most its cap; any other exceeds it by no more than its last chunk. |
| `H2Life.CapFailsExactly` | never_fox/h2conn.py:120-126 | A stream fails for its size if and only if it has a cap and its body has passed it. |
| `H2Life.GoAwayFailsExactly` | never_fox/h2conn.py:138-147 | GOAWAY changes a stream if and only if it is unfinished and above the last identifier, and then fails it. |
| `H2Life.GoAwayAsWritten` | never_fox/h2conn.py:138-147 | A GOAWAY written from any last stream, error code and debug data changes a stream if and only if it is unfinished and above that last stream, and then fails it with that code. |
| `H2Life.ShortGoAwayFailsAll` | never_fox/h2conn.py:139-147 | A GOAWAY too short to name a stream fails every unfinished one, with code -1. |
| `H2Life.ClosedTakesNone` | never_fox/h2conn.py:190-199 | A closed connection registers no stream, whatever follows. |
| `H2Life.ReaderExitFinishesAll` | never_fox/h2conn.py:182-187 | With atomic sends: once the reader has gone every registered stream is done, for ever, and none is added. |
| `H2Log.ServerReadsRequests` | never_fox/h2conn.py:200-218 | For any interleaving, a server that insists on new odd identifiers, frame sizes and END_STREAM reads exactly the requests sent with their whole bodies, unless some header block exceeds one frame, and then it refuses. |
| `H2Log.OversizedBlockRefused` | never_fox/h2conn.py:208-212 | Every run of one request whose header block is too long for one frame is refused. |
| `H2Log.BytesCarryRequests` | never_fox/h2conn.py:200-218 | The same from the bytes after the preface, read whole or refused, while identifiers and lengths fit their fields. |
| `H2Log.RequestsAreNumbered` | never_fox/h2conn.py:200-202 | Requests are numbered 1, 3, 5, … in sending order (section 5.1.1 of RFC 9113). |
| `H2Log.WritesAreWhole` | never_fox/h2conn.py:115-137 | Each write under the send lock is one whole request or holds no part of any. |
| `H2Log.RequestServed` | never_fox/h2conn.py:204-218 | One request's frames are read as its header block and body, ended by exactly the last. |
| `H2Log.StepWritten` | never_fox/h2conn.py:111-137 | What each event appends to the wire, in the numbers of RFC 9113: credits, acknowledgements, and RST_STREAM with code 8. |
| `H2Log.AsksAreAnswered` | never_fox/h2conn.py:129-137 | In every run the PINGs read are echoed, each once, in order and with its payload, each SETTINGS frame read to its end is acknowledged once, and acknowledgements are not answered. |
| `H2Log.OpeningBytes` | never_fox/h2conn.py:38-57 | After the preface every connection writes these bytes: the four settings in order and a window increment of 0x00bf0001. |
| `H2Log.RequestInNumbers` | never_fox/h2conn.py:204-217 | A request in the numbers of RFC 9113: flags, the five priority bytes on the first stream alone, DATA frames of 16384 bytes. |
| `H2Flow.PeerWindowIsConserved` | never_fox/h2conn.py:105-128 | The peer's connection window is its initial value minus exactly the data dropped for unknown or finished streams (section 6.9 of RFC 9113). |
| `H2Flow.ConnectionCredit` | never_fox/h2conn.py:105-128 | Credit on the connection beyond the opening increment equals the data taken, after every event. |
| `H2Flow.StreamCredit` | never_fox/h2conn.py:116-117 | Credit on a stream equals the data it took in frames that left it open. |
| `H2Flow.FinishedGetsNoCredit` | never_fox/h2conn.py:108-119 | A finished stream gets no more credit, whatever comes. |
| `H2Flow.NoCreditAfterEnd` | never_fox/h2conn.py:116-128 | Neither the DATA frame with END_STREAM nor anything after it brings its stream credit. |
| `H2Flow.IncrementsAreLegal` | never_fox/h2conn.py:111-119 | Every increment ever sent is nonzero and below 2^31. |
| `H2Flow.CreditStep` | never_fox/h2conn.py:105-128 | One event grants what it takes: to the connection always, to a stream that stays open. |
| `H2Connection.Connection.constructor` | never_fox/h2conn.py:38-57 | The opening state, SETTINGS and window. |
| `H2Connection.PackRequest` | never_fox/h2conn.py:208-217 | The chunk loop builds the request's frames. |
| `H2Connection.Connection.Send` | never_fox/h2conn.py:190-219 | Registers, numbers and writes one request, or refuses on a closed connection. |
| `H2Connection.Connection.Cancel` | never_fox/h2conn.py:156-167 | RST_STREAM unless the connection is going away. |
| `H2Connection.Connection.CompleteBlock` | never_fox/h2conn.py:89-96 | Gives the assembled block to its stream, if there is one, and clears the assembly. |
| `H2Connection.Connection.TakeData` | never_fox/h2conn.py:105-128 | Delivers, credits, caps and ends, as the machine's step. |
| `H2Connection.Connection.TakeSettings` | never_fox/h2conn.py:129-134 | Walks the entries; false exactly where indexing would raise. |
| `H2Connection.Connection.TakeBlockPart` | never_fox/h2conn.py:99-104 | HEADERS starts a block over, CONTINUATION extends it. |
| `H2Connection.Connection.FailEach` | never_fox/h2conn.py:144-147 | The loop over the table fails exactly the unfinished streams above the bound. |
| `H2Connection.Connection.FailAll` | never_fox/h2conn.py:182-187 | Closes the connection and fails every unfinished stream. |
| `H2Connection.Connection.Dispatch` | never_fox/h2conn.py:98-151 | Every branch takes the machine's step; false exactly for a broken SETTINGS frame. |
| `H2Connection.Connection.ReadLoop` | never_fox/h2conn.py:60-79 | Over any fragmentation: dispatches every whole frame, or a prefix of them once reads are stopped, then fails what is left. |
| `H2Connection.Connection.Leave` | never_fox/h2conn.py:223-224 | Takes a stream out of the table. |
| `H2Connection.Connection.Close` | never_fox/h2conn.py:278-293 | Idempotent; closes, and fails what is left when the reader has gone. |
| `H2Teardown.DrainedIsQuiet` | never_fox/h2conn.py:253-276 | If every sender's acquire succeeded and a drain loop saw no references, no sender holds the connection then or ever after. |
| `H2Teardown.FreeWaitsForWriters` | never_fox/h2conn.py:267-276 | The context is freed during a write only where the bounded wait gave up; and at most one sender writes. |
| `H2Teardown.FreedExactlyOnce` | never_fox/_native.py:134-144 | With senders of any kind, reader, re-entrant close and closing thread interleaved in any way, the context is freed at most once, and once by the time the reader is dead. |
| `H2Teardown.CloseSweepsStragglers` | never_fox/h2conn.py:278-293 | A close that finds the reader dead leaves no stream unfinished, unless a wait gave up. |
| `H2Teardown.CloseTearsDown` | never_fox/h2conn.py:278-293 | A close that finds the reader alive leaves the teardown to it; one that finds it dead marks, fails, drains and returns. |
| `H2Teardown.DrainEndsExactly` | never_fox/h2conn.py:267-276 | The drain ends at the first of 400 looks that sees no reference, and gives up if and only if none of them does. |
| `H2Teardown.ClosedGainsNoOwners` | never_fox/h2conn.py:253-260 | Once a connection is closed or closing, nobody takes a reference, in any run. |
| `H2Teardown.RunHasClosed` | never_fox/h2conn.py:278-286 | In every run a close past its first step, of the closing thread or re-entrant in the reader, has closed the connection. |
| `H2Teardown.OpenGivesReference` | never_fox/h2conn.py:253-260 | On an open connection an idle thread takes one if and only if there is room. |
| `H2Teardown.StragglerIsLeft` | never_fox/h2conn.py:194-203 | A run in which a sender past its check registers a stream after the reader failed the rest: nobody finishes it. |
| `H2Teardown.StragglersAreTheCleared` | never_fox/h2conn.py:182-203 | In any run: after the streams were failed, by reader or close, and until they are failed again, the streams left undone are exactly those of senders past their check at that moment; none is left if and only if there was no such sender. |
| `H2Teardown.DeadReaderLeaves` | never_fox/h2conn.py:80-87 | With every acquire respected and a clean drain, what a dead reader leaves undone is exactly what was past its check when it failed the streams. |
| `H2Teardown.UnfinishedIsConserved` | never_fox/h2conn.py:190-203 | On a closed connection, streams not done plus senders about to register are conserved until someone fails the streams. |
| `H2Teardown.StreamLasts` | never_fox/h2conn.py:200-203 | While the reader reads, a stream is unfinished from the lock section that registers it to its response, which ends no other. |
| `H2Teardown.BargingBreaksTheDrain` | never_fox/client.py:307-310 | A run in which the maker of a connection, its acquire having failed for want of room, releases another's reference, and the context is freed while that one writes, no wait having given up. |
| `H2Teardown.BargerIsUnprotected` | never_fox/client.py:307-310 | A run, nothing stolen and no wait given up, in which the context is freed while that maker itself writes. |
| `H2Teardown.FreedWriterHasNoReference` | never_fox/h2conn.py:267-276 | If nothing was stolen and no wait gave up, a writer under whom the context was freed holds no reference. |
| `H2Teardown.HonestIsCounted` | never_fox/h2conn.py:253-265 | The count of references is right after every prefix of a run if and only if nobody in it releases a reference not held. |
| `H2Teardown.ReleaseCountsExactly` | never_fox/h2conn.py:262-265 | A release keeps the count of references right if and only if the sender holds one or the count is zero. |
| `H2Teardown.FreeUnderOwnerNeedsTheft` | never_fox/h2conn.py:267-276 | A context freed under a sender that holds a reference, no wait having given up, implies such a stolen reference in the run. |
| `H2Teardown.FreeWaitsForOwners` | never_fox/h2conn.py:262-276 | While a sender holds a reference and none was stolen, the context is freed only where the bounded wait gave up. |
| `H2Teardown.DrainedHasNoOwners` | never_fox/h2conn.py:253-276 | If no reference was stolen, a drain that saw none leaves nobody holding one, then or ever after. |
| `H2Teardown.RunKeeps` | never_fox/h2conn.py:190-293 | Every step that steals no reference keeps: the count is that of the senders holding one, a drained connection has none, teardown follows closing, one writer holds the lock. |
| `H2Streams.BlockIsAssembled` | never_fox/h2conn.py:89-104 | However a peer cuts a header block into HEADERS and CONTINUATION, its stream receives the block whole and once, and ends if it says so. |
| `H2Connection.SettingsAreRead` | never_fox/h2conn.py:129-133 | Every well-formed SETTINGS payload is read to its end, and its last MAX_CONCURRENT_STREAMS counts. |
| `H2Slots.CoveredExactly` | never_fox/h2conn.py:253-260 | While the peer does not lower its limit on streams, streams and reservations are within it at every moment of a run if and only if no `acquire` was granted for a place others had reserved. |
| `H2Slots.CoverLostExactly` | never_fox/h2conn.py:253-260 | One step leaves the limit if and only if it is such an `acquire`. |
| `H2Slots.LimitPassedExactly` | never_fox/h2conn.py:253-260 | In every reachable open state, the senders that have acquired take the table past the limit if and only if streams and reservations together exceed it. |
| `H2Slots.LimitIsPassed` | never_fox/h2conn.py:253-260 | A run in which a limit of one stream is passed. |
| `H2Slots.LoneSenderObeys` | never_fox/h2conn.py:253-260 | A sender that acquires while no other has sends within limit and identifiers, and does so if and only if they and an open connection allow it. |
| `Pool.PoolIsSound` | never_fox/client.py:245-314 | In every run: a key is being created if and only if exactly one thread connects for it; every connection made is in exactly one of a maker's hands, a list, the draining list or those taken for closing, once; only closed ones drain. |
| `Pool.SingleFlightStep` | never_fox/client.py:290-314 | Every step keeps single flight. |
| `Pool.StepConserves` | never_fox/client.py:245-278 | Every step keeps every connection in exactly one place. |
| `Pool.EvictConserves` | never_fox/client.py:245-249 | Eviction moves closed connections to the draining list and loses none. |
| `Pool.AskEvicts` | never_fox/client.py:290-296 | After a turn of `_get_conn` a connection is listed under the key if and only if it was and is not closed; the closed ones are draining. |
| `Pool.DeadAreNotReused` | never_fox/client.py:290-296 | In every run no connection whose reader has gone is listed after such a turn, so none is reused. |
| `Pool.ReapConserves` | never_fox/client.py:251-267 | Reaping and sweeping hand over each draining connection once. |
| `Pool.SweepTakesDead` | never_fox/client.py:262-270 | `_existing_conn` hands over exactly the draining connections whose reader is dead, and evicts in the same way. |
| `Pool.PublishConserves` | never_fox/client.py:308-309 | Publishing moves the new connection from its maker to one list. |
| `Pool.ClearConserves` | never_fox/client.py:462-469 | Closing the session takes every listed connection once. |
| `Pool.NothingIsLeft` | never_fox/client.py:462-469 | Reaping empties the draining list, and a closed session lists nothing: every connection there was is taken. |
| `Pool.FlightCompletes` | never_fox/client.py:290-314 | A flight for a key nobody connects for holds the key throughout, lists the new connection last, if there is one, and frees the key for the next. |
| `Pool.OthersMakeNothing` | never_fox/client.py:294-300 | Whoever reuses a connection, or finds its key being connected for, makes nothing. |
| `PoolSession.Pick` | never_fox/client.py:294-296 | The connection reused is a lightest usable one, and one is reused whenever one is usable. |
| `PoolSession.Session.EvictClosed` | never_fox/client.py:245-249 | The loop splits a list into kept and drained, in order. |
| `PoolSession.Session.TakeDraining` | never_fox/client.py:251-253 | Takes the draining list and leaves it empty. |
| `PoolSession.Session.Existing` | never_fox/client.py:262-274 | Sweeps and evicts as the machine's step; returns a lightest usable connection, and none if and only if none is usable. |
| `PoolSession.Session.GetTurn` | never_fox/client.py:291-301 | Creates if and only if nobody does and no listed connection is usable; otherwise reuses a lightest one or waits. |
| `PoolSession.Session.Add` | never_fox/client.py:308-309 | Publishes a connection. |
| `PoolSession.Session.Done` | never_fox/client.py:311-314 | Ends the flight for a key. |
| `RateLimit.ReleasesAreSpaced` | never_fox/client.py:108-118 | For every sequence of calls over all hosts and every jitter, n consecutive releases of a host span at least n − 1.3 intervals. |
| `RateLimit.StartsAreSpaced` | never_fox/client.py:113-114 | Reserved slots of a host are a whole interval apart, call by call. |
| `RateLimit.ReleaseNearStart` | never_fox/client.py:116-118 | A release is within 15% of an interval of its slot and never before the call. |
| `RateLimit.ReleaseIsJittered` | never_fox/client.py:116-118 | A release is its slot plus the interval times the jitter, or the call itself where that would be earlier. |
| `RateLimit.StartIsEarliest` | never_fox/client.py:113-114 | A slot is exactly as late as the backlog since some earlier call makes it: pacing does not drift. |
| `RateLimit.RateLimiter.constructor` | never_fox/client.py:103-106 | The interval is the inverse of a positive rate, and zero otherwise. |
| `RateLimit.RateLimiter.Delay` | never_fox/client.py:108-118 | With the history of calls: the caller goes on exactly at the release time the spacing laws speak of; no wait and no change when unlimited. |

## Left out

- ReadChunked: like ReadLine, ReadExact, ReadAll, ReadTrailers and Fill, stated for fewer than 480 time-outs in a row (and none after reads are stopped, which HTTP/1.1 never does); with more, `recv` reports an end that is none.
- ReceiveClientHello: stated while no read times out, because `readn` gives up at the first time-out; what was read until then is still in order.
- EncryptPacket: with SendApplication, packet body lengths start from the constant 2^11 that every constructor sets, and packet numbers are unbounded; the 62-bit and 64-bit widths are not modelled.
- ReaderExitFinishesAll: takes a send as atomic with respect to the reader's exit; `StragglersAreTheCleared` has the exact law without that.
- FreeWaitsForWriters: not absolute, because the wait for writers is bounded at 400 polls and `_rst` holds no reference.
- RunsAlone: with NonInterference, assumes a peer that sends nothing between HEADERS and its CONTINUATION frames; the code appends any CONTINUATION to the block under assembly.
- BytesCarryRequests: identifiers are limited to 2^31; the code stops numbering only through `acquire`.
- Receive: Initial and Handshake receipts, `maybe_continue_initial_rx` and the guard against the largest epoch are not modelled; 0-RTT receipts after the application read key is installed are not ordered against 1-RTT ones, which the code does not check.
- Transmit in the application space is a step only with a write key: `select_tx` itself does not look at the direction of 0-RTT keys.
- Status line and header parsing of HTTP/1.1, and a Content-Length that is no number.
- HPACK: decoded lists and decoding errors, and that decoder state stays in step when blocks of unknown streams are skipped; blocks are kept as received.
- Writes that fail inside `_dispatch` or `_send`, and an event loop that has gone when a callback is queued.
- Streams are values in a table; that caller and reader share one mutable object is represented by the table keeping popped streams.
- `max_connections_per_host`, which the pool never consults; and room in `H2Teardown`, which is a parameter there and modelled in `H2Slots`.
- Padding and priority in received frames, which the code ignores and takes for payload.
- Size spellings that Python's `int(x, 16)` accepts beyond hexadecimal digits with surrounding spaces, and sizes below zero.
- ClientHello messages with inconsistent inner lengths, beyond that the parser stops where indexing would raise.
- `TxBuffer`, SNI search, native TLS and socket calls: represented by their behaviour, not their code; acknowledgement and loss of CRYPTO data.
- Condition-variable wake-ups and time-outs in the pool: a waiting thread asks again at any time.
- JA3 and JA4, cookies, redirects, retries, header building, decompression, proxies, HTTP/3 subprocess, the asyncio front end and the build scripts: library calls, I/O, or code without further properties of its own.
