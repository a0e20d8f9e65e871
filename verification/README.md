# Poseidon HTTP client: a verified model

A Dafny model of the parts of the client where correctness depends on several operations, several goroutines or both ends of a connection, with proofs over every input, every run and every reachable state.

The modules follow the program.

- **Flow control.** `ReceiveWindows`, `ReceiveProtocol` and `ReceiveSide` hold the receive windows, their refunds and the window tuner; `ReceiveTargets` bounds the windows by their targets, and `LateData` has the runs in which they come apart. `SendCredit` and `SendProtocol` hold the send windows and the peer's SETTINGS, and `SendRefinement` shows that the object takes the protocol's steps. All window arithmetic goes through explicit 32- and 64-bit conversions (`FixedWidth`), and the proofs show that none of them wraps. Each protocol module joins the client to a peer through two queues and quantifies over every interleaving.
- **Sending DATA.** `DataFrames` says what it means to cut a payload into frames. `DataSend` holds the cursor over many buffers, the loop that waits for credit and the loop that has it all. `DataBatch` sends many requests under one hold of the write lock.
- **Pooled streams.** `StreamLifecycle` is the stream struct and its critical sections. `StreamRuns` is the state machine of every goroutine that can hold the struct, over all its lifetimes. `StreamInvariant` proves its invariant, `StreamFrames` what each step leaves alone, `StreamIsolation` and `StreamRegistry` draw the consequences and `StreamSlots` puts many structs on one connection with its two counters. `StreamProgress` proves what the runs owe, `StreamOutcomes` what single sections decide. `StreamStruct` is the struct as an object.
- **Connection pools.** `H1Pool` and `H3Pool` are the actors' handlers, `H1PoolRuns` and `H3PoolRuns` their runs, `H1PoolActor` and `H3PoolActor` the objects; `H1PoolOutcomes` and `H3PoolOutcomes` say what each handler decides, and `PoolReplies` is what they owe their callers.
- **Field blocks.** `FrameCodec`, `HeaderBlocks` and `HeaderTransfer` write a block as HEADERS and CONTINUATION octets and read it back.
- **Huffman strings.** `BitStrings`, `Huffman`, `HuffmanDecoding`, `HuffmanMachine` and `HuffmanTable`: the 64-bit accumulator, the meaning of a code, the nibble-driven decoder, and the table of RFC 7541. The first four hold for every table with the properties they name; the last proves that the client's table has them.
- **gRPC framing, responses, group commit.** `GrpcFraming`, `ResponseFields`, `ResponseEvents`, `ResponseAcceptance`, `GroupCommit`.

An operation the program performs by changing state is a method on a class, or a loop, whose contract ties it to a function of the old state; the lemmas are about those functions. Time, the network, other goroutines and random choices are parameters: a clock reading is the answer it gives to the question asked (in the backoff or not), a transport write succeeds or fails, a peer is a sequence of actions.

## What the proofs found

Some statements one would expect, or that comments in the code make, do not hold of the code as it is. The model keeps the code. For each there is a condition under which the statement does hold, and where it is about runs a concrete run that shows it fail.

- **A queued pool request can be left with nothing to wake it.** Both pools read the backoff clock once to decide on a dial and once more to decide whether to refuse (`client/h1_pool.go:328-396`, `client/h3_pool.go:256-298`). If the backoff ends in between, neither happens; a comment calls that branch unreachable. The HTTP/3 pool also loses the wake-up when its last dial brings a connection that is already dead, because only the failing arm refuses the stranded (`client/h3_pool.go:302-325`), although its own comment asks for that after every dial decision. `WakeUpLostExactlyWhen`, in both pools, says exactly when, of the pool before the step.
- **A lowered initial window can race a frame that already has its credit.** Credit is taken before the write lock (`conn/datav.go:334-352`). If a SETTINGS frame that lowers the initial window is applied and acknowledged in between, the frame reaches the peer beyond what it now allows (`SendProtocol.AcknowledgedDecreaseOverruns`). It cannot happen while each frame is still covered when it goes out (`PeerNeverOverrun`), for which a window suffices that is at least what strayed into it (`NonNegativeCovers`; see the next point). `OverrunsExactlyWhen` has the exact condition, both ways.
- **Credit can go to the next request.** A WINDOW_UPDATE looks a struct up under one lock and raises its window under another, and asks neither for the id nor for the generation in between (`conn/conn.go:1482-1500`). If the stream ends and the struct is opened again meanwhile, the increment goes to the next request (`StreamIsolation.LateCreditCrosses`), which then sends beyond what the peer allows it although its window was never negative and no SETTINGS is about (`SendProtocol.StrayCreditOverruns`). `CreditsAnotherExactlyWhen` and `CreditStraysExactlyWhen` say exactly when; `WindowsAreExact` counts what strays, in and out, and a window is exact if and only if the two are equal.
- **A struct can be pooled after a reset.** The comment at `conn/conn.go:2231-2236` says only cleanly completed streams are pooled. A reset whose lookup preceded the eviction can land after the decision. `StreamIsolation.RecycledWhenDone` proves that this is the only way, and isolation holds all the same.
- **A sender can find its writer gone.** `conn/stream.go:820-826` reads the writer after unlocking. `WriterLostOnlyAfterClose` proves that this needs the application to have closed the handle during the send.
- **A late frame can act on the next request.** The reader looks a struct up and then reads its fields in several critical sections (`conn/handler.go:194-212`). DATA that arrives after END_STREAM is never delivered, to anyone. But if the struct changes hands between the lookup and the refusal, it is the next request whose window is charged and whose id the stream error names. `ChargesAnotherExactlyWhen`, `BlamesAnotherExactlyWhen` and `BlamedIsReset` have the exact conditions. If that request has its id by then, it is reset (`LateDataResetsTheNext`). If it has none, the error names stream 0 and comes to nothing, and the request goes on with a window that is short (`StreamIsolation.LateDataShortensTheNext`). What that does to flow control is in `ReceiveProtocol`: below the refund threshold a peer that keeps to its windows is told FLOW_CONTROL_ERROR on the next stream (`LateData.LateDataShortensTheNext`), and from the threshold on the increment is written for stream 0, so that the peer counts connection credit we never gave (`LateData.LateDataCreditsTheConnection`). Both ends agree throughout a run if and only if every late charge is of no bytes, or falls on a struct in nobody's use with room for it, and with nothing to give back unless it is to a closed stream whose ledger at the peer stays within 2^31-1 (`AgreesExactlyWhenHarmless`); with a peer that sends no DATA on a stream it has ended they always do (`PunctualPeerAgrees`). An event's id in `received` is the id it was announced under; what a reset was caused by is in `blamed`.
- **A stream can start above its target.** One would expect a receive window, with the bytes owed to it, never to exceed the target it is refilled to. On the connection it never does (`ReceiveTargets.ConnStaysWithinTarget`). But what a struct owes is cleared when it is recycled (`conn/stream.go:504`) and not when it is allocated (`conn/conn.go:606-618`). Late DATA that is charged in between stays owed, so the next request starts at the advertised window with that much owed on top (`LateData.LateDataExceedsTheTarget`). Both ends still agree; the next refund gives back less than it counts as spent (`RefundCoversSpentExactlyWhen`). `WithinExactlyUnlessBrought` and `WindowsWithinTargetsExactlyWhen` have the exact condition, and with a peer that sends no DATA on a stream it has ended every window is within its target throughout (`PunctualWindowsWithinTargets`).
- **Isolation needs two promises.** It is proved for runs in which no field block sent after END_STREAM is delivered (the code has no guard for those, `conn/handler.go:434-486`) and the application runs at most one HEADERS or END_STREAM send of a handle at a time. `LateBlockCrosses` and `TwoSendsCross` show that both are needed, `BlockCrossesExactlyWhen` and `HeadersCrossExactlyWhen` when each step goes wrong.
- **A stream can stay registered for good.** Close on a request without an id releases its slot (`conn/conn.go:2307-2319`). If a HEADERS send that was already past its door gives it an id around that time, the registry keeps an entry that nothing evicts (`StreamRegistry`).
- **`AppendMessagePrefix` does not always append.** Its comment says it appends; with fewer than five spare bytes it replaces what the buffer held (`grpc/framing.go:53-60`). The client only passes empty buffers.
- The comment on the sweep handler (`client/h1_pool.go:798-819`) says every connection reported dead is still in the pool. A probe failure can find it already evicted; the proofs cover that case and nothing depends on the comment.

## Model

| member | source | states |
|---|---|---|
| `ReceiveWindows.StreamThresholdRefundable` | conn/conn.go:777-785 | every advertised window from 1 up has a threshold its own window can pay: half of it, rounded down, from 2 to 65535, and 32768 from 65536 on |
| `ReceiveWindows.DebitIsBalanced` | conn/conn.go:1194-1255 | a frame is accepted exactly when it fits; an accepted one leaves the accounts balanced, no 32-bit step wraps, and its refund is zero below the threshold and otherwise the legal increment that restores the window to its target; a window that with the bytes owed is within its target stays so, and its refund is at least all that was spent |
| `ReceiveWindows.RefundCoversSpentExactlyWhen` | conn/conn.go:1234-1255 | a refund gives back all that it counts as spent if and only if the window with the bytes owed was within its target |
| `ReceiveWindows.StartIsValid` | conn/conn.go:1223-1233 | for every advertised window in 1..2^31-1 and any static connection window the connection starts balanced and within its target |
| `ReceiveWindows.StartTargets` | conn/conn.go:1223-1233 | the first connection target is the handshake value while the tuner owns it, and else the static size if larger, up to 2^31-1 |
| `ReceiveWindows.CeilingIs` | conn/windowtuner.go:93-112 | the tuner's ceiling is what was asked for or what one stream's channel can hold, brought within the floor and 64 MiB, the floor winning |
| `ReceiveWindows.AckKeepsValid` | conn/windowtuner.go:93-182 | a probe's answer only ever raises the two targets, keeps every account balanced, and disturbs no window |
| `ReceiveWindows.AckRaisesTargets` | conn/windowtuner.go:145-182 | with a sample outstanding each target becomes the larger of itself and the smaller of the ceiling and twice the bytes sampled; the wait for the next goes back to its minimum if and only if one of them moved, and else is doubled up to its maximum; without a sample nothing changes |
| `ReceiveWindows.SampleCounts` | conn/windowtuner.go:116-121 | over any frames a sample counts every byte until it is closed, and asks for nothing |
| `ReceiveWindows.ProbeAskedExactlyWhen` | conn/windowtuner.go:122-129 | without one a probe is asked for with the first frame that fills the wait, and a new sample starts at nothing |
| `ReceiveWindows.ProbeCanFail` | conn/windowtuner.go:133-136 | a probe that was not written leaves the tuner as ready for the next as before it |
| `ReceiveWindows.OpenAsKeepsValid` | conn/conn.go:570-618 | a new stream starts at the advertised window and keeps the accounts balanced, whatever its struct still owes; if that is nothing it starts within its target |
| `ReceiveWindows.EvictKeepsValid` | conn/conn.go:2210-2286 | forgetting a stream keeps the accounts of the others balanced |
| `ReceiveWindows.ConnOnlySettles` | conn/conn.go:1269-1278 | DATA for a stream that is gone is settled on the connection alone, exactly when it fits there: what was charged and not refunded is what left the window |
| `ReceiveWindows.DataSettles` | conn/conn.go:1124-1185 | DATA is settled on both windows exactly when it fits both; each window moves by the charge less the increments written for it, every increment is legal, and no other stream is touched |
| `ReceiveWindows.OverrunsAreCharged` | conn/conn.go:1124-1164 | a frame that overruns its stream is settled on the connection all the same, with its refund; one that overruns the connection is charged there and nothing given back |
| `ReceiveWindows.TunerSeesSettledData` | conn/conn.go:1166-1184 | the tuner sees exactly the DATA that is settled on a stream |
| `ReceiveProtocol.StepInv` | conn/conn.go:1124-1278 | every step of the two-party protocol, with late DATA looked up, checked, charged, refunded and refused in steps of their own, keeps our windows equal to the peer's view plus what is in flight and on hand, a late charge if it does no harm |
| `ReceiveProtocol.RunInv` | conn/conn.go:1124-1278 | every run in which late charges do no harm keeps the same, over any interleaving of DATA, WINDOW_UPDATE, resets, promises, evictions, recycling and probes |
| `ReceiveProtocol.NoFlowControlError` | conn/conn.go:1124-1278 | in every such run, with a peer that keeps to its own view of the windows, both ends agree on every window and neither raises a flow-control error |
| `ReceiveProtocol.ChargeAgreesExactlyWhenHarmless` | conn/conn.go:1124-1185 | after a late charge both ends agree if and only if it was of no bytes, or its struct was in nobody's use and had room for it, and what it gives back, if anything, is for a closed stream and keeps the peer's ledger of it legal |
| `ReceiveProtocol.AgreesExactlyWhenHarmless` | conn/conn.go:1124-1278 | over every run both ends agree throughout if and only if every late charge was so |
| `ReceiveProtocol.PunctualPeerAgrees` | conn/handler.go:189-216 | with a peer that sends no DATA on a stream it has ended they agree throughout every run, whatever the client does |
| `ReceiveProtocol.RefundAgreesExactlyWhen` | conn/conn.go:1311-1333 | the increments for a late frame leave the connection's accounts equal if and only if there is none for the struct or the struct has an id |
| `ReceiveProtocol.DataAfterEndInv` | conn/handler.go:194-197 | DATA after the peer's END_STREAM that finds the stream's own struct is settled on the connection alone, the stream is reset, and both ends still agree |
| `ReceiveProtocol.PeerNeverStalled` | conn/conn.go:1124-1255 | in every run in which late charges do no harm, whenever nothing is in flight or on hand the peer may send on the connection and on every open stream, with half the advertised window or more |
| `ReceiveTargets.ConnStaysWithinTarget` | conn/conn.go:1194-1255 | in every run at all, until the first error, the connection window with the bytes owed to it is within its target and a refund gives back at least all that was spent; there is no error while late charges do no harm, and no harm with a punctual peer |
| `ReceiveTargets.WithinExactlyUnlessBrought` | conn/conn.go:606-618 | from a state in which every window with the bytes owed to it is within its target, a step leaves it so if and only if it does not allocate a struct that owes more than the target exceeds the advertised window by |
| `ReceiveTargets.WindowsWithinTargetsExactlyWhen` | conn/conn.go:1124-1255 | over every run in which late charges do no harm every window is within its target throughout if and only if no step allocates such a struct |
| `ReceiveTargets.PunctualWindowsWithinTargets` | conn/conn.go:1124-1255 | with a peer that sends no DATA on a stream it has ended every window is within its target throughout every run |
| `LateData.LateDataShortensTheNext` | conn/handler.go:194-212 | for every advertised window from 2 to 32767, without auto-tuning, and every late frame below its refund threshold: a run in which the next request goes on with a short window and a peer within its own is told FLOW_CONTROL_ERROR |
| `LateData.LateDataCreditsTheConnection` | conn/conn.go:1132-1167 | for the same windows and every late frame from the threshold up to the window: a run that writes its increment for stream 0, after which the connection's accounts differ |
| `LateData.LateDataExceedsTheTarget` | conn/stream.go:445-521 | for the same windows and every late frame below the threshold: a run, without harm, after which the next request starts above its target by as much |
| `ReceiveSide.RecvWindowTuner.OnData` | conn/windowtuner.go:116-129 | counts towards the sample and asks for a probe as prescribed |
| `ReceiveSide.RecvWindowTuner.ProbeFails` | conn/windowtuner.go:133-136 | a probe that was not written ends the sample |
| `ReceiveSide.Receiver.DebitConnRecv` | conn/conn.go:1194-1213 | the connection window is charged by the balanced arithmetic, with its refund and its overrun |
| `ReceiveSide.Receiver.WriteWindowUpdatePair` | conn/conn.go:1311-1333 | writes the stream's and the connection's increment, each only if it is not zero |
| `ReceiveSide.Receiver.DebitStreamRecv` | conn/conn.go:1132-1150 | the stream window is charged by the same arithmetic, and no other stream is touched |
| `ReceiveSide.Receiver.FeedTuner` | conn/conn.go:1166-1184 | the tuner is fed and the probe it asks for is written; one that cannot be written ends the sample and is no error |
| `ReceiveSide.Receiver.ReceiveData` | conn/conn.go:1124-1185 | moves the whole receiving side as OnDataReceived prescribes, errors included |
| `ReceiveSide.Receiver.AccountConnOnly` | conn/conn.go:1269-1278 | settles DATA of a stream that is gone |
| `ReceiveSide.Receiver.DeliverProbeAck` | conn/windowtuner.go:145-182 | a probe's answer raises the targets as prescribed |
| `ReceiveSide.Receiver.Register` | conn/conn.go:606-618 | registers a stream with the advertised window, in a struct with what that still owes |
| `ReceiveSide.Receiver.Evict` | conn/conn.go:2268-2286 | forgets a stream |
| `SendCredit.Acquire` | conn/conn.go:1406-1449 | a grant is empty exactly when the smaller window does not exceed the padding; otherwise it is all that was wanted or all that is left, and both windows cover it with its padding |
| `SendCredit.Sender.Open` | conn/conn.go:929-948 | seeds a stream with the peer's current initial window |
| `SendCredit.Sender.TryAcquireAll` | conn/conn.go:1349-1376 | both windows pay the whole amount exactly when nothing stops the writer and both cover it, or neither is touched; what stopped it is reported |
| `SendCredit.Sender.AcquireOnce` | conn/conn.go:1387-1449 | takes one grant from both windows, or nothing; what stops the writer is reported before any window is looked at, and nothing wraps |
| `SendCredit.Sender.OnWindowUpdate` | conn/conn.go:1469-1490 | each outcome exactly when: a credit for the connection is applied exactly when the window stays within 2^31-1; one for a stream finds its struct, or the stream is gone or was never opened; nothing else changes |
| `SendCredit.Sender.CreditStruct` | conn/conn.go:1491-1500 | the struct that was found, whichever stream it serves now, is raised exactly when its window stays within 2^31-1, and no other |
| `SendCredit.Sender.Drop` | conn/conn.go:2283-2285 | a stream that leaves the registry takes its window with it, and no other |
| `SendCredit.Sender.CheckValues` | conn/conn.go:1559-1578 | accepts exactly the settings whose values are in range |
| `SendCredit.Sender.Merge` | conn/conn.go:1634-1652 | merges the pairs, the last initial window winning, unless one is above 2^31-1 |
| `SendCredit.LastInitialWins` | conn/conn.go:1634-1652 | the last initial window in a SETTINGS frame wins, and without one it stays |
| `SendCredit.Sender.Shift` | conn/conn.go:1657-1675 | moves every open stream by the same amount, or stops part-way at one that would pass 2^31-1 |
| `SendCredit.Sender.ApplyPeerSettings` | conn/conn.go:1614-1693 | the three outcomes, each exactly when; when applied, every open stream keeps its distance from the initial window |
| `SendProtocol.StepKeeps` | conn/conn.go:1349-1504 | every step, with the window read and debited in two and a WINDOW_UPDATE looked up and applied in two, keeps each open stream's window at initial plus granted minus taken, plus and minus what strayed, or ends the connection |
| `SendProtocol.RunKeeps` | conn/conn.go:1349-1693 | every run keeps the same, until the connection ends |
| `SendProtocol.WindowsAreExact` | conn/conn.go:1349-1504 | in every run each open stream's window is the current initial window plus the increments received minus the credit taken, plus and minus what strayed through its struct, so it is exact if and only if these are equal; it is within 2^31-1 of zero, and the connection's is exact and within 0..2^31-1 |
| `SendProtocol.CreditStraysExactlyWhen` | conn/conn.go:1482-1500 | an increment raises another stream's window if and only if the struct looked up has been opened for that one since, and there is room |
| `SendProtocol.DebitStraysExactlyWhen` | conn/conn.go:1406-1449 | a debit falls on another stream's window if and only if the struct has been opened for that one since the reading, and then no frame goes out for it |
| `SendProtocol.PeerNeverOverrun` | conn/conn.go:1349-1462 | in every run in which each frame is still covered when it goes out, the peer receives no byte beyond what it has granted, on any stream or the connection |
| `SendProtocol.OverrunsExactlyWhen` | conn/conn.go:1387-1462 | of a frame that goes out with nothing too much before it, the peer sees an overrun if and only if the frame is beyond the largest initial window not yet acknowledged away plus the credit given; when both ends agree on the stream, if and only if our own windows no longer cover it |
| `SendProtocol.DrainExact` | conn/datav.go:338-358 | what is in flight overruns when the peer receives it if and only if some frame of it is not welcome as it stands |
| `SendProtocol.NonNegativeCovers` | conn/conn.go:1387-1462 | a window that is at least what strayed into it when its frame goes out is enough for the frame to be covered |
| `SendProtocol.AcknowledgedDecreaseOverruns` | conn/datav.go:330-358 | a run that overruns: credit is taken, a lowered initial window is applied and acknowledged, and only then the frame goes out |
| `SendProtocol.StrayCreditOverruns` | conn/conn.go:1482-1500 | a run that overruns with no window ever negative and no SETTINGS in flight: a credit looked up for a stream that ends lands on the next |
| `SendRefinement.OpenStep` | conn/conn.go:929-948 | opening a stream on the object is the protocol's step |
| `SendRefinement.DropStep` | conn/conn.go:2268-2286 | so is dropping one |
| `SendRefinement.TakeStep` | conn/conn.go:1387-1449 | a grant is the protocol's reading and debit, possible exactly when the protocol allows it; without one nothing has happened |
| `SendRefinement.TakeAllStep` | conn/conn.go:1349-1376 | so is credit for a whole body |
| `SendRefinement.CreditStep` | conn/conn.go:1469-1490 | a WINDOW_UPDATE, up to the lookup, is the protocol's step, and ends the connection exactly when that does |
| `SendRefinement.LandStep` | conn/conn.go:1491-1504 | so is raising the struct that was found, whichever stream it serves |
| `SendRefinement.SettingsStep` | conn/conn.go:1614-1693 | so is a change of the initial window |
| `DataFrames.CutIsFaithful` | conn/datav.go:271-368 | frames carry the payload's own bytes in order from its start, none empty or over the limit; they end the stream exactly when asked to and complete; they cost payload plus padding |
| `DataFrames.CutAllIsFaithful` | conn/datav.go:464-480 | with all the credit the whole payload goes out in as few frames as the limit allows, the last alone ending the stream |
| `DataFrames.CountIsCeil` | conn/datav.go:433 | the number of frames computed by division is the number the loop writes |
| `DataFrames.PaidInFull` | conn/batch.go:370-371 | the credit taken in advance is exactly what the frames cost |
| `DataFrames.FullGrantsCutAll` | conn/datav.go:324-368 | a send granted full frames every time writes the frames of a send that had all its credit |
| `DataSend.Grant` | conn/conn.go:1428-1449 | one turn grants at least a byte, no more than is left or fits, and both windows cover it |
| `DataSend.SentIsCut` | conn/datav.go:324-368 | the frames of the waiting loop are the payload cut by its grants, however it was split into buffers |
| `DataSend.Effective` | conn/batch.go:336-346 | payload and padding fill a frame exactly, with room for a byte at least |
| `DataSend.DataVec.Single` | conn/datav.go:73-77 | a cursor over one buffer has all of it left |
| `DataSend.DataVec.Vector` | conn/datav.go:60-69 | a cursor over many has their concatenation left |
| `DataSend.DataVec.NextSingle` | conn/datav.go:88-98 | hands out the next bytes of the one buffer |
| `DataSend.DataVec.Advance` | conn/datav.go:101-115 | one turn of the walk: past a spent buffer, or a piece of the current one |
| `DataSend.DataVec.Walk` | conn/datav.go:100-117 | pieces that make up the next bytes, short only when nothing is left |
| `DataSend.DataVec.Next` | conn/datav.go:87-118 | the pieces join to the next n bytes, or all that is left, and the cursor moves by exactly those |
| `DataSend.Measure` | conn/datav.go:60-69 | the total length, refused exactly when it overflows a 64-bit integer |
| `DataSend.EmitFrame` | conn/datav.go:234-256 | a frame over the next n bytes; the cursor is never short of them, so the underrun error is unreachable |
| `DataSend.TakeAndEmit` | conn/datav.go:330-352 | one grant becomes one frame of its size |
| `DataSend.SendGranted` | conn/datav.go:309-368 | what is out and what is to come stay the frames of the whole send, and what is out has been paid |
| `DataSend.SendLoop` | conn/datav.go:309-368 | the frames written are those of the send; the credit taken is exactly what they cost, plus the one grant of a stream found gone when its frame was to go out, if there was one |
| `DataSend.WriteDataVec` | conn/datav.go:271-368 | an empty payload is at most a bare END_STREAM without credit; any other is the send loop at the limit sampled at the start |
| `DataSend.EmitAll` | conn/datav.go:464-480 | the committed loop writes the whole rest in full frames |
| `DataSend.EmitBody` | conn/batch.go:367-396 | all of the body exactly when nothing stops the writer and both windows cover every frame with its padding, paying its cost; otherwise neither window nor cursor is touched |
| `DataSend.TakeForBody` | conn/datav.go:433-442 | the whole cost of a body is asked for at once, and paid by both windows or by neither |
| `DataSend.WriteFused` | conn/datav.go:406-482 | HEADERS and body in one write exactly when both windows cover every frame, which they then pay; short of that nothing is paid and the two writes are left to do it; only a stream found gone after the HEADERS has paid for frames that do not go out, and for exactly those |
| `DataBatch.JudgeIsExact` | conn/batch.go:235-310 | every verdict both ways: a sound entry is accepted if and only if its body is empty, or the stream may go on and both windows cover the body with the padding of each frame, and the transport takes it; it lacks credit if and only if that cover alone is missing |
| `DataBatch.WireIsWhole` | conn/batch.go:258-303 | an accepted entry is on the wire whole: HEADERS first if it has fields, DATA that carries its body, all on its stream, and END_STREAM on the last frame if it was asked for and on no other |
| `DataBatch.SendEntry` | conn/batch.go:235-303 | the entry's verdict; an accepted one is written whole and charged exactly, one refused at its door writes nothing, one without credit at most its HEADERS, and no window moves but for DATA written; of a sound entry that the transport takes, accepted and short of credit each exactly when |
| `DataBatch.SendEach` | conn/batch.go:174-190 | entries are judged in turn, each by what those before it left in the windows, until the first fatal one |
| `DataBatch.FillRest` | conn/batch.go:181-187 | every entry after a fatal one carries its error |
| `DataBatch.Retire` | conn/batch.go:202-206 | the streams retired are those accepted with END_STREAM |
| `DataBatch.SendBatch` | conn/batch.go:153-208 | every entry has the verdict it deserves or the fatal one before it; without a fatal one the windows paid for exactly what is on the wire |
| `StreamStruct.Pooled.TrySend` | conn/stream.go:654-659 | puts the event in the channel exactly when there is room |
| `StreamStruct.Pooled.AnnounceReset` | conn/stream.go:668-678 | a reset goes in the channel or is signalled beside it |
| `StreamStruct.Pooled.EndByReset` | conn/stream.go:348-370 | ends both sides and closes, exactly when the struct still names the stream |
| `StreamStruct.Pooled.PushLocked` | conn/stream.go:654-681 | enqueues, or on overflow closes and announces a reset, starting the wire reset once |
| `StreamStruct.Pooled.EndInOrBesideChannel` | conn/stream.go:560-568 | an empty terminal frame is enqueued or signalled, never an overflow |
| `StreamStruct.Pooled.Deliver` | conn/stream.go:542-568 | delivery and the remote end in one section, with the outcome of each case |
| `StreamStruct.Pooled.ResetForReuse` | conn/stream.go:445-521 | drains the channel, clears every field, and moves the generation |
| `StreamStruct.Pooled.Recycle` | conn/stream.go:406-414 | resets, or leaves the reset to a reader that is inside |
| `StreamStruct.Pooled.EnterRecv` | conn/stream.go:862-886 | admits a reader exactly when it presents the live, unreleased lifetime |
| `StreamStruct.Pooled.LeaveRecv` | conn/stream.go:419-428 | the last reader out resets exactly when that was left to it |
| `StreamStruct.Pooled.CloseHandle` | conn/stream.go:966-1028 | the outcome of each case and the flags it leaves |
| `StreamStruct.Pooled.MarkDone` | conn/conn.go:2217-2225 | claims the eviction exactly once, when both sides have ended |
| `StreamStruct.Pooled.MeetClose` | conn/conn.go:2238-2246 | hands the recycling to whichever of it and Close comes second, unless the stream was reset |
| `StreamInvariant.StepKeeps` | conn/stream.go:348-521 | every critical section of every goroutine that can hold the struct keeps the invariant: one right to recycle, no pinned holder beside it, events and ids of the one lifetime |
| `StreamInvariant.ReachableInv` | conn/stream.go:348-521 | that invariant holds in every reachable state |
| `StreamProgress.CloseAbandonsExactlyWhen` | conn/stream.go:966-1028 | a Close that takes effect abandons the stream, and so has RST_STREAM written, if and only if it was neither reset nor ended by both sides; it recycles the struct if and only if the connection was done with it and it was not reset |
| `StreamProgress.OtherClosesDoNothing` | conn/stream.go:966-979 | a Close of another lifetime's handle, or a second one, changes nothing |
| `StreamProgress.StepOwing` | conn/conn.go:2210-2319 | every critical section keeps what is owed: a stream that is over has its slot back or somebody on the way to give it back, and one whose slot is back without a reset has one party that will recycle it |
| `StreamProgress.ClosedStreamsReturnSlots` | conn/conn.go:2268-2319 | in every run a stream that is over, and so every stream whose handle the application has closed, has given its slot back or there is a task that will |
| `StreamProgress.OwedSlotComesBack` | conn/conn.go:2268-2319 | that task needs at most two steps of its own |
| `StreamProgress.CleanStreamsReturnStructs` | conn/conn.go:2230-2262 | in every run a stream that ended without a reset, whose slot is back, has exactly one party that will recycle its struct or leave that to Close |
| `StreamProgress.NewHandlesWork` | conn/conn.go:606-618 | in every run a struct from the pool serves its new handle and no other: a send and a receive of that are let in, as on a stream nothing has happened to |
| `StreamOutcomes.DoorsAdmitExactly` | conn/stream.go:704-886 | a send is let in exactly when its handle is of this lifetime, the stream is not pushed, and was neither reset nor ended by us; a receive exactly when its handle is of this lifetime and not closed |
| `StreamOutcomes.DeliveryDecides` | conn/stream.go:542-568 | what is delivered is in the channel, or was an end without payload and is signalled beside it, or the stream is reset |
| `StreamOutcomes.DeliveryGoesOn` | conn/stream.go:654-681 | only the overflow that resets the stream announces it and starts the RST_STREAM; END_STREAM has the stream retired |
| `StreamOutcomes.ResetsAreTold` | conn/stream.go:348-370 | a reset that lands on the stream it names, one after an overflow and the end of the connection are each in the channel or signalled; one for another stream changes nothing |
| `StreamOutcomes.EventsAreTakenInOrder` | conn/stream.go:888-950 | events are taken in the order they were put in, one at a time |
| `StreamOutcomes.ErrorsAreWritten` | conn/conn.go:530-549 | a stream error is told to the peer whether or not the stream is still registered, unless it names none |
| `StreamOutcomes.AbandonedIsReset` | conn/conn.go:2307-2319 | a stream that Close abandons is reset at the peer if it has an id, and else only gives its slot back |
| `StreamOutcomes.SendsAreWritten` | conn/conn.go:885-948 | HEADERS go out under the stream's id, given to it if it has none; DATA only for the lifetime of the handle; END_STREAM leads to the local end |
| `StreamOutcomes.DataIsAdmittedExactly` | conn/handler.go:194-212 | DATA is charged unless the stream has ended, and delivered if a response has begun and its declared length was met |
| `StreamIsolation.PooledOnce` | conn/stream.go:406-441 | in every run the struct is live or in the pool, never both and never twice; in the pool it is as good as new and only senders and retirements of past lifetimes still name it |
| `StreamIsolation.RecycledWhenDone` | conn/conn.go:2230-2262 | a struct goes back only with both sides ended, its slot released, evicted, closed by the application and held by nobody; it was reset exactly when the reset landed after the recycle was decided |
| `StreamIsolation.PooledAfterReset` | conn/conn.go:2230-2262 | a run in which a struct is pooled after a reset: the peer's reset, looked up before the eviction, lands between the decision and the reset of the struct |
| `StreamIsolation.LifetimesAreIsolated` | conn/stream.go:445-521 | no handle ever puts a frame on the wire, or receives an event, of another lifetime's id, and no two lifetimes share an id; peers that send DATA after END_STREAM included |
| `StreamIsolation.LateDataIsNotDelivered` | conn/handler.go:194-216 | DATA is delivered to the lifetime it was looked up for, and DATA sent after END_STREAM to none |
| `StreamIsolation.ChargesAnotherExactlyWhen` | conn/conn.go:1124-1150 | the window that pays for a DATA frame is another lifetime's if and only if the struct has changed hands since the lookup, and that is exactly when the frame is late |
| `StreamIsolation.CreditsAnotherExactlyWhen` | conn/conn.go:1482-1500 | the window a WINDOW_UPDATE raises is another lifetime's if and only if the struct has changed hands since the lookup, and only if the peer had ended the stream |
| `StreamIsolation.BlamesAnotherExactlyWhen` | conn/handler.go:194-212 | the stream error for a refused frame names another stream if and only if the struct has changed hands since the lookup; only a late frame finds that, and it names the request served now, or none |
| `StreamIsolation.BlamedIsReset` | conn/conn.go:530-549 | the request so named is reset if and only if it is still registered under that id |
| `StreamIsolation.LateDataResetsTheNext` | conn/handler.go:194-212 | a run of late DATA that charges the next request's window and resets it, though nobody closed it and no frame named it |
| `StreamIsolation.LateDataShortensTheNext` | conn/handler.go:194-212 | a run of late DATA that charges the next request before it has an id: the stream error names stream 0, and the request goes on, registered and open |
| `StreamIsolation.LateCreditCrosses` | conn/conn.go:1482-1500 | a run in which a WINDOW_UPDATE raises the send window of the next request |
| `StreamIsolation.BlockCrossesExactlyWhen` | conn/handler.go:434-486 | a field block is delivered to another lifetime if and only if the struct has changed hands since the lookup and its channel has room; only a block sent after END_STREAM finds that |
| `StreamIsolation.LateBlockCrosses` | conn/handler.go:434-486 | a run in which the next request receives such a block as its response: the hypothesis on the peer is needed |
| `StreamIsolation.HeadersCrossExactlyWhen` | conn/conn.go:885-916 | a HEADERS send past its door writes under another lifetime's id if and only if the struct has changed hands |
| `StreamIsolation.TwoSendsCross` | conn/conn.go:885-948 | a run of two HEADERS sends of one handle in which that happens: the hypothesis on the application is needed |
| `StreamRegistry.StuckExactlyWhen` | conn/conn.go:2268-2319 | a stream whose slot is back stays registered if and only if Close, having found no id, releases it after a HEADERS send registered it, or such a send registers it after that release |
| `StreamRegistry.StuckStays` | conn/conn.go:2210-2286 | once that has happened nothing evicts the stream or recycles its struct |
| `StreamRegistry.StreamCanStick` | conn/stream.go:966-1028 | a run in which it happens: Close races the first HEADERS send |
| `StreamIsolation.WriterLostOnlyAfterClose` | conn/stream.go:820-826 | a sender that reads its writer after latching its end finds it gone exactly when the struct is in the pool, and then its handle has been closed |
| `StreamIsolation.WriterCanBeLost` | conn/stream.go:820-826 | a run in which it finds it gone: Close overlaps the send |
| `StreamSlots.StepSlot` | conn/conn.go:2268-2319 | a step gives back a slot exactly when its code charges a counter for it, and the right counter |
| `StreamSlots.SlotsAreExact` | conn/conn.go:2268-2319 | in every run the two counters equal the requests and the pushed streams that still have their slot, and the guards against going below zero never act |
| `StreamSlots.IdsNameOneRequest` | conn/conn.go:929-948 | in every run an id names one lifetime of one struct, and the next id none |
| `H1PoolActor.Actor.PickIdle` | client/h1_pool.go:538-554 | the first idle, live, unreserved connection |
| `H1PoolActor.Actor.CountConns` | client/h1_pool.go:851-859 | counts live connections, or reserved idle ones |
| `H1PoolActor.Actor.ReplyConn` | client/h1_pool.go:519-521 | commits a connection to a request |
| `H1PoolActor.Actor.ReplyError` | client/h1_pool.go:519-521 | refuses a request |
| `H1PoolActor.Actor.Serve` | client/h1_pool.go:585-597 | serves waiters in order while a connection is idle |
| `H1PoolActor.Actor.RefuseWaiters` | client/h1_pool.go:388-395 | refuses every waiter |
| `H1PoolActor.Actor.PruneExpiredWaiters` | client/h1_pool.go:865-876 | drops the expired, each with its reply |
| `H1PoolActor.Actor.EvictUnless` | client/h1_pool.go:605-672 | keeps exactly the connections the criterion keeps |
| `H1PoolActor.Actor.EnsureDial` | client/h1_pool.go:328-348 | dials for the uncovered waiters within the budget |
| `H1PoolActor.Actor.FlushStranded` | client/h1_pool.go:373-396 | refuses all exactly when nothing could serve them |
| `H1PoolActor.Actor.Acquire` | client/h1_pool.go:245-284 | moves the pool as HandleAcquire prescribes |
| `H1PoolActor.Actor.TakeBack` | client/h1_pool.go:291-300 | takes a connection back, or evicts it |
| `H1PoolActor.Actor.Release` | client/h1_pool.go:291-305 | moves the pool as HandleRelease prescribes |
| `H1PoolActor.Actor.DialSucceeded` | client/h1_pool.go:432-443 | a dialled connection joins and waiters are served |
| `H1PoolActor.Actor.DialFailed` | client/h1_pool.go:400-431 | a failed dial refuses the last waiter it was for, then dials or refuses for the rest |
| `H1PoolActor.Actor.StartSweep` | client/h1_pool.go:738-756 | reserves every idle connection for the probe, once at a time |
| `H1PoolActor.Actor.Tick` | client/h1_pool.go:465-476 | moves the pool as HandleTick prescribes |
| `H1PoolActor.Actor.ReportStats` | client/h1_pool.go:446-454 | reports after evicting the dead |
| `H1PoolActor.Actor.ClearReservations` | client/h1_pool.go:798-808 | releases the reservations of the sweep |
| `H1PoolActor.Actor.SweepFinished` | client/h1_pool.go:798-819 | moves the pool as HandleSweepDone prescribes |
| `H1PoolActor.Actor.Close` | client/h1_pool.go:479-503 | every waiter is refused and nothing is left |
| `H1PoolRuns.AcquireServed` | client/h1_pool.go:245-252 | a request served at once finds nobody waiting |
| `H1PoolRuns.StepKeeps` | client/h1_pool.go:245-503 | every handler keeps the pool sound, and with steady clocks the wake-up owed |
| `H1PoolRuns.ExclusiveWithinBudget` | client/h1_pool.go:245-348 | in every run live connections and dials stay within the budget, each connection has at most one holder and none while it is probed, and nobody waits beside an idle one |
| `H1PoolRuns.OneReplyEachInOrder` | client/h1_pool.go:245-305 | in every run each request accepted is waiting or has had one reply, grants go out in arrival order, and after Close all have had exactly one |
| `H1PoolRuns.WakeUpOwed` | client/h1_pool.go:328-396 | in every run a waiter is owed a dial, a sweep or a release throughout if and only if LosesWakeUp holds of no step: up to the first such step, and no further |
| `H1PoolRuns.WakeUpLostExactlyWhen` | client/h1_pool.go:328-396 | a step loses it exactly when the backoff ends between its two clock readings, with nothing else left to call the actor back |
| `H1PoolRuns.ReleaseExact` | client/h1_pool.go:291-305 | a release leaves a waiter owed a wake-up if and only if its condition does not hold |
| `H1PoolRuns.SweepDoneExact` | client/h1_pool.go:798-819 | so does the end of a sweep, whatever it reports dead |
| `H1PoolRuns.TickNeverLoses` | client/h1_pool.go:465-476 | a tick never loses a wake-up, whatever its clock readings |
| `H1PoolRuns.BackoffExpiryStrands` | client/h1_pool.go:373-396 | a run that strands a waiter this way |
| `H1PoolOutcomes.CountsAre` | client/h1_pool.go:686-700 | the tallies are of connections alive, and of those alive, reserved by the sweep and held by nobody |
| `H1PoolOutcomes.DialsAreSized` | client/h1_pool.go:328-348 | outside the backoff reserved connections plus dials cover the waiters or the budget is used up, no dial is one too many for either, and inside it nothing is dialled |
| `H1PoolOutcomes.StrandedRefusedExactlyWhen` | client/h1_pool.go:373-396 | everyone who waits is refused, for the reason given, if and only if there is no live connection, no dial and no way to start one; and else nobody is |
| `H1PoolOutcomes.ServeIs` | client/h1_pool.go:585-598 | idle connections go to the waiters in front, in their order, until one of the two runs out |
| `H1PoolOutcomes.ServeTakesIdle` | client/h1_pool.go:585-598 | each connection is handed out at most once, and only if it was idle |
| `H1PoolOutcomes.AcquireTakesFirstFree` | client/h1_pool.go:245-252 | a request takes the first connection that is alive, held by nobody and not under probe |
| `H1PoolOutcomes.AcquireQueuesOrRefuses` | client/h1_pool.go:253-288 | with none it is refused if and only if nothing could ever serve it and no reservation is free for it; otherwise queued at the back, with a dial if and only if no reservation is free, there is room and the backoff is over |
| `H1PoolOutcomes.AcquireKeepsCover` | client/h1_pool.go:253-288 | outside the backoff a queue that was covered stays so |
| `H1PoolOutcomes.ReturnDecides` | client/h1_pool.go:291-305 | a connection that comes back stays if and only if it may be kept and is alive, with one holder less; the others stay as they are |
| `H1PoolOutcomes.ReturnOfEvicted` | client/h1_pool.go:291-305 | one that was evicted in the meantime only has a holder less |
| `H1PoolOutcomes.DialOkDecides` | client/h1_pool.go:440-443 | a dial that succeeds adds its connection, which goes to the first waiter, and the rest are dialled for |
| `H1PoolOutcomes.DialErrorDecides` | client/h1_pool.go:400-439 | a dial that fails refuses the newest waiter if and only if they are more than the reservations; the rest are dialled for or refused with its error |
| `H1PoolOutcomes.OthersKeepCover` | client/h1_pool.go:291-305 | a release and the end of a sweep leave the waiters covered outside the backoff |
| `H1PoolOutcomes.SweepDecides` | client/h1_pool.go:623-760 | a tick evicts exactly the dead and the idle that have expired, and reserves what nobody holds unless a sweep is out |
| `H1PoolOutcomes.TickDecides` | client/h1_pool.go:465-476 | then exactly those whose caller has given up leave the queue, each told so, and the rest are dialled for or refused |
| `H1PoolOutcomes.StatsAndClose` | client/h1_pool.go:446-486 | stats evict exactly the dead, and Close refuses everyone who waits |
| `H3PoolActor.Actor.PickLeastLoaded` | client/h3_pool.go:457-481 | the pick and the cursor it leaves |
| `H3PoolActor.Actor.NumLive` | client/h3_pool.go:669-683 | counts connections alive and not going away |
| `H3PoolActor.Actor.SpareStreamCapacity` | client/h3_pool.go:646-657 | counts the slots a pick could still hand out |
| `H3PoolActor.Actor.Serve` | client/h3_pool.go:508-521 | serves waiters in order while a connection is selectable |
| `H3PoolActor.Actor.EnsureDials` | client/h3_pool.go:618-636 | dials for the uncovered batch |
| `H3PoolActor.Actor.RefuseWaiters` | client/h3_pool.go:294-297 | one refusal for each waiter, in order |
| `H3PoolActor.Actor.FlushStranded` | client/h3_pool.go:280-298 | refuses all exactly when nothing could serve them |
| `H3PoolActor.Actor.AcquireOne` | client/h3_pool.go:214-237 | moves the pool as HandleAcquire prescribes |
| `H3PoolActor.Actor.Evict` | client/h3_pool.go:531-575 | keeps exactly the connections the criterion keeps |
| `H3PoolActor.Actor.ReleaseOne` | client/h3_pool.go:241-254 | moves the pool as HandleRelease prescribes |
| `H3PoolActor.Actor.DialSucceeded` | client/h3_pool.go:321-325 | a dialled connection joins, waiters are served, and no one is refused |
| `H3PoolActor.Actor.DialFailed` | client/h3_pool.go:302-320 | a failed dial refuses the first waiter, then dials or refuses for the rest |
| `H3PoolActor.Actor.PruneExpired` | client/h3_pool.go:727-738 | drops exactly the expired, in order |
| `H3PoolActor.Actor.TickOnce` | client/h3_pool.go:347-378 | moves the pool as HandleTick prescribes |
| `H3PoolActor.Actor.WarmUp` | client/h3_pool.go:824-840 | dials up to the target within the budget, not in a backoff |
| `H3PoolActor.Actor.Close` | client/h3_pool.go:381-417 | every waiter is refused and no dial is left |
| `H3PoolRuns.PickIsLeastLoaded` | client/h3_pool.go:457-481 | from any cursor, nothing is picked exactly when nothing is selectable; a pick is undercut by none and is the one a full scan makes |
| `H3PoolRuns.ShortcutIsExact` | client/h3_pool.go:457-481 | stopping at the first idle connection changes no pick |
| `H3PoolRuns.DialsAreSized` | client/h3_pool.go:618-636 | outside the backoff spare and promised slots cover the waiters or the budget is used up, no dial is one too many, and the budget holds |
| `H3PoolRuns.AcquireSound` | client/h3_pool.go:214-237 | a newcomer finds nothing to take while anyone waits |
| `H3PoolRuns.StepKeeps` | client/h3_pool.go:214-378 | every handler keeps the pool sound, and the wake-up owed exactly unless the pool before it satisfies LosesWakeUp |
| `H3PoolRuns.ReleaseLoses` | client/h3_pool.go:241-254 | a release leaves waiters with no dial and no holder if and only if it is the last holder's, nothing is dialling, and no live connection has its id |
| `H3PoolRuns.DialOkLoses` | client/h3_pool.go:321-325 | so does a dial that succeeds, if and only if it was the last, nobody holds a connection, and it brings one that is gone already |
| `H3PoolRuns.WakeUpLostExactlyWhen` | client/h3_pool.go:214-325 | a step loses an owed wake-up if and only if the pool before it satisfies LosesWakeUp; a tick never does |
| `H3PoolRuns.OneReplyEachInOrder` | client/h3_pool.go:214-417 | in every run each request accepted is waiting or has had one reply, grants go out in arrival order, and after Close all have had exactly one |
| `H3PoolRuns.PoolStaysSound` | client/h3_pool.go:214-237 | in every run live and dialling stay within the budget, each connection is held by exactly as many as it counts and within its cap, and nothing is selectable while anyone waits |
| `H3PoolRuns.WakeUpOwed` | client/h3_pool.go:256-298 | in every run a waiter is owed a dial or a release throughout if and only if LosesWakeUp holds of no step: up to the first such step, and no further |
| `H3PoolRuns.DeadOnArrivalStrands` | client/h3_pool.go:321-325 | a run that loses it: a dial succeeds with a connection already dead, in the backoff, and the waiters are not refused |
| `H3PoolOutcomes.NothingPickedExactlyWhenFull` | client/h3_pool.go:457-481 | nothing is picked if and only if every connection is dead, told to go away or full |
| `H3PoolOutcomes.PicksTakeTurns` | client/h3_pool.go:457-481 | of the least loaded the first from the cursor on is picked, and the pick of an idle one moves the cursor right behind it |
| `H3PoolOutcomes.CountsAre` | client/h3_pool.go:646-680 | what counts against the budget and the slots left on it, neither of them for a connection dead or told to go away |
| `H3PoolOutcomes.StrandedRefusedExactlyWhen` | client/h3_pool.go:280-298 | everyone who waits is refused, for the reason given, if and only if there is no live connection, no dial and no way to start one; and else nobody is |
| `H3PoolOutcomes.ServeIs` | client/h3_pool.go:508-522 | connections go to the waiters in front, in their order, until nothing can be picked or nobody is left |
| `H3PoolOutcomes.AcquireDecides` | client/h3_pool.go:214-237 | a request has a free slot at once; with none it is refused if and only if nothing could ever serve it, and else queued at the back, with a dial if and only if there is room and the backoff is over |
| `H3PoolOutcomes.ReleaseDecides` | client/h3_pool.go:241-248 | the connection released has one caller less and leaves if and only if it is dead, or told to go away and drained; the others stay as they are |
| `H3PoolOutcomes.ReleaseGoesOn` | client/h3_pool.go:249-254 | then those who wait are served, and the rest dialled for or refused |
| `H3PoolOutcomes.DialOkDecides` | client/h3_pool.go:321-325 | a dial that succeeds adds its connection with the slots of the policy, those who wait are served, and the rest dialled for |
| `H3PoolOutcomes.DialErrorDecides` | client/h3_pool.go:302-320 | a dial that fails refuses the oldest waiter; the rest are dialled for or refused with its error |
| `H3PoolOutcomes.TickDecides` | client/h3_pool.go:347-378 | a tick evicts exactly the dead, the drained and the idle that have expired; exactly those whose caller has given up leave the queue; the rest are dialled for or refused |
| `H3PoolOutcomes.WarmupDecides` | client/h3_pool.go:824-841 | a warm-up dials up to what was asked for, within the budget, and not in the backoff |
| `H3PoolOutcomes.StatsAndClose` | client/h3_pool.go:328-417 | stats evict exactly the dead and the drained, and Close refuses everyone who waits |
| `PoolReplies.AllRefusedIs` | client/h3_pool.go:294-297 | one refusal for each who waits, in order, with the reason given |
| `PoolReplies.PruneIs` | client/h3_pool.go:727-741 | exactly those whose caller has given up leave the queue |
| `PoolReplies.PrunedAreTold` | client/h3_pool.go:727-741 | and every reply is told to one of them |
| `FrameCodec.Uint24Back` | internal/bufx/uint.go:16-28 | 24-bit numbers come back |
| `FrameCodec.Uint31Back` | internal/bufx/uint.go:32-45 | any number comes back without its bits above 31 |
| `FrameCodec.HeaderBack` | frame/header.go:9-28 | every frame header comes back, whatever follows it |
| `FrameCodec.HeaderLayout` | frame/header.go:22-28 | the nine octets are the length, type, flags and a 31-bit identifier under a clear reserved bit, most significant octet first |
| `FrameCodec.HeaderReads` | frame/header.go:9-20 | any nine octets are read so, the reserved bit ignored |
| `FrameCodec.WriteFrameHeader` | frame/header.go:22-28 | writes the nine octets and no other |
| `FrameCodec.PriorityBack` | frame/framer.go:470-488 | every priority comes back; a dependency out of range is masked and never sets the exclusive bit |
| `FrameCodec.StripBack` | internal/bufx/padding.go:17-30 | padding of the stated length comes off, and only that |
| `FrameCodec.StripIsExact` | frame/framer.go:841-848 | padding comes off any payload if and only if it is as long as its first octet says, and what is left lies between |
| `HeaderBlocks.FlagsBack` | frame/framer.go:385-397 | each flag of a HEADERS or CONTINUATION frame reads back |
| `HeaderBlocks.FlagBits` | frame/framer.go:381-410 | the flag bits and types are those of section 6.2 and 6.10 of RFC 7540 |
| `HeaderBlocks.PlanIsWellFormed` | conn/conn.go:998-1048 | the frames of a block carry its bytes in order, one HEADERS that alone may end the stream, then CONTINUATIONs, END_HEADERS on the last only, none over the limit |
| `HeaderTransfer.Framer.WriteHeaders` | frame/framer.go:381-447 | writes exactly the frame's bytes, or refuses stream 0 or an oversized frame and writes nothing |
| `HeaderTransfer.Framer.WriteContinuation` | frame/framer.go:450-459 | writes exactly the frame's bytes, or refuses stream 0 or an oversized frame and writes nothing |
| `HeaderTransfer.Framer.WriteContinuations` | conn/conn.go:1034-1047 | writes the rest of a block as CONTINUATIONs |
| `HeaderTransfer.Framer.WriteHeaderBlock` | conn/conn.go:998-1048 | writes the block as planned; no frame of it is ever refused |
| `HeaderTransfer.Reader.CheckContinuity` | frame/framer.go:791-802 | while a block is open only its continuation passes, and no other time does one |
| `HeaderTransfer.Reader.HandleHeaders` | frame/framer.go:841-864 | strips padding and priority and completes or opens a block, or names the error, as prescribed |
| `HeaderTransfer.Reader.HandleContinuation` | conn/handler.go:281-308 | appends to the open block, within the accumulation limit, and completes it |
| `HeaderTransfer.Reader.Dispatch` | frame/framer.go:791-823 | one frame, with the continuity state it leaves |
| `HeaderTransfer.ReadIsExact` | frame/framer.go:693-760 | of any bytes a whole frame is taken exactly to its end, one above the limit is refused by its header, and short of that more is awaited |
| `HeaderTransfer.ContinuityIsExact` | frame/framer.go:791-806 | while a block is open nothing but a CONTINUATION on its stream is taken, and no CONTINUATION otherwise, both ways |
| `HeaderTransfer.HeadersTakenExactly` | frame/framer.go:841-864 | a HEADERS frame opens or completes a block if and only if it is on a stream, its padding fits and its priority is whole; the block is what lies between |
| `HeaderTransfer.FrameBack` | frame/framer.go:693-784 | a frame comes off the wire as it was put there, whatever follows it |
| `HeaderTransfer.HeadersBack` | frame/framer.go:841-864 | the receiver undoes padding and priority of any HEADERS frame |
| `HeaderTransfer.BlockComesBack` | conn/handler.go:244-308 | any block, with any padding and priority, comes back byte for byte as one block with its END_STREAM; it is refused exactly when it took more than one frame and is over the accumulation limit |
| `Huffman.ShiftIn` | hpack/huffman.go:22 | shifting a code into the 64-bit accumulator loses no pending bit |
| `Huffman.TakeByte` | hpack/huffman.go:24-27 | the byte taken off is the top eight pending bits |
| `Huffman.EmitBytes` | hpack/huffman.go:24-27 | whole bytes leave, in order, and the rest stays pending |
| `Huffman.Feed` | hpack/huffman.go:20-28 | one code in, whole bytes out, no bit lost or changed |
| `Huffman.PadLast` | hpack/huffman.go:29-33 | the last bits are filled up with ones |
| `Huffman.HuffmanEncode` | hpack/huffman.go:15-35 | for every table of codes of 5 to 30 bits, the output is the codes' bits in order, padded with fewer than eight ones |
| `Huffman.HuffmanEncodedLen` | hpack/huffman.go:4-10 | the length of that output, computed without it |
| `HuffmanDecoding.EncodingIsInjective` | hpack/huffman.go:15-35 | with prefix-free codes, none all ones of seven bits or fewer, distinct strings have distinct encodings |
| `HuffmanDecoding.DecodesExactlyEncodings` | hpack/huffman_fsm.go:156-198 | with the end-of-string code of RFC 7541, a byte string decodes to x if and only if it is the encoding of x |
| `HuffmanTable.CodeOf` | hpack/huffman_table.go:14-272 | each of the 257 code words lies behind every shorter one, at its symbol's own place among those as long |
| `HuffmanTable.Apart` | hpack/huffman_table.go:14-272 | different words so placed: neither begins with the other |
| `HuffmanTable.TableIsCanonical` | hpack/huffman_table.go:14-272 | the table is sized, prefix-free with its end-of-string code, and that code is thirty ones |
| `HuffmanTable.RfcStringsDecodeExactly` | hpack/huffman_fsm.go:156-198 | so with the client's own table a byte string decodes to x if and only if it is the encoding of x |
| `HuffmanMachine.BuildEntry` | hpack/huffman_fsm.go:68-105 | a table entry does what walking its four bits does, so two symbols are always room enough |
| `HuffmanMachine.LookByte` | hpack/huffman_fsm.go:159-178 | two lookups do what walking the byte's eight bits does |
| `HuffmanMachine.WalkBit` | hpack/huffman_fsm.go:74-96 | one bit down the tree: a dead end, a symbol and back to the root, or further |
| `HuffmanMachine.Look` | hpack/huffman_fsm.go:159-170 | one lookup does what walking the nibble's four bits does |
| `HuffmanMachine.HuffmanDecode` | hpack/huffman_fsm.go:156-198 | the table-driven decoder computes the decoding, errors included |
| `GrpcFraming.BigEndianBack` | grpc/framing.go:31-38 | a length comes back from its four bytes |
| `GrpcFraming.FromBigEndianBack` | grpc/framing.go:195-217 | four bytes are the big-endian form of their value |
| `GrpcFraming.PrefixLayout` | grpc/framing.go:49-63 | a byte of zero and the length, most significant byte first |
| `GrpcFraming.AppendMessagePrefix` | grpc/framing.go:49-63 | refuses a length the prefix cannot hold; otherwise the prefix is appended if and only if the buffer has five bytes to spare or nothing in it, and else replaces what was there |
| `GrpcFraming.AppendMessage` | grpc/framing.go:31-38 | appends prefix and message, or refuses |
| `GrpcFraming.ParseFrame` | grpc/framing.go:196-214 | bytes that begin with a framed message yield it and the rest; bytes that break off inside it ask for more |
| `GrpcFraming.ParseIsExact` | grpc/framing.go:195-217 | of any bytes: a message is delivered if and only if they begin with its frame and it is within the limit; compressed if and only if the first of a whole prefix is not 0; too large if and only if it declares more than the limit; and else more is asked for |
| `GrpcFraming.OversizeIsRefused` | grpc/framing.go:196-214 | a message over the limit is refused by its prefix alone |
| `GrpcFraming.MessagesComeThrough` | grpc/framing.go:104-214 | for any messages, any cut of their bytes into chunks and any questions in between, the decoder never fails and delivers the messages in order, all of them once all bytes are in |
| `GrpcFraming.NothingElseComesThrough` | grpc/framing.go:195-217 | whatever bytes come in, cut and asked for in any way: they are the frames of the messages delivered, none above the limit, followed by what is pending; the next question fails if and only if that begins with a prefix that is compressed or declares too much |
| `GrpcFraming.Decoder.EndBorrow` | grpc/framing.go:126-134 | the pending bytes stay, and every slab accepted has been returned, in order and once |
| `GrpcFraming.Decoder.PushBorrowed` | grpc/framing.go:112-122 | taken exactly when nothing is pending and the chunk is not empty |
| `GrpcFraming.Decoder.Compact` | grpc/framing.go:176-190 | the pending bytes stay and less than half the buffer is spent |
| `GrpcFraming.Decoder.Push` | grpc/framing.go:144-152 | the chunk is appended, and the buffer is at most twice the pending bytes |
| `GrpcFraming.Decoder.Next` | grpc/framing.go:196-214 | the message the pending bytes begin with, or why there is none |
| `GrpcFraming.Decoder.Release` | grpc/framing.go:136-139 | every slab accepted has been returned exactly once |
| `GrpcFraming.Perform` | grpc/framing.go:104-214 | a call on the object is the step of the specification, borrowed or copied |
| `ResponseFields.ParseDecimalDigits` | conn/validate.go:214-230 | a number exactly for a non-empty run of digits whose value fits 63 bits; nothing wraps |
| `ResponseFields.ResponseContentLength` | conn/validate.go:194-206 | absent, the one number all declarations agree on, or invalid |
| `ResponseFields.ReadStatus` | conn/handler.go:341-409 | the numeric status and whether it is informational |
| `ResponseFields.FindStatus` | conn/handler.go:341-348 | the first :status, or none |
| `ResponseFields.ValidFieldName` | conn/validate.go:48-63 | accepts exactly lower-case tokens |
| `ResponseFields.ValidFieldValue` | conn/validate.go:83-98 | accepts exactly values without CR, LF, NUL or edge whitespace |
| `ResponseFields.ValidateResponseFields` | conn/handler.go:823-872 | accepts exactly one status, first, then legal regular fields; for trailers, regular fields alone |
| `ResponseEvents.Response.CheckContentLength` | conn/handler.go:418-432 | passes exactly when no length binds, or it is a number equal to the bytes received |
| `ResponseEvents.Response.ClassifyBlock` | conn/handler.go:367-391 | interim, final, trailers, or the error each misplaced block is |
| `ResponseEvents.Response.HandleBlock` | conn/handler.go:434-486 | a field block moves the response as prescribed |
| `ResponseEvents.Response.HandleData` | conn/handler.go:194-241 | a DATA frame moves the response as prescribed |
| `ResponseEvents.ResponseIsOrderly` | conn/handler.go:175-241 | for every frame sequence each event tells what its frame said: at most 100 interim blocks, the final one, content, and at most one trailer section; the end comes last, once, after a final block, and only if a length that block declares for content equals the bytes of the DATA frames |
| `ResponseAcceptance.BlockSays` | conn/handler.go:340-347 | on a block's own fields: informational is a status of three characters that begins with 1, and a length is exempt for HEAD, 204 and 304 |
| `ResponseAcceptance.LengthSays` | conn/handler.go:418-431 | the length rule holds if and only if the response is exempt or every Content-Length is the number of bytes of DATA |
| `ResponseAcceptance.ResponseAcceptedExactlyWhen` | conn/handler.go:370-486 | every arrival is delivered, as the event it is and without a reset, if and only if the arrivals are a well-formed response or the beginning of one: at most a hundred interim blocks, a final block, DATA, and trailers that end it, whose declared length, if it binds, is that of the DATA |
| `ResponseAcceptance.RefusedWith` | conn/handler.go:370-398 | what breaks a response off is told ENHANCE_YOUR_CALM for the interim block after the hundredth, STREAM_CLOSED for DATA after the end, and PROTOCOL_ERROR for anything else |
| `GroupCommit.FlushDelivers` | conn/writebatcher.go:156-161 | a flush that succeeds leaves nothing behind, and none takes anything back |
| `GroupCommit.FlushFailsExactlyWhen` | conn/writebatcher.go:155-163 | a flush fails if and only if the writer broke before, or has something that the transport does not take |
| `GroupCommit.StepKeeps` | conn/writebatcher.go:102-153 | every hold of the write lock keeps the transport's bytes a prefix of the accepted ones, in lock order, and every verdict already returned true |
| `GroupCommit.StepAnswers` | conn/writebatcher.go:102-153 | a commit that does not defer has one verdict, of all that was written before it; one that defers, exactly when another waits and the buffer is below the threshold, has none until it wakes |
| `GroupCommit.NilMeansDelivered` | conn/writebatcher.go:102-153 | in every run of writers deferring to one another, a commit that returned no error did so after everything buffered before it was handed over, in lock order |
| `GroupCommit.VerdictIsExact` | conn/writebatcher.go:102-153 | in every run a commit is told an error if and only if some flush through the batcher has failed by then, its own included; with group commit off, if and only if its own flush failed |
| `GroupCommit.FlushReleasesAll` | conn/writebatcher.go:112-153 | a flush through the batcher releases every writer that left its bytes to it |
| `GroupCommit.BrokenExactlyWhen` | conn/writebatcher.go:155-163 | the buffered writer is broken if and only if it was, or the transport broke under it |
| `GroupCommit.WriteBatcher.FlushLocked` | conn/writebatcher.go:140-153 | flushes, counts, keeps the first error, and wakes exactly when someone defers |
| `GroupCommit.WriteBatcher.BeginCommit` | conn/writebatcher.go:102-118 | defers exactly when another writer is queued below the threshold, else flushes |
| `GroupCommit.WriteBatcher.EndCommit` | conn/writebatcher.go:107-117 | returns the sticky verdict if the awaited flush happened, else flushes itself |

## Left out

- Dialling, TLS, proxies, ALPN and the HTTP/1.1 message parser.
- The QUIC transport and QPACK, apart from the HTTP/3 pool.
- HPACK's dynamic table and field representations: a field block is a byte string here, and decoding errors of a block are not modelled.
- PUSH_PROMISE field blocks: the block path is modelled for HEADERS. Promised streams appear in the flow-control and slot accounts.
- Retries, redirects, the rate limiter, options, metrics, hooks and logging, which would only add easy members.
- Real time: keep-alive, Shutdown's deadline and read timeouts. A deferred commit is shown to be right when it returns, not that it returns.
- The HTTP/2 pool actor, which is close to the HTTP/3 one.
- The exhaustion of 31-bit stream identifiers: `StreamSlots` numbers them without a bound.
- BuildEntry: a state of the decoder is the path from the root of the code tree, so the numbering of states by the breadth-first construction is not modelled.
- ApplyPeerSettings: the iteration order over streams is arbitrary, as for a Go map; after a flow-control error, which ends the connection, it states only which error it was.
- SendBatch: after a fatal entry it states who is told what, not how many octets of the failed write left the process.
- WriteDataVec: the write errors of the transport are not modelled; a send stops because the stream is gone or the waiting was given up.
- EmitFrame: the write errors of the transport are not modelled.
- WriteWindowUpdatePair: the write errors of the transport, which end the connection, are not modelled.
- ResetForReuse: of the response's own fields the struct has only the one other lifetimes depend on, the rest are in `ResponseEvents`; its window fields are in `SendProtocol` and `ReceiveProtocol`.
- PeerNeverOverrun: applying SETTINGS to all streams is one step.
- AcquireOnce: reads the windows and debits them in one go, as does TryAcquireAll; `SendProtocol` has the two apart.
- StepInv: DATA that is not late is received in one step. Its struct may be evicted meanwhile but not recycled, so the charge can then only miss a window that nobody uses.
- Evict: the model compares connections by identity number, and the close reason reported to hooks is dropped.
- Pooled: the struct's fields are one record that each method replaces, not separate heap fields; its channel is a sequence.
- Response: likewise one record; what was decoded is passed in.
- The ghost fields of the two pool actors record who holds a connection, which the program leaves to its callers.
