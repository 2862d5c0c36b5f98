# A model of libxice

libxice implements ICE (RFC 5245), STUN (RFC 5389) and TURN, and a TCP-like reliable
transport that runs over the path ICE finds. This project models its protocol cores in
Dafny and proves what they are for. It has five parts.

**Pseudo-TCP** (`PseudoTcp*.dfy`). `PseudoTcpReceive` and `PseudoTcpReassembly` hold the
receive buffer with its out-of-order segments, `PseudoTcpSend` the segmented send queue,
`PseudoTcpState`, `PseudoTcpOutput` and `PseudoTcpInput` the control block and every
operation on it, with the clock and the result of each network write as parameters.
`PseudoTcpSystem`, `PseudoTcpDelivery` and `PseudoTcpRuns` put two endpoints on a network
that loses, duplicates and reorders packets and prove delivery and flow control;
`PseudoTcpProgress` says what a socket is bound to do (resend, probe, acknowledge, open,
react to loss), and `PseudoTcpArrival` that two endpoints can tell each other anything;
`PseudoTcpSafety` treats one socket against any peer that acknowledges on segment
boundaries, and `PseudoTcpCongestion` when the congestion window holds a segment;
`PseudoTcpSocket` is the object with its buffers and lists updated in place, every method
proved equal to the function on control blocks; `PseudoTcpHosts` drives two such objects
through a run; `PseudoTcpWire` is the packet layout.

**Connectivity checks** (`Candidates.dfy`, `Conncheck*.dfy`, `RoleConflict.dfy`).
`Conncheck` has streams, components and check lists as values and every operation that
changes them. `ConncheckSteps` defines what an operation may do, `ConncheckOps`,
`ConncheckEntries` and `ConncheckTicks` prove it of each operation, `ConncheckRuns` draws
the conclusions for whole runs, `ConncheckOutcome` says what the operations are bound to
bring about, `ConncheckTermination` treats runs of ticks alone and `ConncheckRequests`
counts the requests they send, `RoleConflict` has two agents that repair a role conflict.
`ConncheckAgent` is the object with the loops of the source, and `ConncheckDriver` takes
it through a run.

**STUN** (`StunMessage.dfy`, `StunWriter.dfy`, `StunAgent.dfy`, `StunExchange.dfy`,
`StunSoundness.dfy`, `StunAgentObject.dfy`, `IceUsage.dfy`). Validating and searching byte
buffers, writing attributes, finishing and validating messages with the table of open
transactions. `StunExchange` proves that what one agent finishes another accepts,
`StunSoundness` exactly what is accepted, and that a wrong integrity never is. The checksum
and the derivation of long-term keys are parameters; the integrity is the HMAC of the next
part. `IceUsage` ties the checks of the second part to STUN messages.

**Hashes** (`HashSpec.dfy`, `Sha1.dfy`, `Md5.dfy`). The incremental contexts against the
digest of the padded whole message. The compression functions are parameters.

**Smaller cores**: the SDP printer and parser (`SdpText.dfy`, `Sdp.dfy`), the bounded TCP
send queue (`TcpSendQueue.dfy`) and the retransmission timer (`StunTimer.dfy`).

`Arith.dfy` has the fixed-width arithmetic, `WordBytes.dfy` words as bytes, `Options.dfy`
and `Sequences.dfy` what several modules share. Integers are unbounded otherwise; the 16-,
32- or 64-bit wrap-arounds that the sources rely on or suffer from are written out.

Where the code and its documentation or the standard disagree, the model follows the code:

- Two controlled agents: the code lets the agent with the smaller tie-breaker take the
  controlling role, section 7.2.1.1 of RFC 5245 the one with the larger
  (`RoleConflict.AnswerIsStandardIff`).
- `conncheck_list` is described as sorted. A new pair is inserted while its priority is
  still zero and so goes to the end (`ConncheckEntries.InsertAppends`), and a list over the
  limit keeps its first (length - limit) pairs.
- The step that should unfreeze pairs of other streams walks the same stream's list and
  never finds one.
- The 32-bit doubling in the pair priority is exact only below 2^31
  (`Candidates.PairPriorityExactIff`).
- The 16-bit message length is wrong for messages of 64 KiB and more
  (`StunMessages.LengthExactIff`, `StunWriter.LongMessageExists`).
- The room test for a STUN attribute leaves out its padding, which stays inside the buffer
  only for sizes that are multiples of four (`StunWriter.PaddingStaysIff`).
- The 32-bit congestion window can wrap around below one segment
  (`PseudoTcpCongestion.CallHoldsIff`, `PseudoTcpCongestion.WrapIsReachable`). Delivery and
  flow control do not depend on it.
- The acknowledgement that an old or early packet calls for at once is forgotten while a
  part of a segment is held back behind data in flight
  (`PseudoTcpProgress.AnsweredAtOnceIff`, `PseudoTcpProgress.AnswerIsForgotten`).
- A response is looked up in the whole stream, but the selection is made for the component
  it came in on (`ConncheckTicks.ResponseRankedIff`, `ConncheckRuns.OtherComponentFails`).
- The retransmission timer divides its delay as a signed number and moves the deadline back
  from 2^31 ms on (`StunTimer.AddDelayExactIff`, `StunTimer.TotalTimeoutFails`).
- The block test of SHA-1 wraps around when the filled part of the block and the new bytes
  reach 2^32 (`Sha1.GuardRightIff`).
- The SHA-1 and HMAC calls take lengths that are cut to 32 bits on the way
  (`Sha1.CutNothingIff`).

## Model

| member | source | states |
|---|---|---|
| PseudoTcpRuns.DeliveredIsPrefix | agent/pseudotcp.c:676-1343 | In every run of a connecting and a listening endpoint over a network that loses, duplicates and reorders packets, the bytes read at one end are a prefix of the bytes accepted for sending at the other, in both directions |
| PseudoTcpRuns.WindowsAreRespected | agent/pseudotcp.c:700-1333 | In every such run no packet in the network ends beyond what the receiver has granted, so trimming never cuts off its end, the receive window never wraps, and every acknowledgement in the network falls on a segment boundary of the sender |
| PseudoTcpRuns.ActKeeps | agent/pseudotcp.c:534-740 | Every permitted action of one endpoint (connect, send, receive, clock, MTU, any packet the peer ever sent) keeps the invariant that links the two endpoints |
| PseudoTcpDelivery.DeliverKeeps | agent/pseudotcp.c:871-1177 | Taking any packet of the peer, however old, keeps the invariant that links the two endpoints |
| PseudoTcpDelivery.ConnectOrder | agent/pseudotcp.c:903-933 | The connect byte of the listening side reaches the connecting side only after that side has been heard |
| PseudoTcpSystem.PeerPacketAcceptable | agent/pseudotcp.c:871-963 | Every packet the peer has sent meets what processing relies on: position below 2^32, acknowledgement on a boundary, echoed timestamp not in the future |
| PseudoTcpSystem.StreamArrives | agent/pseudotcp.c:1094-1164 | In the two-endpoint system arriving application data keeps its last byte unless all of it is old, the right edge of the window stays where it was, and the link between the endpoints is kept |
| PseudoTcpSystem.ConnectByteArrives | agent/pseudotcp.c:1119-1122 | The connect byte moves the receive position from 0 to 1, when nothing is buffered, and changes nothing at any later time; the link between the endpoints is kept |
| PseudoTcpReassembly.ReassemblyIsExact | agent/pseudotcp.c:692-1164 | For every order, overlap and repetition of segments cut from one stream, mixed with reads: the bytes read and ready are the stream up to the receive position, every saved byte sits at its offset, the saved list is sorted, and the receive position is the first one not covered by accepted data |
| PseudoTcpReassembly.AcceptKeeps | agent/pseudotcp.c:1094-1164 | An arriving segment keeps the reassembly invariant and makes known exactly the positions of its part inside the buffer |
| PseudoTcpReassembly.DrainKeeps | agent/pseudotcp.c:1134-1149 | Consuming saved segments loses no known position and leaves only segments beyond the receive position |
| PseudoTcpReassembly.ReadKeeps | agent/pseudotcp.c:692-698 | A read returns the next bytes of the stream and keeps the invariant |
| PseudoTcpReceive.Trim | agent/pseudotcp.c:1094-1113 | What is left of a segment after trimming is exactly its part inside the buffer, at the right position |
| PseudoTcpReceive.StoreFits | agent/pseudotcp.c:1118-1165 | Storing any trimmed segment stays inside the receive buffer |
| PseudoTcpWindow.AcceptWindow | agent/pseudotcp.c:1094-1164 | Data inside the advertised window leaves the right edge of the window unchanged and creates no end point but its own |
| PseudoTcpWindow.TrimKeepsEnd | agent/pseudotcp.c:1094-1113 | A segment inside the window keeps its last byte, and is dropped only if it is empty or old |
| PseudoTcpSend.FreeTilesIff | agent/pseudotcp.c:969-995 | Freeing acknowledged bytes leaves the segments tiling the queue if and only if the acknowledgement falls on a segment boundary |
| PseudoTcpSend.EnqueueKeeps | agent/pseudotcp.c:762-789 | Queueing keeps the tiling of the send queue and every boundary below the next sequence number |
| PseudoTcpSend.RecordSentKeeps | agent/pseudotcp.c:1227-1247 | Cutting a segment to what was sent keeps the tiling and all boundaries, and the sent segments stay a prefix |
| PseudoTcpSend.SplitKeeps | agent/pseudotcp.c:1318-1333 | Cutting an unsent segment in two keeps the tiling and removes no boundary |
| PseudoTcpSend.AcknowledgeKeeps | agent/pseudotcp.c:967-995 | A boundary acknowledgement never frees more than is queued and keeps the send invariant |
| PseudoTcpSend.UnsentAtNext | agent/pseudotcp.c:1318-1321 | Whenever bytes are unsent, the first unsent segment exists, is not empty and starts at the next sequence number |
| PseudoTcpSend.HeadInFlight | agent/pseudotcp.c:574-601 | With data in flight the first segment exists and has been sent |
| PseudoTcpSafety.EveryRunIsSafe | agent/pseudotcp.c:479-1376 | In every state that a socket reaches without being closed, whatever the write results and for MTUs above 116: segments tile the queue, sent ones are a prefix of length snd_nxt - snd_una, a running retransmission timer means data in flight, the timeout lies in 250..60000, mss > 0, ssthresh >= 2 mss, mss squared is below 2^32 and a full packet fits |
| PseudoTcpSafety.ReadyMeans | agent/pseudotcp.c:577-1321 | The invariant excludes a failure of the assertions of the retransmission timer, of freeing segments and of the send loop, and of the packet size assertion |
| PseudoTcpSafety.ApplyKeeps | agent/pseudotcp.c:534-740 | Every API call and every packet with a boundary acknowledgement keeps the invariant |
| PseudoTcpState.TimeDiffExact | agent/pseudotcp.c:201-229 | The signed difference of two 32-bit clock readings is exact for times less than 2^31 ms apart, across wrap-around |
| PseudoTcpState.ReduceMss | agent/pseudotcp.c:1207-1223 | Stepping the segment size down ends, at a size below the rejected one or at the last level |
| PseudoTcpOutput.ReduceMssKeeps | agent/pseudotcp.c:1207-1223 | Stepping the segment size down keeps the congestion invariant |
| PseudoTcpOutput.WriteSegmentEffect | agent/pseudotcp.c:1191-1225 | Offering a segment ends for every sequence of write results; one packet with the bytes finally offered reaches the network or none |
| PseudoTcpOutput.TransmitEffect | agent/pseudotcp.c:1180-1250 | Transmitting a segment keeps the tiling and the window, and every packet handed over is a slice of the queue between boundaries |
| PseudoTcpOutput.SendNext | agent/pseudotcp.c:1303-1342 | One turn of the send loop sends within the window and advances snd_nxt when it succeeds |
| PseudoTcpOutput.AttemptSend | agent/pseudotcp.c:1253-1343 | The send loop ends; everything it hands over is a slice of the queue inside the granted window |
| PseudoTcpOutput.EmitsTransitive | agent/pseudotcp.c:1253-1343 | Handing over packets twice is handing over packets once: the output relation composes |
| PseudoTcpInput.AdjustMtuOk | agent/pseudotcp.c:1357-1376 | The congestion invariant survives an MTU change if and only if the advised MTU is above the packet overhead of 116 |
| PseudoTcpCongestion.GrowthHoldsIff | agent/pseudotcp.c:1014-1019 | Growing the congestion window on new data keeps it at or above the segment size if and only if the 32-bit sum does not wrap around |
| PseudoTcpCongestion.DeflateHoldsIff | agent/pseudotcp.c:1004-1011 | A partial acknowledgement during recovery leaves the window at or above the segment size if and only if the 32-bit sum does not wrap around |
| PseudoTcpCongestion.InflateHoldsIff | agent/pseudotcp.c:1064-1066 | A further duplicate acknowledgement leaves the window at or above the segment size if and only if the 32-bit sum does not wrap around |
| PseudoTcpCongestion.AckHoldsIff | agent/pseudotcp.c:940-1070 | The whole acknowledgement stage keeps the congestion window at or above the segment size if and only if none of these sums wraps around |
| PseudoTcpCongestion.AttemptSendHoldsIff | agent/pseudotcp.c:1253-1343 | After sending, the congestion window is at or above the segment size if and only if it was before, or was reset after idling, or was set anew for smaller segments |
| PseudoTcpCongestion.CallHoldsIff | agent/pseudotcp.c:534-1376 | An API call or packet keeps the congestion window at or above the segment size if and only if it makes no such sum wrap around, or a later stage sets the window anew: adopting the MTU when the connection opens, the reset after idling, or smaller segments |
| PseudoTcpCongestion.WindowHoldsSegmentIff | agent/pseudotcp.c:479-1376 | The congestion window is at or above the segment size in every state of a run if and only if no call of the run makes a sum wrap around that no later stage of the call makes up for |
| PseudoTcpCongestion.WrapIsReachable | agent/pseudotcp.c:1014-1019 | A connection of fewer than 2^32 bytes whose peer acknowledges every byte on its own reaches a state in which the congestion window has wrapped below the segment size |
| PseudoTcpInput.AckQueue | agent/pseudotcp.c:940-1000 | Taking an acknowledgement and a window into the send queue keeps the invariant and all boundaries |
| PseudoTcpInput.AckStage | agent/pseudotcp.c:940-1088 | Whatever congestion control does on an acknowledgement, it only hands over slices of the queue |
| PseudoTcpInput.ReceiveDataKeeps | agent/pseudotcp.c:1094-1164 | The data half of processing keeps the socket invariant, also for control bytes and after a shutdown |
| PseudoTcpInput.ControlKeeps | agent/pseudotcp.c:903-933 | The control byte and timestamp stage keeps the invariant and keeps the packet acceptable |
| PseudoTcpInput.ClockStages | agent/pseudotcp.c:565-626 | The clock callback only hands over slices of the queue, whatever the timers and write results; what it is bound to send is in PseudoTcpProgress.TimerResends and ClockWithoutTimer |
| PseudoTcpArrival.EverythingCanArrive | agent/pseudotcp.c:534-1343 | For any two byte sequences there is a run of a connecting and a listening endpoint after which both are established and each application has read exactly what the other one has written |
| PseudoTcpProgress.TimerResends | agent/pseudotcp.c:573-603 | When the retransmission timer has run out, the clock sends exactly one packet, the beginning of the first unacknowledged segment, cuts the congestion window to one segment, halves the threshold and doubles the timeout; or it closes the connection and sends nothing, which with a successful write happens if and only if the segment has been sent too often |
| PseudoTcpProgress.ClockWithoutTimer | agent/pseudotcp.c:605-624 | While the timer has not run out: a closed window is probed, or given up after 15 s of silence; an acknowledgement that is due is sent; otherwise nothing changes |
| PseudoTcpProgress.SendsAll | agent/pseudotcp.c:1253-1343 | While writes succeed, sending hands over the queue in order, without gap or overlap and in segments, until the rest must wait for the window or, behind data in flight, for a full segment; it hands over no data if and only if that is so from the start, and then pays the acknowledgement owed unless data is held back |
| PseudoTcpProgress.OfferedSmaller | agent/pseudotcp.c:1191-1225 | A segment that is too large k times is offered in the next smaller size of the table each time and sent in the size that is taken; it fails if and only if the table ends before |
| PseudoTcpProgress.LevelFits | agent/pseudotcp.c:1362-1369 | The level for an advised MTU is the first one of the table at or below it, or the last |
| PseudoTcpProgress.StateAfter | agent/pseudotcp.c:871-1030 | The state after any packet: a reset closes; otherwise it is the next state of the handshake (the connect byte opens the connecting side, the first acknowledgement the listening side), or closed, which only a failed resending causes |
| PseudoTcpProgress.AskedResends | agent/pseudotcp.c:997-1063 | The third duplicate acknowledgement, or a partial one during recovery, resends from the acknowledged position or closes; with a successful write it closes if and only if that segment has been sent too often; no other packet closes |
| PseudoTcpProgress.ReactsAsReno | agent/pseudotcp.c:945-1069 | On an established connection the window and threshold after a packet are those of slow start, congestion avoidance, fast retransmit and NewReno recovery, and the round-trip estimate is the smoothed one of section 2 of RFC 6298 on the echoed timestamp, with a timeout between 250 ms and 60 s |
| PseudoTcpProgress.PacketAnswered | agent/pseudotcp.c:1072-1176 | While writes succeed a packet that is old, early or fills a gap is answered at once with the position reached, one with data at once or later, unless data is held back; an empty packet at the expected position is never answered by an empty one |
| PseudoTcpProgress.AnsweredAtOnceIff | agent/pseudotcp.c:1072-1176 | An old or early packet with data that acknowledges nothing new is answered at once if and only if no part of a segment is held back behind data in flight; otherwise nothing is sent |
| PseudoTcpProgress.AnswerIsForgotten | agent/pseudotcp.c:1313-1316 | A socket with one byte in flight and one held back does not answer an early packet |
| PseudoTcpProgress.ReadReopens | agent/pseudotcp.c:676-713 | Reading reopens a closed window once enough of the buffer is free, and tells the peer unless data is held back |
| PseudoTcpProgress.EchoesTimestamp | agent/pseudotcp.c:933-937 | The timestamp echoed is that of a packet that covers the position last acknowledged |
| PseudoTcpWire.PacketBackIff | agent/pseudotcp.c:792-870 | A packet is parsed as it was written if and only if its window fits 16 bits |
| PseudoTcpSockets.PseudoTcpSocket.constructor | agent/pseudotcp.c:479-531 | A new socket is the initial control block |
| PseudoTcpSockets.PseudoTcpSocket.Queue | agent/pseudotcp.c:762-789 | Appends to the queue in place what there is room for, as the function on control blocks says |
| PseudoTcpSockets.PseudoTcpSocket.WritePacket | agent/pseudotcp.c:792-839 | Writes a packet with the current acknowledgement and window; a failed write of data changes no timer |
| PseudoTcpSockets.PseudoTcpSocket.Transmit | agent/pseudotcp.c:1180-1250 | The retry loop and the cut of the segment equal the function on control blocks |
| PseudoTcpSockets.PseudoTcpSocket.AttemptSend | agent/pseudotcp.c:1253-1343 | The send loop equals the function on control blocks |
| PseudoTcpSockets.PseudoTcpSocket.FreeAcked | agent/pseudotcp.c:969-995 | The freeing loop equals the function whose tiling is characterised above |
| PseudoTcpSockets.PseudoTcpSocket.ProcessAck | agent/pseudotcp.c:940-1088 | The acknowledgement half of processing equals the function on control blocks |
| PseudoTcpSockets.PseudoTcpSocket.DrainSaved | agent/pseudotcp.c:1134-1149 | The loop over saved segments equals the drain function |
| PseudoTcpSockets.PseudoTcpSocket.SaveSegment | agent/pseudotcp.c:1151-1163 | The insertion loop keeps the saved list as the sorted insertion function says |
| PseudoTcpSockets.PseudoTcpSocket.TrimToWindow | agent/pseudotcp.c:1094-1113 | Trims the segment as the trimming function says |
| PseudoTcpSockets.PseudoTcpSocket.TakeData | agent/pseudotcp.c:1094-1164 | The data half of processing equals the function on control blocks |
| PseudoTcpSockets.PseudoTcpSocket.Process | agent/pseudotcp.c:871-1177 | Processing a packet in place equals the function on control blocks, including its result; PseudoTcpProgress.StateAfter, AskedResends, ReactsAsReno and PacketAnswered say what that is bound to do |
| PseudoTcpSockets.PseudoTcpSocket.Recv | agent/pseudotcp.c:676-713 | Reading moves the buffer down in place and reopens the window as the function says |
| PseudoTcpSockets.PseudoTcpSocket.Send | agent/pseudotcp.c:716-740 | Accepting bytes in place equals the function on control blocks |
| PseudoTcpSockets.PseudoTcpSocket.Connect | agent/pseudotcp.c:534-552 | Connecting in place equals the function on control blocks |
| PseudoTcpSockets.PseudoTcpSocket.NotifyMtu | agent/pseudotcp.c:555-562 | An MTU change in place equals the function on control blocks |
| PseudoTcpSockets.PseudoTcpSocket.NotifyClock | agent/pseudotcp.c:565-626 | The clock callback in place equals the function on control blocks, of which PseudoTcpProgress.TimerResends and ClockWithoutTimer say what it does |
| PseudoTcpHosts.Host.Perform | tests/test-pseudotcp.c:58-243 | An application on a socket object performs exactly the permitted actions, each as the system of two endpoints does |
| PseudoTcpHosts.Converse | tests/test-pseudotcp.c:245-280 | Two new socket objects driven through any events follow the run of the system that performs the permitted ones, and what each application has read is a prefix of what the other has written |
| Candidates.PairPriorityExactIff | agent/candidate.c:164-170 | The pair priority is that of section 5.7.2 of RFC 5245 if and only if both candidate priorities are below 2^31 |
| Candidates.PairPriorityInjective | agent/candidate.c:164-170 | Different pairs of 31-bit candidate priorities never share a pair priority |
| Candidates.MirroredPrioritiesIff | agent/agent.c:1268-1274 | Both ends give one pair the same priority if and only if their roles differ or the candidates weigh the same |
| Candidates.IcePriorityRange | agent/candidate.c:119-135 | Candidate priorities lie in the documented range and their three inputs can be read back |
| ConncheckRuns.SuccessIsEarned | agent/conncheck.c:2056-2151 | Over all entry points and runs, a pair that has succeeded did so by a success response to its outstanding transaction, while in progress, from the address the request went to |
| ConncheckRuns.OutstandingOnlyInProgress | agent/conncheck.c:106-318 | In every state of every run a pair has an outstanding STUN message only while it is IN_PROGRESS |
| ConncheckRuns.CancelledIsFinal | agent/conncheck.c:1716-1836 | In every run a pair keeps its place in the check list and never leaves CANCELLED |
| ConncheckRuns.SelectionIsBest | agent/conncheck.c:1069-1212 | In every run with a fixed role each change of a selected pair strictly raises its priority; as long as every action fits, no valid nominated pair outranks it, and READY is signalled only when a pair is selected and no pair of the component is FROZEN, WAITING or IN_PROGRESS |
| ConncheckRuns.AddressedRunsFit | agent/conncheck.c:2056-2151 | In a run from a state whose pairs belong to the component of their remote candidate, in which every response comes in on the component of its pair, every action fits |
| ConncheckRuns.OtherComponentFails | agent/conncheck.c:2073-2151 | A run from an agent without candidates (a local and a remote candidate of the first component, a check from the peer, the response on the second component) ends with a valid nominated pair whose own component has selected nothing |
| ConncheckRuns.PairsStayDistinct | agent/conncheck.c:1218-1247 | In every run the pairs of all check lists stay different objects |
| ConncheckRuns.ActionStep | agent/conncheck.c:2056-2181 | Every entry point is a possible role change followed by a step in a fixed role |
| ConncheckRuns.ChangeRoleSound | agent/conncheck.c:1958-1988 | After a role change every pair again has the priority that its role prescribes |
| ConncheckOps.BestFrozenIs | agent/conncheck.c:144-166 | The pair chosen for unfreezing is frozen and no frozen pair of the stream has a higher priority |
| ConncheckOps.PruneSettles | agent/conncheck.c:1691-1747 | Pruning with nothing left in progress leaves a selected pair and no check to run |
| ConncheckOps.InitiateStep | agent/conncheck.c:106-118 | Starting a check keeps the invariants and makes a fresh request in the current role |
| ConncheckOps.UpdateReadyStep | agent/conncheck.c:1153-1184 | Concluding a component keeps the invariants, and signals READY only if it is settled; that it does signal it then is in ConncheckOutcome.ReadyIff |
| ConncheckOutcome.ReadyIff | agent/conncheck.c:1153-1184 | Concluding a component makes it READY if and only if it has a valid nominated pair and no check in progress could still beat the best of them, or it was READY before |
| ConncheckOutcome.UpdateReadyConcludes | agent/conncheck.c:1153-1184 | Afterwards a component with a valid nominated pair has no frozen or waiting pair and none in progress below the nominated ones, and is READY unless a better one is in progress |
| ConncheckOutcome.StopOutcome | agent/conncheck.c:389-450 | When a tick stops the timer no check is in progress; every component with a valid nominated pair is READY, every other one whose checks have all failed is FAILED, and the rest keep their state |
| ConncheckOutcome.EveryStopIsFinal | agent/conncheck.c:389-450 | The same at every moment of every run of all entry points |
| ConncheckOutcome.ConfirmedOutcome | agent/conncheck.c:2110-2152 | A response that confirms a pair: the pair succeeds, nothing of its foundation stays frozen, the component selects it if and only if it is nominated and better, is connected or ready, and has drawn its conclusions |
| ConncheckOutcome.ResponseOutcome | agent/conncheck.c:2056-2168 | A success response from another address fails the pair; one that confirms it has the outcome above; one with an unknown mapped address fails the pair and adds a peer-reflexive candidate with a valid pair of its own |
| ConncheckOutcome.RefusalOutcome | agent/conncheck.c:2056-2172 | A response to an unknown request changes nothing; a role conflict sets the role opposite to the pair's and leaves the pair waiting with the priority of that role; another error takes the request from the pair |
| ConncheckOutcome.AdvanceOutcome | agent/conncheck.c:389-420 | Each tick starts the first waiting check; if none waits it unfreezes the pair of the highest priority in the first stream with a frozen one; if there is none either, nothing changes |
| ConncheckOutcome.NominateOutcome | agent/conncheck.c:1191-1216 | Nominating a remote candidate marks exactly its pairs, selects a valid one of them if one is better, ends with a selection as good as all of them, and concludes the component |
| ConncheckOutcome.RemotePaired | agent/conncheck.c:1249-1346 | A new remote candidate gets a frozen pair with every local candidate it can be paired with |
| ConncheckOutcome.LocalPaired | agent/conncheck.c:1249-1346 | A new local candidate gets a frozen pair with every remote candidate it can be paired with |
| ConncheckOutcome.OnlyPairable | agent/conncheck.c:1249-1346 | Whatever the limit of the list does, a new candidate brings no pairs but its own, none with a server-reflexive local candidate and none across address families |
| ConncheckOutcome.TriggerPairOutcome | agent/conncheck.c:1759-1830 | A check from the peer starts the check of a waiting, frozen or failed pair, restarts the timer of one in progress once, and makes a controlling agent renominate a valid one |
| ConncheckOutcome.RequestOutcome | agent/conncheck.c:2894-2955 | A request leaves its sender known, with a pair of it under way or done, nominated if the request nominates, and the component concluded; while no remote candidate is known it is stored, up to 25 times |
| ConncheckOutcome.RequestAnswered | agent/conncheck.c:2894-2940 | Every request is answered exactly once; it is refused if and only if it claims the agent's role with a tie-breaker that is not larger, and the agent changes its role if and only if it is larger |
| ConncheckEntries.NominateStep | agent/conncheck.c:1191-1212 | Nominating the pairs of a remote candidate keeps the invariants, and if it fits it keeps every valid nominated pair below the selected one |
| ConncheckEntries.NominateRankedIff | agent/conncheck.c:1191-1212 | Nominating the pairs of a remote candidate for a component leaves every selection on top if and only if all valid pairs of that candidate in other components are outranked already |
| ConncheckEntries.InsertAppends | agent/conncheck.c:1218-1235 | With positive priorities a new pair goes to the end of the check list, whatever its own priority |
| ConncheckEntries.AddPairStep | agent/conncheck.c:1218-1247 | Adding a pair, with the list limit as coded, keeps the invariants and moves no other pair |
| ConncheckEntries.TriggerStep | agent/conncheck.c:1759-1836 | A triggered check keeps the invariants in every state of the pair |
| ConncheckEntries.ServeStep | agent/conncheck.c:2904-2949 | What follows an answered request (learning a candidate, triggered check, nomination, storing an early check) keeps the invariants, and if it fits it keeps every selection on top |
| ConncheckEntries.ServeRankedIff | agent/conncheck.c:2904-2949 | What follows an answered request leaves every selection on top if and only if the valid pairs of its candidate in other components are outranked already or dropped by the list limit |
| ConncheckTicks.SucceedStep | agent/conncheck.c:2104-2149 | A success response that fits keeps the selected pair on top, although unfreezing comes before selecting |
| ConncheckTicks.SuccessRankedIff | agent/conncheck.c:2104-2149 | A success response leaves every selection on top if and only if it came in on the component of its pair, or the pair is not nominated, or its own component already has a selection that is not outranked by it |
| ConncheckTicks.OnResponseStep | agent/conncheck.c:2056-2181 | A response on any component keeps the invariants; only a success response from the right address lets a pair succeed |
| ConncheckTicks.ResponseRankedIff | agent/conncheck.c:2056-2151 | A response, whatever its outcome short of a role conflict, leaves every selection on top if and only if it is no success for a nominated pair of another component that nothing outranks |
| ConncheckTicks.TickStep | agent/conncheck.c:389-450 | A timer tick keeps the invariants; what it sends is in ConncheckRequests, what it concludes in ConncheckOutcome |
| ConncheckRequests.TickBalanced | agent/conncheck.c:250-450 | In a tick every pair sends exactly one request for a check that starts and one for every retransmission its timer counts, each the request that is outstanding; a request is given up only after all its retransmissions, and nothing else is sent |
| ConncheckRequests.OutstandingIsCounted | agent/conncheck.c:287-318 | Between any two moments of a run of ticks a pair whose request stays outstanding sends that request exactly as often as its timer has counted retransmissions, and no other |
| ConncheckRequests.GivenUpAfterFour | agent/conncheck.c:287-297 | A check that is started and given up in a run of ticks has sent its request exactly four times: once and three retransmissions |
| ConncheckRuns.OutsideIsTold | agent/conncheck.c:106-128 | In every run of all entry points no component changes its state without a signal, and no request is outstanding that was not sent |
| ConncheckTermination.RequestsAreBounded | agent/conncheck.c:250-378 | In every run of ticks with no inbound traffic at most four requests are sent for a pair, and no more than its state and its timer leave; the exact number is in ConncheckRequests.OutstandingIsCounted and GivenUpAfterFour |
| ConncheckTermination.TickFalls | agent/conncheck.c:389-450 | In every tick each change of the state of a pair brings it strictly closer to its end, no pair moves away from it, and every request is paid for by its rank |
| ConncheckTermination.WorkIsDone | agent/conncheck.c:389-450 | Whenever one check is due, or a pair waits, is frozen or is to be nominated, the tick of a controlling agent brings some pair strictly closer to its end |
| ConncheckTermination.WorkIsBounded | agent/conncheck.c:389-450 | In every run of ticks of a controlling agent at most as many ticks find something to do as the rank of its pairs |
| ConncheckTermination.KeptMovesOrWaits | agent/conncheck.c:250-450 | A tick of a controlling agent that keeps the timer has moved a pair or has the deadline of an outstanding request ahead |
| ConncheckTermination.TimerStopsInTime | agent/conncheck.c:389-450 | From any check-list state a controlling agent without inbound traffic, whose ticks come at most a given gap apart, has stopped its timer once its clock has passed the last deadline and a span for each rank of its pairs |
| ConncheckTermination.ControlledWaitsIff | agent/conncheck.c:340-362 | When all checks have ended a controlled agent keeps its timer, changing nothing, if and only if some stream still awaits nomination |
| ConncheckAgents.XiceAgent.InitiatePair | agent/conncheck.c:106-118 | Starting a check in place equals the function on check lists |
| ConncheckAgents.XiceAgent.SendPair | agent/conncheck.c:1586-1683 | Sending a check in place equals the function on check lists |
| ConncheckAgents.XiceAgent.UnfreezeNextPair | agent/conncheck.c:130-173 | The search over streams and pairs equals the function on check lists |
| ConncheckAgents.XiceAgent.UnfreezeRelatedPairs | agent/conncheck.c:186-240 | The loop equals the function on check lists |
| ConncheckAgents.XiceAgent.UpdateSelected | agent/conncheck.c:1069-1095 | Changes the selected pair exactly when the new one has a higher priority |
| ConncheckAgents.XiceAgent.PrunePending | agent/conncheck.c:1691-1747 | The two loops equal pruning by the highest nominated priority; the result is zero if and only if nothing of the component is in progress |
| ConncheckAgents.XiceAgent.UpdateReadyState | agent/conncheck.c:1153-1184 | Equals the function on check lists, of which ConncheckOutcome.ReadyIff says when the component becomes READY |
| ConncheckAgents.XiceAgent.MarkNominated | agent/conncheck.c:1191-1212 | The loop equals the function on check lists |
| ConncheckAgents.XiceAgent.UpdateFailedComponents | agent/conncheck.c:1107-1140 | The loop equals the function on check lists |
| ConncheckAgents.XiceAgent.AddNewPair | agent/conncheck.c:1218-1247 | Insertion and limit in place equal the function on check lists |
| ConncheckAgents.XiceAgent.AddForRemote | agent/conncheck.c:1296-1313 | Pairing a remote candidate with all local ones equals the function on check lists |
| ConncheckAgents.XiceAgent.AddForLocal | agent/conncheck.c:1325-1342 | Pairing a local candidate with all remote ones equals the function on check lists |
| ConncheckAgents.XiceAgent.ScheduleTriggered | agent/conncheck.c:1759-1836 | Equals the function on check lists |
| ConncheckAgents.XiceAgent.RecalculatePriorities | agent/conncheck.c:1958-1970 | The nested loops give every pair of every stream its priority in the current role |
| ConncheckAgents.XiceAgent.CheckRoleConflict | agent/conncheck.c:1976-1989 | Changes the role and the priorities exactly when the role differs |
| ConncheckAgents.XiceAgent.Reply | stun/usages/ice.c:261-279 | Decides a request as the role rule says: smaller tie-breaker switches, otherwise a 487 error |
| ConncheckAgents.XiceAgent.HandleRequest | agent/conncheck.c:2894-2949 | Handling a request in place equals the function on check lists |
| ConncheckAgents.XiceAgent.DiscoverPair | agent/conncheck.c:1926-1952 | Adds the peer-reflexive candidate and its pair as the function on check lists says |
| ConncheckAgents.XiceAgent.MapReply | agent/conncheck.c:2056-2181 | Handling a response in place equals the function on check lists |
| ConncheckAgents.XiceAgent.TickOneStream | agent/conncheck.c:250-378 | The loops over a stream equal the function on check lists, including the result and every request sent, which ConncheckRequests.TickBalanced counts |
| ConncheckAgents.XiceAgent.OnTick | agent/conncheck.c:389-450 | The timer callback equals the function on check lists, including the result and the log; see ConncheckRequests.TickBalanced and ConncheckOutcome.StopOutcome |
| ConncheckAgents.XiceAgent.Schedule | agent/conncheck.c:829-853 | Starting the checks equals the function on check lists |
| ConncheckDriver.Perform | agent/conncheck.c:389-2181 | The agent object serves each kind of event as the run of values does |
| ConncheckDriver.Serve | agent/conncheck.c:389-2181 | An agent object that serves the events of a run goes through its states; with a fixed role and fitting events no valid nominated pair of the object outranks the selected one and READY was signalled only when settled |
| RoleConflict.RolesAreRepaired | agent/conncheck.c:1958-2168 | Two agents that start in the same role: the one with the larger tie-breaker never changes it; at every moment the other has changed if and only if it has processed a conflicting message, so it changes once and never back, despite stale requests and 487 replies |
| RoleConflict.MirroredAfterRepair | agent/agent.c:1268-1274 | Once repaired, both agents hold equal priorities for mirrored pairs |
| RoleConflict.DifferentRolesStay | agent/conncheck.c:1976-1989 | Two agents that start in different roles never change them and never send a 487 |
| RoleConflict.AnswerIsStandardIff | stun/usages/ice.c:261-279 | A role clash is resolved as section 7.2.1.1 of RFC 5245 says if and only if the agent is controlling |
| StunMessages.ValidateBuffer | stun/stunmessage.c:529-595 | The validator decides acceptance and returns the length; the headers it reads are exactly the attribute boundaries |
| StunMessages.Find | stun/stunmessage.c:85-137 | Searching an accepted buffer ends, visits only its boundaries in order, returns a position inside it, and finds the first value of the type up to the MESSAGE-INTEGRITY/FINGERPRINT cut-off |
| StunMessages.FindUnknowns | stun/stunagent.c:665-694 | Collects the unknown mandatory types in order up to the limit, visiting exactly the boundaries |
| StunMessages.LengthExactIff | stun/stunmessage.c:75-79 | The 16-bit message length of an accepted buffer is right if and only if it is below 64 KiB |
| StunWriter.LongMessageExists | stun/stunmessage.c:75-79 | Accepted messages of 64 KiB and more exist: one attribute of 65528 bytes makes one, whose computed length is below that of a header |
| StunWriter.WrittenIsFound | stun/stunmessage.c:326-377 | For every sequence of attributes appended to an initialised message with cookie and room, the validator returns the length and searching finds the first value of each type, up to the cut-off |
| StunWriter.EncodeBack | stun/stunmessage.c:529-595 | The validator accepts an encoded message in full and searching sees exactly its attributes |
| StunWriter.AppendEncodes | stun/stunmessage.c:326-365 | Appending encodes one attribute more, with or without the cookie |
| StunWriter.FindLast | stun/stunmessage.c:85-137 | An appended attribute becomes the one found for its type if and only if nothing before covers it |
| StunWriter.XorAddressBack | stun/stunmessage.c:415-486 | An IPv4 or IPv6 address written with the exclusive or is read back, whatever follows it |
| StunWriter.XorAddressTwice | stun/utils.c:90-122 | Applying the exclusive or twice gives the address back |
| StunWriter.TypeBackIff | stun/utils.c:76-88 | Class and method can be read back from the type field if and only if they are not the error class of method 5 |
| StunWriter.StunMessage.Init | stun/stunmessage.c:59-73 | Starts an empty message in the buffer, if the header fits |
| StunWriter.StunMessage.Append | stun/stunmessage.c:326-377 | Appends in place exactly when the unpadded attribute fits, and then encodes it with its padding; the length in the header is right if and only if the message stays below 64 KiB |
| StunWriter.PaddingStaysIff | stun/stunmessage.c:340-360 | The padding of every attribute that passes the room test stays inside the buffer if and only if the size of the buffer is a multiple of four |
| StunExchange.RequestIsAccepted | stun/stunagent.c:98-645 | A request finished with a key validates as SUCCESS at an agent of the same compatibility and flags whose validater returns that key, is recorded with that key for its response, and changes nothing there |
| StunExchange.ResponseIsAcceptedOnce | stun/stunagent.c:98-645 | The reply finished with what the validation of the request returned is accepted by the requester, and the second time finds no transaction |
| StunExchange.OnlySuccessCloses | stun/stunagent.c:166-325 | Only an accepted reply closes a transaction, and only its own; a failed integrity check leaves the table as it was |
| StunSoundness.AcceptedIff | stun/stunagent.c:98-325 | A message is accepted if and only if it has whole attributes, the cookie and a right fingerprint where asked for, answers an open transaction if it is a reply, presents its credentials, and its integrity is the HMAC under the expected key where there is one; a rejected message changes nothing, an accepted reply closes exactly its own transaction |
| StunSoundness.AcceptedIsSigned | stun/stunagent.c:237-306 | Unless credentials are ignored, a message accepted with a non-empty key (the validater's, or the open transaction's) carries twenty bytes that are the HMAC, under that key or its long-term form, of the type, the replaced length and all bytes up to the integrity, filled up to whole blocks except for RFC 5389 |
| StunSoundness.ForgeryIsRefused | stun/stunagent.c:295-298 | With any other twenty bytes in that place, whatever follows, an otherwise well-formed message is unauthorized and the table of transactions stays as it was |
| StunSoundness.StatusIs | stun/stunagent.c:98-325 | Which status every message gets, in the order of the conditions |
| StunSoundness.FinishedIff | stun/stunagent.c:511-645 | Finishing succeeds if and only if there is room for the integrity and the fingerprint, and for a request a free slot; it extends the message by exactly these, enters a request into the first free slot and touches no other transaction |
| StunSoundness.ForgetsFirst | stun/stunagent.c:327-341 | Forgetting closes exactly the first open transaction with the identifier, and tells whether there was one |
| StunSoundness.ForgottenIsUnmatched | stun/stunagent.c:166-188 | After that no reply is accepted for it, if its identifier was used once |
| StunExchange.SameBytes | stun/stunhmac.c:53-83 | Sender and receiver authenticate the same bytes and the same length, also when a fingerprint was appended in between |
| StunExchange.FingerprintMatches | stun/stun5389.c:70-87 | The fingerprint written is the one the receiver computes |
| StunExchange.MacMatches | stun/stunagent.c:230-303 | The integrity value sits where the receiver looks for it and is the one it computes |
| StunExchange.FinishOpens | stun/stunagent.c:511-645 | Finishing a request with a new identifier opens the only transaction with it |
| StunAgentObjects.StunAgent.FinishMessage | stun/stunagent.c:511-645 | Finishing in the buffer and the table equals the function on values |
| StunAgentObjects.StunAgent.Sign | stun/stunagent.c:562-602 | Reserving the attribute and hashing the buffer gives the integrity of the message before it |
| StunAgentObjects.StunAgent.ValidateMessage | stun/stunagent.c:98-325 | Validation equals the function on values, including the table and the record of the key for a response; StunSoundness.AcceptedIff says what is accepted |
| StunAgentObjects.StunAgent.ForgetTransaction | stun/stunagent.c:327-341 | Closes the first open transaction with the identifier |
| StunAgentObjects.StunAgent.FindFree | stun/stunagent.c:519-529 | Finds the first free slot |
| IceUsage.CheckArrives | stun/usages/ice.c:60-130 | A check created and finished by one agent is accepted by a peer of the same kind that knows the key, and read there with the same role, tie-breaker, priority and nomination |
| IceUsage.CheckBack | stun/usages/ice.c:352-368 | A message in which the attributes of a check are found is read as that check |
| IceUsage.ConflictConcluded | stun/usages/ice.c:151-166 | A finished 487 reply makes the sender of the check conclude a role conflict |
| IceUsage.MappingConcluded | stun/usages/ice.c:171-200 | A finished success reply tells the sender of the check the address it came from, for IPv4 and IPv6 |
| IceUsage.ErrorBackIff | stun/stunmessage.c:305-323 | An error code that was written is read back if and only if it lies in 300..699 |
| HashSpec.CountExact | stun/sha1.c:209-231 | The two-word bit counter is exact modulo 2^64 after every update |
| HashSpec.AbsorbLong | stun/sha1.c:209-231 | An update that fills blocks absorbs the data, whatever was buffered |
| Sha1.GuardRightIff | stun/sha1.c:209-231 | The 32-bit test whether an update fills the block is right if and only if the filled part of the block and the new bytes together stay below 2^32; otherwise it takes more bytes than the block holds for the block |
| Sha1.Sha1Context.Update | stun/sha1.c:209-231 | Absorbs any data for which that test is right, however it is split |
| Sha1.Sha1Context.Final | stun/sha1.c:233-260 | Gives the digest of the padded whole message of section 4 of RFC 3174 |
| Sha1.CutNothingIff | stun/sha1.c:473-483 | The lengths passed on as 32-bit numbers lose no byte if and only if every piece is shorter than 2^32 |
| Sha1.Sha1Vector | stun/sha1.c:473-483 | The digest of pieces is the digest of their concatenation, less what the 32-bit lengths lose |
| Sha1.HmacVector | stun/sha1.c:337-397 | HMAC over at most five pieces, with key and pieces cut to 32-bit lengths; it is that of section 2 of RFC 2104 if key and pieces are shorter than 2^32; more pieces are refused |
| Sha1.HmacContext.constructor | stun/sha1.c:265-292 | Starts an HMAC with a key of any length; a long one is hashed with its length cut to 32 bits |
| Sha1.HmacContext.Update | stun/sha1.c:294-297 | Absorbs text |
| Sha1.HmacContext.Final | stun/sha1.c:299-323 | Gives the value of the one-call form, which is the HMAC of section 2 of RFC 2104 for keys shorter than 2^32 |
| Md5.Md5Context.Update | stun/md5.c:79-125 | Absorbs any data, however it is split |
| Md5.Md5Context.Final | stun/md5.c:127-166 | Gives the digest of the padded whole message of section 3 of RFC 1321 |
| Sdp.StreamBack | agent/agent.c:2823-3077 | Parsing a generated stream gives back the user fragment, the password and the UDP candidates in reverse order, each as printed |
| Sdp.CandidateBack | agent/agent.c:2802-3180 | A printed candidate is parsed with the same foundation, component, priority, address and type, and with its related address exactly if that differs and has a nonzero port |
| SdpText.WordBack | agent/agent.c:2808-3114 | A 32-bit word printed as a signed number is read back |
| SdpText.SplitBack | agent/agent.c:3050-3101 | Splitting undoes joining |
| Sdp.MediaIgnored | agent/agent.c:2828-2862 | The non-ICE lines are ignored by the parser |
| Sdp.GenerateCandidate | agent/agent.c:2802-2819 | Appends the candidate line |
| Sdp.GenerateStream | agent/agent.c:2823-2877 | Appends the lines of a stream |
| Sdp.ParseCandidate | agent/agent.c:3080-3180 | The token loop equals the function on tokens |
| Sdp.ParseStream | agent/agent.c:3035-3077 | The line loop equals the function on lines |
| TcpSendQueue.WholeMessagesInOrder | contexts/giotcp.c:292-446 | For every interleaving of sends and writable events with non-fatal write results, the bytes written are whole accepted messages in order, some dropped, plus at most one partial message whose rest is the undroppable head; the queue never exceeds 20 entries |
| TcpSendQueue.ErrorKeepsOrderIff | contexts/giotcp.c:358-419 | A write error on the head keeps whole messages in order if and only if none of it was written yet |
| TcpSendQueue.RoomIsMade | contexts/giotcp.c:423-446 | Dropping the oldest droppable entry always makes room |
| TcpSendQueue.DroppedOnlyWhenFull | contexts/giotcp.c:292-341 | A send drops a message if and only if 20 entries are queued, and then the oldest one that is not written in part; the new message is kept |
| TcpSendQueue.NothingDroppedWithRoom | contexts/giotcp.c:292-446 | In a run whose sends all find fewer than 20 entries every offered message is kept, in order, and all are written once the queue is empty |
| TcpSendQueue.FlushKeeps | contexts/giotcp.c:358-419 | Writing while the kernel takes bytes or blocks keeps the order and loses nothing |
| TcpSendQueue.SendKeeps | contexts/giotcp.c:292-341 | Sending keeps the order, and the kept messages stay the offered ones with some left out |
| TcpSendQueue.TcpSocket.AddToBeSent | contexts/giotcp.c:423-446 | Queueing in place equals the function on queues |
| TcpSendQueue.TcpSocket.Write | contexts/giotcp.c:292-341 | Sending in place equals the function on queues |
| TcpSendQueue.TcpSocket.SendMore | contexts/giotcp.c:358-419 | The write loop equals the function on queues |
| StunTimer.TotalTimeout | stun/usages/timer.c:89-155 | If the longest delay stays below 2^31 ms, then for any polling times: after k retransmissions the deadline is start + initial * (2^(k+1) - 1) ms; TIMEOUT comes after exactly the allowed retransmissions and less than 1 ms before the documented total at the earliest |
| StunTimer.TotalTimeoutFails | stun/usages/timer.c:89-155 | If the longest delay reaches 2^31 ms there are polling times at which the timer does not behave as documented |
| StunTimer.LongTimerExists | stun/usages/timer.c:89-155 | With the initial timeout of 600 ms the longest delay reaches 2^31 ms at 22 retransmissions and not before |
| StunTimer.DeadlineIsNoticed | stun/usages/timer.c:140-155 | A poll at or after the deadline retransmits or times out |
| StunTimer.AddDelayExactIff | stun/usages/timer.c:89-100 | Adding a 32-bit delay is exact, whatever the carry, if and only if it is below 2^31 ms; a longer one moves the deadline back |
| StunTimer.RemainderZeroIff | stun/usages/timer.c:121-138 | For a deadline less than 2^32 - 1 ms ahead the remainder is zero if and only if the deadline has passed or lies less than 1 ms ahead in the same second |
| StunTimer.StunTimerObject.Extend | stun/usages/timer.c:89-100 | The normalising loop equals the function |
| StunTimer.StunTimerObject.Restart | stun/usages/timer.c:103-112 | Starting in place equals the function |
| StunTimer.StunTimerObject.Poll | stun/usages/timer.c:140-155 | Refreshing in place equals the function, including the result |

## Left out

- Pseudo-TCP connections of 2^32 bytes or more: sequence numbers are compared without wrap-around, and the model is stated for shorter connections.
- Closing a pseudo-TCP connection: neither endpoint of the two-endpoint system closes; a shutdown is modelled only in what it does to arriving data.
- The callbacks, the readable and writable flags, `errno`, `get_next_clock` and the traffic statistics of the pseudo-TCP socket; each API call sees one clock reading, within 2^31 ms of the connection's start.
- PseudoTcpRuns.DeliveredIsPrefix: MTUs are above the packet overhead of 116 (PseudoTcpInput.AdjustMtuOk says that the invariant fails below).
- PseudoTcpSafety.EveryRunIsSafe: acknowledgements are on segment boundaries, which the two-endpoint system provides (PseudoTcpSend.FreeTilesIff says what happens otherwise).
- PseudoTcpProgress.SendsAll: the network takes every packet it is offered; PseudoTcpOutput.AttemptSend holds for all write results.
- PseudoTcpArrival.EverythingCanArrive: each direction carries fewer than 2^32 - 1 bytes.
- PseudoTcpProgress.ReactsAsReno: the network takes every packet, and the round-trip estimate is stated below 2^28 ms, where no 32-bit product wraps around.
- PseudoTcpWire.PacketBackIff: packets of 12 to 23 bytes, shorter than the header, are not modelled.
- The GOOGLE, MSN, WLM2009 and OC2007 variants of the connectivity checks, TURN allocations, keepalives, candidate gathering, restarts and manual selection.
- Usernames, passwords and the building of a check message: whether it can be built is a parameter, and transaction identifiers are fresh numbers.
- Matching stored early checks to new remote candidates: the replay of one stored check is modelled, not the search that decides which are replayed.
- Components with an identifier above 256, for which the candidate priority formula leaves its range.
- Changing the priority of a known remote candidate: candidates are fixed once they are known.
- ConncheckRuns.SelectionIsBest: candidates belong to the component they are given to and have positive priorities.
- ConncheckRuns.SuccessIsEarned: streams are neither added nor removed during a run.
- ConncheckTermination.TimerStopsInTime: the agent is controlling; a controlled agent may wait for nomination without end (ConncheckTermination.ControlledWaitsIff).
- ConncheckOutcome.RemotePaired: the check list has room for the new pairs; beyond the limit the code cuts the list.
- ConncheckOutcome.LocalPaired: the check list has room for the new pairs.
- ConncheckOutcome.RequestOutcome: the request comes in on the socket of a local candidate, and the check list has room for the new pairs.
- RoleConflict.RolesAreRepaired: the tie-breakers differ, no application sets the role, and messages of third parties do not pass the integrity check.
- STUN attributes without alignment, and the exchange of REALM and NONCE in the OC2007 variant.
- StunWriter.StunMessage.Append: the padding stays inside the buffer, beyond which the model has no memory to write to; StunWriter.PaddingStaysIff says for which buffers that is so.
- StunAgentObjects.StunAgent.FinishMessage: the finished message stays below 64 KiB; with long-term credentials but without username or realm the code remembers an uninitialised key, the model none.
- StunAgentObjects.StunAgent.Sign: the signed message stays below 64 KiB.
- StunAgentObjects.StunAgent.ValidateMessage: a MESSAGE-INTEGRITY value with fewer than 20 bytes left in the buffer counts as wrong.
- StunSoundness.ForgeryIsRefused: the forged message keeps the length and the bytes up to the integrity value; StunSoundness.AcceptedIsSigned covers all others.
- The SOFTWARE attribute, the unknown-attributes error message and the trimming of credentials.
- The compression functions of SHA-1 and MD5, the CRC table and the pseudo-random functions.
- Sha1.Sha1Context.Update: updates for which the 32-bit block test is wrong, which write outside the context; Sha1.GuardRightIff says which they are.
- Sha1.Sha1Vector: pieces for which that test is wrong once their lengths are cut.
- Sha1.HmacVector: pieces for which that test is wrong once their lengths are cut.
- The big-endian variant of MD5 and the scrubbing of contexts.
- Sdp.CandidateBack: addresses print without spaces and newlines and are read back; foundations have at most 32 characters without spaces.
- Sdp.ParseCandidate: a related address without a port, for which the code tests an uninitialised variable, counts as absent.
- Parsing an SDP with several streams, and the choice of default candidates for its media lines.
- StunTimer.TotalTimeout: the clock does not read earlier than the start of the timer, which the code asks of it (a monotonic clock).
- TcpSendQueue.WholeMessagesInOrder: write results are non-fatal; TcpSendQueue.ErrorKeepsOrderIff says when an error keeps the order.
- `socket/`, the GObject layer, main-loop contexts, real sockets, memory management and debug output.
