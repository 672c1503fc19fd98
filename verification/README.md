# Verification of smoltcp's stateful core

This project models five parts of the smoltcp TCP/IP stack in Dafny and proves what they promise, for
every input, every run and every reachable state:

* **The TCP socket** (`TcpModel.dfy`, `TcpSocket.dfy`). The eleven-state machine behind `process`,
  `dispatch`, `poll_at` and the calls of the application, as functions on a value and as an object that
  holds the ring buffers, the range tracker and the round-trip estimator, updates them in place, and is
  proved to compute those functions. Sequence arithmetic is a parameter: `Wrapped` is the program's 32-bit
  arithmetic, `Ideal` is unbounded.
  * `TcpInvariant.dfy`, `TcpReachable.dfy`: what holds of one socket in every run, whatever arrives.
  * `TcpCalls.dfy`: what the calls mean for the application.
  * `TcpArrival.dfy`: what an arriving segment does, said from the socket and the segment alone: which are answered
    and how, what becomes of the octets, the window, the timers and the state.
  * `TcpSending.dfy`: what a poll does: when it sends, which octets and how many, and what is on record afterwards.
  * `TcpPolling.dfy`: the contract between `poll_at` and `dispatch`, and when polling comes to rest.
  * `TcpNetwork.dfy`, `TcpDelivery.dfy`, `TcpStream.dfy`: two sockets joined by a network that drops,
    duplicates and reorders segments; end-to-end stream safety, conservation and flow control.
  * `TcpWrap.dfy`, `TcpCommute.dfy`, `TcpProgram.dfy`: the 32-bit socket does on encoded numbers what the
    unbounded one does, so the end-to-end theorems hold of the program's sockets.
  * `TcpEdge.dfy`: exactly when the window comparison stays in its domain, in every state.
  * `TcpWitness.dfy`: runs, step by step, that reach the states of the findings below.
  * `Timers.dfy`, `RttEstimator.dfy`: timers and the retransmission-timeout estimator.
  * `RingBuffer.dfy`, `RingBufferArray.dfy`: the socket buffers, as a value and over an array.
* **The reassembly tracker** (`AssemblerSpec.dfy`, `AssemblerArray.dfy`). The fixed array of (hole, data)
  pairs, edited in place, behaves exactly like a set of offsets.
* **The datagram reassembler** (`Fragmentation.dfy`, `FragmentationSet.dfy`). Slots found by key, reused
  without clearing.
* **The DHCP client** (`Dhcp.dfy`). A timed state machine with exact deadlines, and the lease that a message grants.
* **The IPv6 address parser** (`ParserSpec.dfy`, `Parser.dfy`, `ParserRoundTrip.dfy`, `ParserPrint.dfy`,
  `ParserExact.dfy`).

Some properties that one would expect turn out to be false of the code. Each is stated with an input and
with the exact condition under which it holds:

* Polling does not always come to rest. `FIN-WAIT-2` can be entered with the zero-window-probe timer still
  armed, and no branch of `dispatch` rewinds it there. `TcpPolling.SettlesIffNotStuck` shows that this is the
  only such state, `TcpReachable.StuckArises` how it arises, and `TcpWitness.NeverAtRest` a run of two honest
  endpoints that reaches it.
* The subtraction in `last_scaled_window` can leave its domain, which would be a panic. `TcpEdge.EdgeAfterProcess`
  says for every state and every segment when it does; there are three cases. A segment that starts at the left
  edge, with nothing missing before it, is longer than the window last advertised
  (`TcpEdge.OverrunsWhenTold`): a one-octet probe after a read (`TcpWitness.ProbeAfterRead`), or data inside an
  edge advertised earlier when the next acknowledgement rounded the window down to its scale
  (`TcpWitness.RoundedWindow`). A socket in SYN-SENT takes the peer's SYN before its own has gone out, so that no
  window was ever sent (`TcpWitness.SimultaneousOpen`, in two events). A listening socket keeps the edge of an
  attempt that was reset, and the next SYN lies beyond it; its own SYN comes before the comparison then.
  `TcpEdge.PollAfterProcess`, `TcpEdge.PollAfterOpening` and `TcpEdge.PollAfterListening` say when `dispatch` and
  `poll_at` run into it, and `TcpEdge.SocketWithinEdges` and `TcpEdge.RunsWithinEdges` that runs without such a
  segment need no hypothesis on polling. Elsewhere the hypothesis is `DispatchSafe`.
* Octets that were received are not always kept until they are read: the end of TIME-WAIT drops them. It is
  the only step that does (`TcpStream.UnreadOctetsStay`, `TcpStream.UnreadStep`,
  `TcpWitness.TimeWaitDropsUnread`).
* The size of a segment is not always bounded by the SYN that opened the connection. A listening socket keeps the
  segment size of an attempt that was reset, and goes by it when the next SYN names none
  (`TcpWitness.StaleSegmentSize`).
  `TcpSending.SizeAtOpening` gives the condition and `TcpSending.SizeInRun` the size in every run.
* A REQUEST of the DHCP client does not always move its deadline: the doubled wait is a 64-bit number that is
  added as a signed one. `DhcpModel.SendMovesDeadline` gives the condition, and `DhcpModel.DefaultBackoff` the
  first try at which the default timeout fails, the 83rd of a request phase.
* The parser's texts are not exactly those of section 2.2 of RFC 4291. A single zero group at either end
  cannot be written as `::` (`ParserPrint.PrintedWithGap`); `::` may stand for no group at all
  (`ParserRoundTrip.GapRoundTrip`); three colons are read as two (`ParserExact.ThirdColonIgnored`); and of the
  third form, with a dotted quad, only the IPv4-mapped addresses are read: six groups and a quad only if the
  groups are `0:0:0:0:0:ffff` (`ParserExact.QuadAfterSix`), and a quad right after `::`, as in `::13.1.68.3`,
  never (`ParserExact.QuadAfterGapRefused`). After `::ffff:` the quad need not come last
  (`ParserExact.QuadInTheMiddle`). `ParserExact.AcceptedIff` says exactly which texts are read, and as which
  address.

`dafny verify dfyconfig.toml` checks the whole project.

## Model

| member | source | states |
|---|---|---|
| `TcpStream.ConnectionSafety` | smoltcp/src/socket/tcp.rs:1679-1808 | in every run of two endpoints over a lossy, duplicating, reordering network, in both directions and in every state, CLOSED included: what B delivered and buffered is a prefix of what A's application wrote, and all of it once B's socket has A's FIN on record; every octet written is still in A's transmit buffer or received in order by B; FIN-WAIT-2 and TIME-WAIT mean the peer has everything and the FIN; no octet beyond an advertised edge except one-octet probes |
| `TcpStream.UnreadOctetsStay` | smoltcp/src/socket/tcp.rs:2340-2419 | after every run, for either endpoint, everything received in order was read or waits to be read, in CLOSED too, if and only if no poll of the run ended its TIME-WAIT while octets were unread |
| `TcpStream.UnreadStep` | smoltcp/src/socket/tcp.rs:2340-2419 | octets once lost stay lost, and a step loses some if and only if it is that poll |
| `TcpWitness.TimeWaitDropsUnread` | smoltcp/src/socket/tcp.rs:2340-2419 | a run of two honest endpoints, step by step, after which that poll drops an octet of a completed stream |
| `TcpStream.FreshWorldEstablished` | smoltcp/src/socket/tcp.rs:557-617 | the start of those runs exists: two sockets right after the handshake, for all buffers, different ones on both sides, all endpoints and initial sequence numbers, with and without window scaling |
| `TcpStream.RunWorldInv` | smoltcp/src/socket/tcp.rs:1558-2206 | the invariant of both directions (buffers hold exactly the unacknowledged octets, octets that arrived ahead are right, acknowledgements and windows in flight are true) holds after every run |
| `TcpStream.LastAckConserves` | smoltcp/src/socket/tcp.rs:1974-1980 | leaving LAST-ACK for CLOSED on an acknowledgement implies that the peer received every octet and the FIN |
| `TcpStream.NoSegmentIsCut` | smoltcp/src/socket/tcp.rs:1740-1753 | trimming at the right edge of the window never removes an octet of a segment the peer has sent |
| `TcpStream.OnlyProbesExceed` | smoltcp/src/socket/tcp.rs:2497-2526 | whatever a socket sends beyond every edge its peer has advertised is a single octet, sent as a zero-window probe |
| `TcpDelivery.ProcessKeeps` | smoltcp/src/socket/tcp.rs:1558-2206 | the arrival of any segment of the peer, old, repeated or new, or of any reset, keeps both directions |
| `TcpDelivery.Arrive` | smoltcp/src/socket/tcp.rs:2122-2163 | an accepted segment extends what was received by exactly the octets the peer wrote next, and a counted FIN completes the stream |
| `TcpDelivery.ReceiveLast` | smoltcp/src/socket/tcp.rs:2130-2140 | a payload at the left edge that reaches the end of the stream is never refused and leaves nothing ahead |
| `TcpDelivery.FinIsLast` | smoltcp/src/socket/tcp.rs:1803-1808 | a FIN that is not quashed comes with a payload that starts at the left edge and ends the stream |
| `TcpDelivery.Acked` | smoltcp/src/socket/tcp.rs:2005-2082 | after an acknowledgement the transmit buffer holds exactly what is written and still unacknowledged; an acknowledged FIN means its number is one past the last octet written |
| `TcpNetwork.DispatchKeeps` | smoltcp/src/socket/tcp.rs:2340-2659 | what `dispatch` sends carries the right octets at the right numbers, acknowledges only what was received and advertises only what fits, and keeps both directions |
| `TcpNetwork.DraftFlowOk` | smoltcp/src/socket/tcp.rs:2497-2526 | a data segment stays inside an advertised edge, or is a probe of at most one octet |
| `TcpNetwork.OwnAckOk` | smoltcp/src/socket/tcp.rs:748-750 | for any window shift, the window a socket advertises ends inside its receive buffer |
| `TcpReachable.SequenceSpace` | smoltcp/src/socket/tcp.rs:1558-2206 | in every run of a new socket under arbitrary segments: local_seq_no <= remote_last_seq <= local_seq_no + transmit length + c, with c = 1 exactly in the states with an unacknowledged SYN or FIN |
| `TcpReachable.Lifecycle` | smoltcp/src/socket/tcp.rs:1811-1986 | in every run: the FIN is counted exactly in CLOSE-WAIT, LAST-ACK, CLOSING and TIME-WAIT; TIME-WAIT has the close timer; FIN-WAIT-2 and TIME-WAIT have nothing to send; SYN-SENT and SYN-RECEIVED have empty buffers and tracker; LISTEN has no peer and every other open state has one |
| `TcpReachable.ProcessInDomain` | smoltcp/src/socket/tcp.rs:2005-2163 | in every run: what is acknowledged is in the transmit buffer, what is kept of a segment fits the free space and is written whole, what becomes contiguous fits too, and nothing at the left edge is refused |
| `TcpReachable.DispatchInDomain` | smoltcp/src/socket/tcp.rs:2525-2526 | in every run the subtraction that locates the unsent octets is in its domain and the payload lies in the transmit buffer |
| `TcpEdge.EdgeAfterReceive` | smoltcp/src/socket/tcp.rs:761-778 | after a payload is stored, the subtraction in `last_scaled_window` is in its domain if and only if some octet up to the advertised edge is neither there before nor in the payload |
| `TcpEdge.EdgeAfterProcess` | smoltcp/src/socket/tcp.rs:1558-2206 | in every state and for every segment, `process` keeps that subtraction in its domain if and only if the segment neither overruns the edge, nor opens a connection whose socket has sent no window yet, nor one whose socket kept an edge that lies before it: a condition on socket and segment before the call |
| `TcpEdge.PollAfterProcess` | smoltcp/src/socket/tcp.rs:761-778 | after a plain segment at a socket at rest, `dispatch` is in the domain of the program if and only if the segment did not overrun the edge or the acknowledgement is due, and `poll_at` if and only if it did not overrun |
| `TcpEdge.OverrunsWhenTold` | smoltcp/src/socket/tcp.rs:748-778 | right after an acknowledgement, a segment at the left edge that fits the buffer overruns if and only if it is longer than the window that was told |
| `TcpEdge.RunsWithinEdges` | smoltcp/src/socket/tcp.rs:2322-2338 | in runs of two endpoints in which no arriving segment overruns the edge, every poll is in the domain of the program |
| `TcpEdge.SocketWithinEdges` | smoltcp/src/socket/tcp.rs:2322-2338 | in every run of one socket, whatever arrives, as long as no segment loses the edge in this sense, every poll is in the domain of the program |
| `TcpEdge.PollAfterOpening` | smoltcp/src/socket/tcp.rs:1885-1919 | right after a socket in SYN-SENT takes the peer's SYN, `poll_at` is in the domain of the program if and only if the socket had sent a window |
| `TcpEdge.PollAfterListening` | smoltcp/src/socket/tcp.rs:1835-1866 | right after a listening socket takes a SYN, polling is in the domain of the program, whatever edge it kept |
| `TcpWitness.ProbeAfterRead` | smoltcp/src/socket/tcp.rs:761-778 | a run of two honest endpoints, step by step, in which a probe after a read takes the subtraction out of its domain until its acknowledgement is due |
| `TcpWitness.RoundedWindow` | smoltcp/src/socket/tcp.rs:748-778 | a run of a new socket, event by event, without probe or read, in which rounding the window to its scale does the same to data inside the edge first advertised |
| `TcpWitness.SimultaneousOpen` | smoltcp/src/socket/tcp.rs:1885-1919 | a new socket connects, the peer's SYN arrives before its own has gone out, and `poll_at` leaves the domain of the subtraction |
| `TcpReachable.StuckArises` | smoltcp/src/socket/tcp.rs:1931-1938 | FIN-WAIT-1 with the probe timer armed becomes FIN-WAIT-2 with that timer armed when the FIN is acknowledged with a closed window, and polling then never comes to rest |
| `TcpWitness.NeverAtRest` | smoltcp/src/socket/tcp.rs:1931-1938 | a run of two honest endpoints, step by step, that reaches such a state: the probe carries the last octet and the FIN |
| `TcpInvariant.ProcessInv` | smoltcp/src/socket/tcp.rs:1558-2206 | `process` keeps the invariant of a socket for every segment that it accepts |
| `TcpInvariant.DispatchInv` | smoltcp/src/socket/tcp.rs:2340-2659 | `dispatch` keeps the invariant, whether or not the device takes the segment |
| `TcpInvariant.RunInv` | smoltcp/src/socket/tcp.rs:888-2659 | the invariant holds after every sequence of calls, segments and polls |
| `TcpInvariant.NewSocketInv` | smoltcp/src/socket/tcp.rs:557-617 | it holds of a new socket with buffers of up to 2^30 and 2^31 - 2 octets |
| `TcpInvariant.ResetInv` | smoltcp/src/socket/tcp.rs:888-919 | `reset` keeps it, and the window shift is at most 15 |
| `TcpInvariant.UpdateSendSeqSpace` | smoltcp/src/socket/tcp.rs:2005-2082 | taking an acknowledgement keeps the sequence space in order across every state change it causes |
| `TcpInvariant.DataPayloadFits` | smoltcp/src/socket/tcp.rs:2508-2541 | the octets to send are in the buffer, and past its end neither payload nor FIN is sent |
| `TcpInvariant.WindowTest` | smoltcp/src/socket/tcp.rs:1679-1738 | a non-empty segment is accepted iff its first or its last octet is in the window; an empty one iff it lies in it, or at the edge of a closed one |
| `TcpInvariant.OverlapIsIntersection` | smoltcp/src/socket/tcp.rs:1740-1753 | the slice kept is the intersection of segment and window, and the debug assertion holds |
| `TcpInvariant.AckLenFits` | smoltcp/src/socket/tcp.rs:1766-1790 | the acknowledged length is within the buffer, and our FIN counts as acknowledged exactly one past the buffered octets |
| `TcpInvariant.ReceiveOk` | smoltcp/src/socket/tcp.rs:2130-2163 | storing a payload keeps tracker and buffer consistent and is never refused at the left edge |
| `TcpPolling.QuietBeforeDeadline` | smoltcp/src/socket/tcp.rs:2662-2703 | while `poll_at` is later than now, `dispatch` at now sends nothing and changes no field |
| `TcpPolling.PollAtIsExact` | smoltcp/src/socket/tcp.rs:2662-2703 | `dispatch` does nothing if and only if `poll_at` is later than now |
| `TcpPolling.DispatchDecreases` | smoltcp/src/socket/tcp.rs:2340-2659 | every dispatch that was asked for lowers a measure of connection, timestamp, rewind, keep-alive or probe, unsent octets, and owed acknowledgement or window update |
| `TcpPolling.Settles` | smoltcp/src/socket/tcp.rs:2340-2703 | repeated dispatch at one instant ends within the measure, with a later deadline |
| `TcpPolling.StuckForever` | smoltcp/src/socket/tcp.rs:330-335 | FIN-WAIT-2 with a due zero-window probe never comes to rest |
| `TcpPolling.SettlesIffNotStuck` | smoltcp/src/socket/tcp.rs:2340-2703 | repeated dispatch at one instant comes to rest if and only if the socket is not in FIN-WAIT-2 with a due zero-window probe |
| `TcpWrap.AckTestIsModular` | smoltcp/src/socket/tcp.rs:1645-1676 | an acknowledgement is accepted iff its distance modulo 2^32 from local_seq_no is at most what could have been sent |
| `TcpWrap.WindowTestIsModular` | smoltcp/src/socket/tcp.rs:1679-1738 | a non-empty segment is accepted iff modulo 2^32 its first or its last octet is in the window |
| `TcpWrap.CheckAckAgrees` | smoltcp/src/socket/tcp.rs:1582-1676 | the acknowledgement test on 32-bit numbers gives the verdict of the test on unbounded numbers |
| `TcpWrap.CheckWindowAgrees` | smoltcp/src/socket/tcp.rs:1679-1753 | so does the window test, and it keeps the same slice at the same offset |
| `TcpCommute.ProcessCommutes` | smoltcp/src/socket/tcp.rs:1558-2206 | `process` on 32-bit numbers gives the encoded socket and reply of `process` on unbounded ones, for segments within 2^31 of the socket and a last acknowledgement within 2^30 of what was received |
| `TcpCommute.DispatchCommutes` | smoltcp/src/socket/tcp.rs:2340-2659 | likewise for `dispatch` |
| `TcpProgram.ProgramFollows` | smoltcp/src/socket/tcp.rs:1558-2659 | over every run of two endpoints in which segments and estimator are near and acknowledgements less than 2^30 octets behind, the program's sockets hold the encoded state of the unbounded ones, its network carries the encoded segments, and what arrives was sent; all other nearness follows from the invariant |
| `TcpProgram.ProgramSafety` | smoltcp/src/socket/tcp.rs:1679-1808 | so stream safety and conservation hold of the program's 32-bit sockets in every such run |
| `TcpSocket.Socket.Process` | smoltcp/src/socket/tcp.rs:1558-2206 | the object over its ring buffers, tracker and estimator, all edited in place, computes the model's new state and reply and keeps the invariant; every assertion on the way holds; and state and reply are those of the arrival law below |
| `TcpArrival.ArrivalMeaning` | smoltcp/src/socket/tcp.rs:1558-2206 | for every state and every segment that is accepted, from socket and segment alone: a segment outside the window, or one that acknowledges more than was sent, is answered exactly when a second has passed since the last such answer; the answer is bare, goes back where the segment came from, and carries the next unsent number, the next expected number and the window in its scale; a wrong acknowledgement in the handshake is refused with a RST at its number; octets are acknowledged at once exactly when something is or was missing; there is no other reply. The state follows the state diagram, octets in the window are laid in their place and tracked, acknowledged octets are dropped, and window, duplicate count, estimator, delayed acknowledgement and timer are as told; everything else stays |
| `TcpArrival.AcceptsMeaning` | smoltcp/src/socket/tcp.rs:1528-1556 | a listening socket takes exactly what may open a connection to its endpoint, every other open socket exactly what comes from its peer |
| `TcpSocket.Socket.IsFor` | smoltcp/src/socket/tcp.rs:1528-1556 | the object decides this |
| `TcpSocket.Socket.Dispatch` | smoltcp/src/socket/tcp.rs:2340-2659 | likewise for sending, with or without success of the device; the subtractions on the way are in their domain; the segment and the new state are those of the sending law below, and the segment fits |
| `TcpSending.PollMeaning` | smoltcp/src/socket/tcp.rs:2340-2659 | for every state, from the socket alone: when a poll sends, resends, gives up or resets; the segment, whose octets are the largest stretch from the first that is not in flight on that the peer's segment size, the packet, the peer's window (or one octet for a probe), the storage and what is unsent allow; its numbers, window, options and flag; and the numbers, timers and estimator afterwards, with and without success of the device |
| `TcpSending.SegmentFits` | smoltcp/src/socket/tcp.rs:2517-2541 | whatever is sent has no more octets than the segment size of the peer, and with its headers fits the packet, unless it is the one octet of a keep-alive |
| `TcpSending.SizeInRun` | smoltcp/src/socket/tcp.rs:1835-1904 | in every run that size is the one that the last SYN has named that opened a connection since the socket was last opened by its application, or 536 |
| `TcpSending.SizeAtOpening` | smoltcp/src/socket/tcp.rs:1835-1904 | when a SYN opens a connection, the size is the one it names, or 536, if and only if it names one or the socket had no other |
| `TcpWitness.StaleSegmentSize` | smoltcp/src/socket/tcp.rs:1819-1846 | a run of a listening socket in which it is not: the size of an attempt that was reset stays |
| `TcpSocket.Socket.NextPoll` | smoltcp/src/socket/tcp.rs:2662-2703 | the deadline returned is later than an instant exactly when dispatching at that instant would do nothing, now or later |
| `TcpCalls.SendMeaning` | smoltcp/src/socket/tcp.rs:1227-1289 | as much as fits is appended to what is to be sent, in order; refused exactly when the stream is closed for writing, and then nothing changes; a closed window will be probed; only an empty buffer forgets when the peer was last heard; the invariant is kept |
| `TcpSocket.Socket.Send` | smoltcp/src/socket/tcp.rs:1227-1289 | the object does this on its transmit ring, in two parts when the octets wrap around |
| `TcpCalls.RecvMeaning` | smoltcp/src/socket/tcp.rs:1291-1353 | what is handed out followed by what stays is what was there; the window grows by as much and its left edge stays; refused exactly when nothing can come any more |
| `TcpSocket.Socket.Recv` | smoltcp/src/socket/tcp.rs:1291-1353 | the object does this on its receive ring, in two parts when the octets wrap around |
| `TcpCalls.CloseMeaning` | smoltcp/src/socket/tcp.rs:1068-1089 | no more octets are taken, what was taken before is kept, and whatever is sent carries the FIN exactly when the FIN's number is one past the last octet written; reading goes on; closing twice is closing once; from LISTEN and SYN-SENT the socket is CLOSED and takes no segment any more; SYN-RECEIVED and ESTABLISHED become FIN-WAIT-1, CLOSE-WAIT becomes LAST-ACK, and nothing else changes |
| `TcpSocket.Socket.Close` | smoltcp/src/socket/tcp.rs:1068-1089 | the object does this and keeps the invariant |
| `TcpCalls.ListenMeaning` | smoltcp/src/socket/tcp.rs:926-953 | succeeds exactly on a closed socket or when repeated; buffers, tracker, numbers, timers and estimator are then cleared, and the socket takes exactly the segments that may open a connection to its endpoint; otherwise nothing changes |
| `TcpSocket.Socket.Listen` | smoltcp/src/socket/tcp.rs:926-953 | the object does this, clearing its buffers, tracker and estimator in place |
| `TcpCalls.ConnectMeaning` | smoltcp/src/socket/tcp.rs:997-1051 | succeeds exactly on a closed socket with usable endpoints; everything is then cleared, the socket takes exactly the segments of that connection, and the first thing it sends is its SYN |
| `TcpSocket.Socket.Connect` | smoltcp/src/socket/tcp.rs:997-1051 | the object does this, clearing its buffers, tracker and estimator in place |
| `RttBounds.SampleBounded` | smoltcp/src/socket/tcp.rs:200-226 | samples up to M < 2^29 keep srtt and rttvar at most M, no 32-bit step overflows, and the timeout stays within its limits |
| `RttBounds.RunBounded` | smoltcp/src/socket/tcp.rs:195-275 | the same over every run of sends, acknowledgements and retransmissions |
| `RttBounds.NewEstimatorBounded` | smoltcp/src/socket/tcp.rs:182-275 | in particular over every run of a new estimator |
| `RttBounds.EqualSamplesConverge` | smoltcp/src/socket/tcp.rs:200-226 | equal samples R from the first on keep srtt = R and lower rttvar by at least one each until it is at most 3 |
| `RttBounds.EqualSamplesSettle` | smoltcp/src/socket/tcp.rs:200-226 | after R/2 + 2 equal samples rttvar is at most 3 |
| `RttBounds.SampleMeaning` | smoltcp/src/socket/tcp.rs:200-226 | srtt moves an eighth of the way to the sample and rttvar a quarter of the way to its distance, each rounded up (the first sample is taken over with half of it as rttvar); the timeout is srtt + max(5, 4 rttvar), cut to the limits of one second and one minute |
| `RttBounds.AckMeaning` | smoltcp/src/socket/tcp.rs:242-249 | an acknowledgement gives a sample exactly when it covers the segment being timed, of the whole milliseconds since it was sent |
| `RttBounds.SendTiming` | smoltcp/src/socket/tcp.rs:228-240 | a segment is timed exactly when it ends beyond everything sent before and none is being timed |
| `RttBounds.BackingOff` | smoltcp/src/socket/tcp.rs:251-275 | a retransmission doubles the timeout up to a minute, stops the timing, and the third in a row drops the measurement |
| `RttBounds.BackoffStays` | smoltcp/src/socket/tcp.rs:195-275 | over every run without a sample the timeout is doubled once for each retransmission, up to a minute, and so never falls |
| `RttBounds.RttEstimator.OnSend` | smoltcp/src/socket/tcp.rs:228-240 | the object times segments in this sense |
| `RttBounds.RttEstimator.OnAck` | smoltcp/src/socket/tcp.rs:242-249 | the object takes acknowledgements in this sense |
| `RttBounds.RttEstimator.Sample` | smoltcp/src/socket/tcp.rs:200-226 | the in-place update stays within bounds and is a sample in this sense |
| `RttBounds.RttEstimator.OnRetransmit` | smoltcp/src/socket/tcp.rs:251-275 | the timeout doubles up to its limit and the third retransmission in a row drops the measurement |
| `AssemblerSpec.InsertDenotesUnion` | smoltcp/src/storage/assembler.rs:201-283 | adding a range is set union with that range |
| `AssemblerSpec.InsertCanonical` | smoltcp/src/storage/assembler.rs:130-132 | adding keeps the array invariant and needs at most one more slot |
| `AssemblerSpec.SlotsAreRuns` | smoltcp/src/storage/assembler.rs:130-132 | a well-formed tracker uses exactly one slot per maximal run |
| `AssemblerSpec.DenoteUnique` | smoltcp/src/storage/assembler.rs:130-132 | two well-formed trackers of the same set are equal |
| `AssemblerSpec.InsertCommutes` | smoltcp/src/storage/assembler.rs:201-283 | additions commute |
| `AssemblerSpec.InsertAllOrderIrrelevant` | smoltcp/src/storage/assembler.rs:201-283 | histories of additions that cover the same offsets end in the same tracker |
| `AssemblerSpec.RemoveFrontMeaning` | smoltcp/src/storage/assembler.rs:287-302 | removing the front strips the maximal run at offset 0 and shifts down |
| `AssemblerSpec.AddThenRemoveFrontMeaning` | smoltcp/src/storage/assembler.rs:304-327 | never fails at offset 0, else fails exactly when the union has more runs than slots; on success it is union, strip the run at 0, shift down |
| `AssemblerSpec.RangesAreRuns` | smoltcp/src/storage/assembler.rs:330-375 | the listed ranges are exactly the maximal runs, ascending and apart, shifted by the given offset |
| `AssemblerArray.Assembler.Add` | smoltcp/src/storage/assembler.rs:201-283 | the in-place search, shift and coalesce loops compute the addition on the used slots, keep unused slots all zero, and on refusal change nothing |
| `AssemblerArray.Assembler.AddRange` | smoltcp/src/storage/assembler.rs:201-283 | refused iff the union needs more runs than there are slots; else the denoted set becomes the union |
| `AssemblerArray.Assembler.AddContigAt` | smoltcp/src/storage/assembler.rs:186-199 | opens an all-zero slot and moves the rest up, or refuses when the last slot is taken and changes nothing |
| `AssemblerArray.Assembler.RemoveContigAt` | smoltcp/src/storage/assembler.rs:171-183 | takes one slot out, moves the rest down and zeroes what is left over |
| `AssemblerArray.Assembler.RemoveFront` | smoltcp/src/storage/assembler.rs:287-302 | strips the front run in place and returns its length |
| `AssemblerArray.Assembler.AddThenRemoveFront` | smoltcp/src/storage/assembler.rs:304-327 | the in-place operation with its shortcut at offset 0 is the combined operation |
| `AssemblerArray.Assembler.Front` | smoltcp/src/storage/assembler.rs:152-159 | the length of the run at offset 0: everything before it is covered, the next offset is not |
| `AssemblerArray.Assembler.IsEmpty` | smoltcp/src/storage/assembler.rs:166-168 | true iff the denoted set is empty |
| `AssemblerArray.AssemblerIter.Next` | smoltcp/src/storage/assembler.rs:355-375 | yields the pending ranges one at a time and then nothing |
| `RingBufferArray.RingBuffer.WriteUnallocated` | smoltcp/src/storage/ring_buffer.rs:321-341 | a write that wraps around the storage, done in two contiguous parts, is one write into the free cells |
| `RingBufferArray.RingBuffer.GetAllocated` | smoltcp/src/storage/ring_buffer.rs:352-371 | the contiguous run of allocated octets from an offset on |
| `RingBufferArray.RingBuffer.EnqueueSlice` | smoltcp/src/storage/ring_buffer.rs:216-231 | appends what fits, in two parts when it wraps |
| `RingBufferArray.RingBuffer.DequeueAllocated` | smoltcp/src/storage/ring_buffer.rs:397-401 | drops octets from the front and leaves every other cell alone |
| `RingBufferArray.RingBuffer.DequeueSlice` | smoltcp/src/storage/ring_buffer.rs:273-291 | two contiguous steps take off the oldest octets, in order, and no more |
| `Fragmentation.RunDeliversPackets` | smoltcp/src/iface/fragmentation.rs:79-181 | for any interleaving, order, overlap, repetition, expiry, reuse or refusal of fragments that agree with one packet per key, everything handed out is exactly the packet of its key |
| `Fragmentation.RunKeepsSet` | smoltcp/src/iface/fragmentation.rs:210-238 | in every such run no key occupies two slots and no slot has a stale octet on record |
| `Fragmentation.HappenOk` | smoltcp/src/iface/fragmentation.rs:79-238 | every event keeps the set in order and hands out only the right packet |
| `Fragmentation.CompleteIff` | smoltcp/src/iface/fragmentation.rs:179-181 | a slot is complete iff its size is known and every octet of its packet is recorded |
| `Fragmentation.AssembleExact` | smoltcp/src/iface/fragmentation.rs:167-177 | a complete slot yields its packet and is freed; any other is left alone |
| `Fragmentation.AddHolds` | smoltcp/src/iface/fragmentation.rs:141-165 | overlapping, repeated and refused fragments leave the recorded octets right |
| `Fragmentation.SizeMeaning` | smoltcp/src/iface/fragmentation.rs:87-106 | a size is refused exactly when another was learned before or there is no room; else it is on record and everything else stays |
| `Fragmentation.AddMeaning` | smoltcp/src/iface/fragmentation.rs:141-165 | a fragment is refused exactly without room; else its octets are in their place, every other octet is kept, and its range is recorded unless that takes more runs than there are slots |
| `Fragmentation.TakeMeaning` | smoltcp/src/iface/fragmentation.rs:167-181 | the packet is handed out exactly when its size is known and the octets recorded from the first on are as many, and the slot is then free; else it stays |
| `Fragmentation.ExpireMeaning` | smoltcp/src/iface/fragmentation.rs:232-238 | slot by slot: free afterwards if it was free or its time limit lies before the instant, and unchanged otherwise |
| `Fragmentation.SlotIsKept` | smoltcp/src/iface/fragmentation.rs:79-238 | over every run, a slot keeps its key, its time limit and all that is recorded until its packet is handed out or an instant after the limit is announced |
| `Fragmentation.CompleteIsDelivered` | smoltcp/src/iface/fragmentation.rs:79-238 | so a packet whose octets are all recorded can be taken after any such run |
| `FragmentationSet.PacketAssembler.Add` | smoltcp/src/iface/fragmentation.rs:141-165 | on the object with its buffer and tracker: the octets are written and the range recorded in this sense, and a fragment that agrees with a packet leaves the record right, whether or not the tracker had room; fails exactly without room in a fixed buffer |
| `FragmentationSet.PacketAssembler.SetTotalSize` | smoltcp/src/iface/fragmentation.rs:87-106 | fixes the size once, refusing a different one and one without room, and keeps the record right |
| `FragmentationSet.PacketAssembler.Assemble` | smoltcp/src/iface/fragmentation.rs:167-177 | hands out exactly the packet that the record is right for, when it is complete, and frees the slot |
| `FragmentationSet.PacketAssemblerSet.Get` | smoltcp/src/iface/fragmentation.rs:210-229 | returns the slot of the key, else takes the last free one, else fails exactly when there is neither; no other slot changes |
| `FragmentationSet.PacketAssemblerSet.RemoveExpired` | smoltcp/src/iface/fragmentation.rs:232-238 | on the objects, slot by slot: free afterwards if it was free or expired, and unchanged otherwise |
| `FragmentationSet.PacketAssemblerSet.AddData` | smoltcp/src/iface/fragmentation.rs:141-165 | for all packets under way, a fragment that agrees with the packet of its slot keeps the whole set in order; no other slot changes |
| `FragmentationSet.PacketAssemblerSet.SetTotal` | smoltcp/src/iface/fragmentation.rs:87-106 | for all packets under way, learning the size of the packet of a slot keeps the whole set in order; no other slot changes |
| `FragmentationSet.PacketAssemblerSet.TakePacket` | smoltcp/src/iface/fragmentation.rs:167-177 | what is handed out is the packet of the slot's key, exactly when it is complete; the slot is then free and the set in order |
| `Fragmentation.CallsAreEvents` | smoltcp/src/iface/fragmentation.rs:210-229 | a key's slot is the only one, so the calls on it are the events of the run |
| `DhcpModel.PollAtIsExact` | smoltcp/src/socket/dhcpv4.rs:291-303 | with timers in order, `dispatch` sends or gives up if and only if now has reached `poll_at` |
| `DhcpModel.SendMovesDeadline` | smoltcp/src/socket/dhcpv4.rs:621-729 | after a send the next deadline is strictly later than now, for a REQUEST if and only if the doubled wait is positive as a signed 64-bit number |
| `DhcpModel.BackoffFits` | smoltcp/src/socket/dhcpv4.rs:664-667 | it is, and is the doubled wait, as long as that fits 63 bits |
| `DhcpModel.DefaultBackoff` | smoltcp/src/socket/dhcpv4.rs:130-141 | with the default timeout it is for the first 82 tries of a request phase and is negative at the 83rd |
| `DhcpModel.RenewTimesOrdered` | smoltcp/src/socket/dhcpv4.rs:501-545 | the renewal times derived from an ACK satisfy T1 <= T2 <= lease end, whatever the server says |
| `DhcpModel.RunInv` | smoltcp/src/socket/dhcpv4.rs:199-773 | in every run, whatever is configured in between: renew_at <= rebind_at, rebind_at <= expires_at until rebinding; when config_changed is false the last event returned describes the current state; a request phase sends at most as many messages as the largest request_retries in force during it |
| `DhcpModel.NewClientInv` | smoltcp/src/socket/dhcpv4.rs:199-217 | a new client starts in order, with a change pending |
| `DhcpModel.LeaseMovesOnlyOnAck` | smoltcp/src/socket/dhcpv4.rs:367-440 | the lease end and the configuration of a bound client move only on a relevant ACK, and the server stays |
| `DhcpModel.ReceiveMeaning` | smoltcp/src/socket/dhcpv4.rs:305-440 | from the message alone: an OFFER with a usable address makes the client ask its sender for it; an ACK with a usable mask and address binds it: the lease ends after what the server grants, or 120 s if it grants none, cut to the owner's limit; T1 and T2 are the server's when they are in order before that, and a half and seven eighths of it otherwise, with the two mixed cases; prefix, router and DNS servers are those of the message; a NAK restarts discovery unless ignored; any other message changes nothing; every change of configuration is announced |
| `DhcpModel.ReceivedInOrder` | smoltcp/src/socket/dhcpv4.rs:305-440 | it follows that an address is bound only by an ACK of the server that was asked, in order T1 <= T2 <= lease end and for no longer than allowed, and that discovery restarts only on a NAK that is not ignored |
| `DhcpModel.AckUsable` | smoltcp/src/socket/dhcpv4.rs:443-481 | an ACK is usable exactly when its mask is a row of ones before zeros and its address is that of a host |
| `DhcpModel.AckGrants` | smoltcp/src/socket/dhcpv4.rs:443-552 | what a usable ACK grants: lease, T1, T2, address, prefix length, router, and the DNS servers that are addresses of hosts, in order, up to three |
| `DhcpModel.Socket.Receive` | smoltcp/src/socket/dhcpv4.rs:305-440 | the object's fields after a message are those of the model, with this meaning |
| `DhcpModel.TransmitMeaning` | smoltcp/src/socket/dhcpv4.rs:563-729 | before the deadline nothing changes, from it on a message goes out or the client starts over; what each message says and to whom, and the wait that follows it: fixed after a DISCOVER, doubled every other time after a REQUEST, half of what is left to T2 or to the lease end, within the limits, after a renewal; a bound client sends from its address, to its server until T2 and to everyone from then on, never after its lease; the lease and its end stay |
| `DhcpModel.Socket.Transmit` | smoltcp/src/socket/dhcpv4.rs:563-729 | the object's fields and message are those of the model, with this meaning |
| `DhcpModel.Socket.Ask` | smoltcp/src/socket/dhcpv4.rs:745-767 | returns an event exactly when a change is pending, the event describes the current state, and asking again returns nothing |
| `DhcpModel.Socket.Deadline` | smoltcp/src/socket/dhcpv4.rs:291-303 | dispatching does nothing if and only if the returned instant is later |
| `ParserPrint.PrintedInFull` | smoltcp/src/parsers.rs:163-281 | every address printed in full is read back, consuming all input |
| `ParserPrint.PrintedWithGap` | smoltcp/src/parsers.rs:163-281 | every address printed with a run of zero groups as `::` is read back, unless the run is one group at either end, which is refused |
| `ParserPrint.PrintedMapped` | smoltcp/src/parsers.rs:151-233 | every IPv4-mapped address printed as `::ffff:a.b.c.d`, or in full with the dotted end, is read back |
| `ParserRoundTrip.FullRoundTrip` | smoltcp/src/parsers.rs:163-281 | the same for every spelling of the groups: either case, leading zeros or not |
| `ParserRoundTrip.GapRoundTrip` | smoltcp/src/parsers.rs:163-281 | a text of up to eight groups with a double colon is read back iff at most six groups stand on each side, always when two or more groups are left out, and also between two and six groups when none is |
| `ParserExact.AcceptedIff` | smoltcp/src/parsers.rs:163-281 | for every text: it is read as an address if and only if it is a spelling of it: eight groups; groups around two colons, or around three; or one of these with a dotted quad right behind the prefix of the IPv4-mapped addresses |
| `ParserExact.AcceptedIsSpelled` | smoltcp/src/parsers.rs:163-281 | soundness: from any accepted text, the groups and octets of which it consists |
| `ParserExact.ThirdColonIgnored` | smoltcp/src/parsers.rs:170-196 | between groups, three colons are read like two |
| `ParserExact.QuadInTheMiddle` | smoltcp/src/parsers.rs:213-233 | after `::ffff:` and a dotted quad up to three more groups are accepted |
| `ParserExact.QuadAfterSix` | smoltcp/src/parsers.rs:197-246 | six groups and a dotted quad are read if and only if the groups are the prefix of the mapped addresses |
| `ParserExact.QuadAfterGapRefused` | smoltcp/src/parsers.rs:213-246 | a dotted quad right after a double colon is refused, whatever groups stand before it |
| `ParserRoundTrip.MappedRoundTrip` | smoltcp/src/parsers.rs:151-233 | both mapped forms, for every spelling |
| `ParserRoundTrip.NumberReads` | smoltcp/src/parsers.rs:109-125 | a spelled number followed by no digit is read back and nothing more is consumed |
| `ParserCursor.Parser.AcceptNumber` | smoltcp/src/parsers.rs:109-125 | the digit loop accepts exactly the specified numbers, for every input |
| `ParserCursor.Parser.AcceptDotted` | smoltcp/src/parsers.rs:283-292 | the octet loop accepts exactly the specified dotted octets |
| `ParserCursor.Parser.AcceptIpv6Part` | smoltcp/src/parsers.rs:163-246 | for every octet string the recursion ends, no index is out of bounds, and the head and tail arrays, indices and cursor are those of the specification |
| `ParserCursor.Parser.ParseIpv6` | smoltcp/src/parsers.rs:72-79 | an address is returned iff the whole input is one |

## Left out

- Two-endpoint hypotheses: both sides start ESTABLISHED and quiet with matching sequence numbers and window scales, and keep-alive is off (it sends a filler octet). This also excludes `close` in SYN-RECEIVED. The handshake is covered by the one-socket invariant only.
- TcpProgram.ProgramSafety: a segment's numbers and the estimator's must lie within 2^31 of the socket's, and the last acknowledgement less than 2^30 octets behind; an older segment is indistinguishable from a new one in 32 bits.
- The domain of the subtraction in `last_scaled_window` (smoltcp/src/socket/tcp.rs:766) is a hypothesis of `dispatch` in the run theorems, because it can be left; see above.
- TcpPolling.Settles: the MTU is taken to be larger than the headers, a keep-alive interval of zero is excluded, and a socket that still advertises a window must have received no more than it advertised. The same holds of `TcpPolling.DispatchDecreases` and `TcpPolling.SettlesIffNotStuck`.
- TcpSocket.Socket.Process: a round trip that completes must have taken less than 2^29 milliseconds, because the estimator's 32-bit steps overflow beyond; and the object groups its scalar fields into one value per direction.
- TcpSocket.Socket.Recv: only the copying form; the closure forms of `send` and `recv`, which expose one contiguous slice, and `peek` are not modelled.
- Reno and Cubic congestion control; the model has `NoControl`, whose window never limits.
- SACK blocks, the timestamp option, hop limit, wakers, logging, the paused SYN|ACK feature and the burst-size window clamp.
- FragmentationSet.PacketAssembler.Add: the closure form `add_with` is not modelled, and the buffer is a sequence that is reassigned.
- DhcpModel.Socket.Receive: packet parsing, the receive packet buffer's contents and the outgoing options are not modelled. Instants are unbounded; of the durations only the doubled wait is a 64-bit number, taken as in a build that masks the shift (with overflow checks the program stops from the 129th try on).
- Liveness of data delivery under loss: only safety and the two polling properties are stated.
- The parser's MAC, CIDR and endpoint forms and the plain IPv4 form, which would only add easier members.
- UDP, ICMP, raw and DNS sockets, the socket set, neighbour cache, routes, RPL, 6LoWPAN, wire formats, devices and platform glue.
