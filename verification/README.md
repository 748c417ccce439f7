# Verified model of the TCP backend of network_backend

This project models the TCP backend `NetworkPosix` and the event loop under it, and proves what they promise:
messages sent by many threads over byte streams arrive whole, once and in order, however TCP cuts the streams;
the event loop's records agree in every state; callbacks come in the right order; and the connection tables name
live connections. Where the code does not keep a promise, the model keeps the code, gives a concrete run that
breaks the promise, and proves exactly when the code does meet it.

`dafny verify dfyconfig.toml` checks everything.

## What is modelled

- **The wire header.** `send_data` writes an 8-byte header and then the payload. The header is the decimal size
  cut to seven digits, a NUL, and whatever the array held before. The receiver reads it with `strtol`.
  `Decimal` and `WireHeader` hold both conversions, `Framing` the streams of frames and the reassembly loop as a
  function `Split` on the received bytes. `strtol` is not told where the received bytes end, so the stale
  contents of the buffer behind them are an argument of `Split`.
- **`on_data`.** `Receiver.BufStruct` is the receive buffer as an array, with `on_data` working on it in place.
  It refines the function `Reassembly.OnData`, which exists in two variants: `AsWritten` is the code, `Intended`
  differs in two places. After a header fragment (`src/networkPosix.cpp:137`) the code sets `pos` to
  `bytes_recv`, which is right only at the start of the buffer, while the sibling branch
  (`src/networkPosix.cpp:147`) subtracts the current position. And a `recv` of -1 is added to `pos` before it is
  tested (`src/networkPosix.cpp:123-130`), so a failed read with bytes pending is not recognised as one.
  `Reassembly` and `ReadRuns` say when the two variants agree and what the code does when they do not;
  `Divergence` has a concrete run for each difference.
- **Senders, wire and receiver.** `SendProtocol` is a transition system: threads in `send_data`, each in one of
  its three branches, the mutex of each descriptor number, the connection table and the sockets of the users'
  handles with their repeated look-ups, connections coming and going, descriptor numbers used again, and the peers
  reading arbitrary pieces. `ChannelInvariant` and `SendInvariant` say what every step keeps and which steps break
  it, `Routes` what that asks of changes to table, handles and descriptors, `EndToEnd` what it means for every
  reachable state, and `Progress` that calls and deliveries can always be completed. `StepEffects` says of each
  step what it changes and what it leaves alone, `Histories` ties messages and buffers to what users and peers
  asked for, and `Races` has three runs in which a send misses its connection.
- **The event loop.** `Registry` has the registered contexts, the open descriptors and the kernel's interest set;
  a context has an identity of its own, because epoll hands back a pointer to it. `Dispatch` is `evloop_run` on
  arbitrary batches, with callbacks and other threads that register and remove descriptors at any point between.
  `CallbackOrder`, `Shutdown` and `LoopEffects` prove the properties of its runs, `SampleRuns` has concrete ones, and
  `EventLoop.Eventloop` is the class whose methods refine these functions.
- **The tables.** `PortMap` is a `std::map` under `socket_addr::operator<`, `Tables` the connection and buffer
  tables as values, and `NetworkPosix.NetworkPosix` the class that updates them.

## Results that are not what one may expect

- As written, the receiver invents bytes whenever a header fragment follows a frame completed in the same read.
  Two reads of the messages "" and "A" deliver "", "1" and "" (`Divergence.FragmentDivergence`).
- As written, a failed read drops the last pending byte (`Divergence.FailedReadDivergence`).
- A message of 10^7 bytes or more announces a smaller size, and the receiver takes it apart
  (`Framing.OneMessage`).
- Two threads that both find no entry for a port both connect; the second connection takes the entry over, and a
  third thread that holds the mutex of the first connection writes into the middle of a message on the second
  (`Races.RebindingBreaksFrames`). Two threads that send on the same handle do the same to each other, because
  connecting replaces the socket in the handle (`Races.SharedHandleBreaksFrames`). And a descriptor closed between
  the two sends of a message takes the payload to the next connection of that number
  (`Races.ReusedNumberBreaksFrames`). Frames stay whole exactly as long as no send of at least one byte misses the
  connection for which its thread took the mutex (`EndToEnd.FramesWholeExactly`).
- A callback, or another thread, that removes a descriptor whose event is still to come or to be finished in the
  same batch makes the loop use a removed context; nothing else does (`CallbackOrder.BatchSafeExactly`).
- The connection map is keyed by port alone, so the address of one host can lead to another
  (`PortMap.SamePortIsSameEntry`).
- A descriptor the kernel refuses to watch stays registered, and `remove_fd` can neither close nor drop it
  (`Registry.RefusedStays`); an accepted connection that is refused leaves the tables in disagreement
  (`Tables.AcceptKeeps`).

## Assumptions

- Each `send` writes all its bytes. The repository's tests show that it need not (`test/unit_tests_posix.cpp:102-107`).
- One call looks its address, or the socket of its handle, up three times (`src/networkPosix.cpp:279-281`,
  `src/networkPosix.cpp:285-287`). The theorems about reachable states are about runs in which every look-up made
  for a send finds the connection whose mutex is held, `SendProtocol.Legal`; `Routes.Sparing` and `Routes.Stable`
  are two conditions on what accept, connect, close and the user do meanwhile that ensure it.
- Byte counts fit in `int`, so the conversions at `src/networkPosix.cpp:123` lose nothing. `size_t` and `long`
  have 64 bits.
- Data callbacks are set, and they do not write into the receive buffer.
- `strtol` finds a non-digit before the end of the receive buffer. Headers written by `send_data` always end
  within their 8 bytes, which is what the theorems about streams of frames use.
- epoll reports a descriptor at most once per batch, and an eventfd never hangs up. New descriptors are numbers
  that are not open, and those that are registered are not watched yet.
- The order of callbacks holds in the runs in which nobody removes a descriptor too early,
  `Dispatch.CarefulRun`, and in no other.

## Model

| member | source | states |
|---|---|---|
| `Decimal.TerminatedIgnoresRest` | src/networkPosix.cpp:140 | a number that ends inside the header is read the same whatever follows it in memory |
| `Decimal.PrintValue` | src/networkPosix.cpp:278 | reading back what "%zu" prints gives the number |
| `Decimal.PrintSamples` | src/networkPosix.cpp:278 | 42 is printed as the bytes 52 and 50 |
| `Decimal.PrintLength` | src/networkPosix.cpp:278 | the number of printed digits says between which powers of ten the size lies |
| `Decimal.PrintPrefix` | src/networkPosix.cpp:278 | cutting printed digits off at the end is dividing by a power of ten |
| `Decimal.StrtolOfDigits` | src/networkPosix.cpp:140 | strtol reads digits followed by a non-digit as the number they denote |
| `Decimal.StrtolReads` | src/networkPosix.cpp:140 | after spaces and a sign strtol reads the number with that sign, within the range of long, and a negative one wraps around in the size_t |
| `WireHeader.AnnouncedSize` | src/networkPosix.cpp:277-278 | the header announces the size itself below 10^7, and a smaller seven-digit number otherwise |
| `WireHeader.AnnouncedQuotient` | src/networkPosix.cpp:277-278 | from 10^7 on the announced size is the size divided by 10^(digits-7) |
| `WireHeader.HeaderLayout` | src/networkPosix.cpp:277-278 | the eight bytes are at most seven digits of the size, a NUL, and what the array held behind it |
| `WireHeader.HeaderRoundTrip` | src/networkPosix.cpp:277-278 | for every size, every padding and every following bytes the receiver stops inside the header and reads the announced size, which is right exactly below 10^7 |
| `Framing.EncodeSound` | src/networkPosix.cpp:277-281 | a frame written by send_data announces its own length exactly below 10^7 |
| `Framing.SplitConserves` | src/networkPosix.cpp:131-153 | for arbitrary bytes the delivered slices, with their headers, and the rest are consecutive, disjoint pieces of the input in order |
| `Framing.SplitRestIdle` | src/networkPosix.cpp:131-153 | running the loop again on what it left behind delivers nothing and leaves the same |
| `Framing.SplitHead` | src/networkPosix.cpp:131-153 | a frame that is complete by the size read from the whole buffer is delivered and the loop goes on behind it |
| `Framing.SplitUnfinished` | src/networkPosix.cpp:134-148 | one that is not ends the loop with everything left |
| `Framing.StreamsTerminate` | src/networkPosix.cpp:277-281 | the headers of every stream of frames, cut anywhere in the last one, end within their 8 bytes |
| `Framing.SplitIgnoresStale` | src/networkPosix.cpp:140 | old buffer contents make no difference when headers end within 8 bytes |
| `Framing.SplitAppend` | src/networkPosix.cpp:131-153 | the loop over a then over its rest and b finds the same frames and rest as the loop over a and b together |
| `Framing.StrictPrefixIncomplete` | src/networkPosix.cpp:134-148 | in no strict prefix of a frame does the loop see a complete frame |
| `Framing.PrefixFree` | src/networkPosix.cpp:277-281 | no proper prefix of a frame is a frame |
| `Framing.SplitStream` | src/networkPosix.cpp:131-153 | of a stream of frames cut anywhere, the loop delivers exactly the frames wholly read and leaves the beginning of the next |
| `Framing.SplitFlatten` | src/networkPosix.cpp:131-153 | decoding inverts encoding, with an unfinished frame at the end kept |
| `Framing.UniqueDecoding` | src/networkPosix.cpp:131-153 | a byte stream is the encoding of at most one sequence of messages |
| `Framing.OneMessage` | src/networkPosix.cpp:131-153 | from the header and the user's bytes of one message the loop delivers exactly these bytes when they are fewer than 10^7; otherwise a strictly shorter beginning of them first |
| `Reassembly.ReadIsSplit` | src/networkPosix.cpp:121-157 | a read of the intended receiver delivers what the loop finds in pending and new bytes, and keeps the rest |
| `Reassembly.IntendedConserves` | src/networkPosix.cpp:121-157 | pending plus received bytes are delivered plus pending bytes, for arbitrary bytes; a failed read changes nothing |
| `Reassembly.EmptyReadIsNoOp` | src/networkPosix.cpp:121-157 | a zero-byte read with one incomplete frame pending changes nothing, in the code as well |
| `Reassembly.DeliveredFrames` | src/networkPosix.cpp:149-152 | a successful read delivers what the loop finds in pending and new bytes, in both variants |
| `Reassembly.BufferCleared` | src/networkPosix.cpp:155-156 | with nothing left the whole buffer is zeroed |
| `Reassembly.BufferKept` | src/networkPosix.cpp:134-148 | else the rest is in front and every byte behind it is as recv left it |
| `Reassembly.FailedReadRunsLoop` | src/networkPosix.cpp:123-153 | a failed read of the code delivers what the loop finds in the pending bytes without the last one |
| `Reassembly.FragmentFault` | src/networkPosix.cpp:134-139 | after a fragment that follows a frame the code keeps exactly the length of the delivered frames too much |
| `Reassembly.FailedReadFault` | src/networkPosix.cpp:123-130 | a failed read with bytes pending always ends with fewer |
| `Reassembly.FailedReadDropsLastByte` | src/networkPosix.cpp:123-130 | with an incomplete frame pending, a failed read drops its last byte and nothing else |
| `Reassembly.VariantsAgree` | src/networkPosix.cpp:123-147 | code and intention agree on a call exactly unless a 1..7-byte fragment follows a completed frame or a read fails with bytes pending |
| `Reassembly.AsWrittenConserves` | src/networkPosix.cpp:121-157 | the code conserves bytes on a call exactly when it is none of these two cases |
| `ReadRuns.RunConserves` | src/networkPosix.cpp:121-157 | byte conservation over every series of reads of arbitrary bytes, failed ones included |
| `ReadRuns.RunIsSplit` | src/networkPosix.cpp:121-157 | a series of reads delivers what the loop finds in the whole stream at once |
| `ReadRuns.SegmentationIndependence` | src/networkPosix.cpp:121-157 | any two ways to cut a stream into reads deliver the same and leave the same pending |
| `ReadRuns.ChunkingIndependence` | src/networkPosix.cpp:121-157 | reading a and then b is reading a and b at once |
| `ReadRuns.FaultFreeRun` | src/networkPosix.cpp:121-157 | a run of the code without a faulty call is a run of the intended receiver |
| `ReadRuns.NeverFewerBytes` | src/networkPosix.cpp:134-139 | without failed reads the code never loses bytes, and invents some exactly when a call is faulty |
| `ReadRuns.AsWrittenRunConserves` | src/networkPosix.cpp:121-157 | a run of the code without failed reads conserves bytes exactly when no fragment follows a frame in the same call |
| `ReadRuns.AlwaysConservesExactly` | src/networkPosix.cpp:121-157 | over every run of the code, failed reads included, bytes are conserved after every read exactly when no call is faulty |
| `ReadRuns.OversizedFrameBlocks` | src/networkPosix.cpp:123-148 | while a frame longer than the buffer is next, no series of reads delivers anything, failed reads included for the intended receiver and excluded for the code |
| `ReadRuns.FullBufferIsFixpoint` | src/networkPosix.cpp:123-148 | a buffer full of an incomplete frame stays so under every series of reads, failed ones included for the intended receiver and excluded for the code |
| `ReadRuns.CapacityThreshold` | src/networkPosix.cpp:123-150 | some series of reads delivers a frame exactly when header and payload together fit the buffer |
| `Divergence.FragmentDivergence` | src/networkPosix.cpp:137 | two reads of two messages, after which the code has delivered a wrong message and one more |
| `Divergence.FailedReadDivergence` | src/networkPosix.cpp:123-130 | a failed read in the middle of a message, after which the code has not delivered it |
| `Receiver.BufStruct.constructor` | src/networkPosix.cpp:76-80 | a new buffer is zeroed and has nothing pending |
| `Receiver.BufStruct.Store` | src/networkPosix.cpp:122-123 | recv places the bytes behind the pending ones and touches nothing else |
| `Receiver.BufStruct.CopyToFront` | src/networkPosix.cpp:143 | the overlapping copy moves the tail to the front and leaves the other bytes |
| `Receiver.BufStruct.Clear` | src/networkPosix.cpp:156 | memset zeroes the whole buffer |
| `Receiver.BufStruct.KeepRest` | src/networkPosix.cpp:134-148 | the two returning branches: the tail is in front and `pos` is what that branch sets |
| `Receiver.BufStruct.DeliverComplete` | src/networkPosix.cpp:131-157 | the loop in the array delivers the frames Split finds and leaves buffer and `pos` as the specification says |
| `Receiver.BufStruct.AfterRecv` | src/networkPosix.cpp:125-157 | a count of zero or less resets `pos`, any other runs the loop |
| `Receiver.BufStruct.OnData` | src/networkPosix.cpp:116-158 | one call in place refines Reassembly.OnData in either variant |
| `StepEffects.EnterEffect` | src/networkPosix.cpp:273-289 | entering send_data adds a call with the user's bytes behind a header of their number, chooses the branch by entry, by socket or by connecting, and changes nothing else |
| `StepEffects.ConnectedEffect` | src/networkPosix.cpp:254-264 | a successful connect makes an empty connection with a zeroed buffer of the given size, to which port and handle lead; nothing else changes |
| `StepEffects.ConnectFailedEffect` | src/networkPosix.cpp:289-293 | a failed connect ends the call and changes nothing else |
| `StepEffects.AcceptedEffect` | src/networkPosix.cpp:74-82 | accept makes an empty connection like connect, to which the port of the peer leads; nothing else changes |
| `StepEffects.DroppedEffect` | src/networkPosix.cpp:95-99 | the entry of a port goes, and nothing else |
| `StepEffects.ClosedEffect` | src/eventloop.cpp:46-50 | a closed descriptor stands for nothing, and its connection stays as it is |
| `StepEffects.SetSocketEffect` | src/networkPosix.cpp:219-222 | the socket of one handle is written, and nothing else |
| `StepEffects.LookEffect` | src/networkPosix.cpp:279 | a call finds the entry of its address, or 0 which is entered, or the socket of its handle |
| `StepEffects.AcquireEffect` | src/networkPosix.cpp:279 | the mutex is taken, and the message is the next in order on the connection |
| `StepEffects.SendHeaderEffect` | src/networkPosix.cpp:280 | the header goes behind what is on the wire of the connection found, and nowhere else |
| `StepEffects.SendPayloadEffect` | src/networkPosix.cpp:281 | so does the payload; the mutex is free and the call over |
| `StepEffects.ReadEffect` | src/networkPosix.cpp:116-158 | a read takes bytes from the front of one wire and delivers what the loop finds in them, in both variants |
| `StepEffects.MayStep` | src/networkPosix.cpp:273-308 | when each step of a thread or a peer is possible |
| `ChannelInvariant.WrittenIsFrames` | src/networkPosix.cpp:279-281 | the bytes on a connection are whole frames in lock order, and at most one header of the lock holder |
| `ChannelInvariant.AcquireKeeps` | src/networkPosix.cpp:279 | taking the mutex keeps the account of a connection |
| `ChannelInvariant.HeaderKeeps` | src/networkPosix.cpp:280 | the send of the header keeps it |
| `ChannelInvariant.PayloadKeeps` | src/networkPosix.cpp:281 | the send of the payload and the release keep it |
| `ChannelInvariant.ReadKeeps` | src/networkPosix.cpp:116-158 | any read of the peer keeps it |
| `ChannelInvariant.PendingIsPartOfNext` | src/networkPosix.cpp:134-148 | the pending bytes are a strict prefix of the next frame in lock order |
| `ChannelInvariant.DeliveredIsAll` | src/networkPosix.cpp:150-154 | with nothing in flight and the mutex free, everything has been delivered |
| `ChannelInvariant.WindowStaysOpen` | src/networkPosix.cpp:123 | with frames that fit, recv is asked for at least one byte while bytes are in flight |
| `SendInvariant.WriteOnTarget` | src/networkPosix.cpp:276-298 | a send that does not miss appends its bytes to the connection of its mutex, while that is open, and touches no other |
| `SendInvariant.EnterKeeps` | src/networkPosix.cpp:276-289 | choosing the branch keeps the invariant of all threads and connections |
| `SendInvariant.ConnectedKeeps` | src/networkPosix.cpp:254-264 | a new connection keeps it, whatever entry and socket it replaces and whatever number it gets |
| `SendInvariant.AcceptedKeeps` | src/networkPosix.cpp:74-82 | so does an accepted connection |
| `SendInvariant.TableStepKeeps` | src/networkPosix.cpp:95-99 | so does the removal of an entry, or any other write to the socket of a handle |
| `SendInvariant.ClosedKeeps` | src/eventloop.cpp:46-57 | so does closing a descriptor, even under a send |
| `SendInvariant.LookKeeps` | src/networkPosix.cpp:279 | so does looking the descriptor up |
| `SendInvariant.AcquireKeeps` | src/networkPosix.cpp:279 | so does taking a mutex |
| `SendInvariant.SendKeeps` | src/networkPosix.cpp:280-281 | so does a send that does not miss, of the header, or of the payload with the mutex given back |
| `SendInvariant.ReadStepKeeps` | src/networkPosix.cpp:116-158 | so does any read, on open and closed connections |
| `SendInvariant.StepKeeps` | src/networkPosix.cpp:273-308 | every step of the protocol but a send that misses keeps the invariant |
| `SendInvariant.WholeExactlyOnTarget` | src/networkPosix.cpp:276-298 | after a step the open connections carry whole frames in lock order, and at most one header of the lock holder, exactly when it is no send of some bytes to another connection than the one for which the mutex is held |
| `SendInvariant.AlwaysWholeExactly` | src/networkPosix.cpp:273-308 | over a whole run they do in every state exactly when no send of the run misses |
| `SendInvariant.RunKeeps` | src/networkPosix.cpp:273-308 | the invariant holds after every run without such a send |
| `Routes.RoutedExactlyWhenSpared` | src/networkPosix.cpp:254-298 | as long as every call would still find its descriptor, by address or by handle, and that stands for no other connection, no send misses; and that stays so exactly when no entry or socket by which a call has found its descriptor changes and no number whose mutex is held is given away |
| `Routes.NamedExactlyWhenSpared` | src/networkPosix.cpp:254-298 | the table goes on naming the descriptor of every call exactly when no last entry of one is replaced or dropped and no handle leads to an unnamed one |
| `Routes.SparingIsLegal` | src/networkPosix.cpp:254-298 | in runs that spare the routes no send misses |
| `Routes.StableKeepsNamed` | src/networkPosix.cpp:254-298 | in runs that spare routes and entries in use the table names the descriptor of every call |
| `EndToEnd.FramesWholeExactly` | src/networkPosix.cpp:276-298 | from the start, a run of small messages has whole frames in every state exactly when no send misses the connection for which its thread took the mutex, whether through the table, the handle or a number used again |
| `EndToEnd.SparingReaches` | src/networkPosix.cpp:254-298 | runs that spare the routes are such runs; two connects for one port on separate handles do |
| `EndToEnd.FrameAtomicity` | src/networkPosix.cpp:276-298 | in every state reached by such runs an open connection carries whole frames in lock order plus at most the header of the thread between its two sends |
| `EndToEnd.FramesOfAll` | src/networkPosix.cpp:276-298 | so does a closed one, but for its last message, of which close may have cut off the payload or all |
| `EndToEnd.DeliveredInOrder` | src/networkPosix.cpp:116-158 | on every connection the delivered messages are a prefix of the sent ones in lock order, every byte is accounted for, and the pending bytes begin the next message |
| `EndToEnd.AllDelivered` | src/networkPosix.cpp:116-158 | on an open one they are all of them once the wire is drained and no send is under way |
| `EndToEnd.ThreadOrder` | src/networkPosix.cpp:273-308 | each thread's messages on a connection are those of its calls that took the mutex for it, sent and delivered in the order of these calls |
| `Histories.CallsAreMessages` | src/networkPosix.cpp:273-308 | over every run, with either receiver, the messages in a thread's history are byte for byte those it handed to send_data, in order |
| `Histories.DeliveredAreMessages` | src/networkPosix.cpp:116-158 | what a peer has been given of a thread's messages are messages of that thread, byte for byte and in the order it sent them |
| `Histories.BuffersKeepTheirSizes` | src/networkPosix.cpp:78-80 | over every run every connection has a buffer of the size with which it was opened |
| `Histories.FitsExactly` | src/networkPosix.cpp:123 | messages fit exactly when they are at least 8 bytes shorter than the buffer |
| `EndToEnd.ExclusiveSends` | src/networkPosix.cpp:276-298 | no two threads are between their sends under the mutex of one descriptor |
| `EndToEnd.SendsToNamed` | src/networkPosix.cpp:276-298 | in runs that spare routes and entries in use each thread writes only to the descriptor whose mutex it holds, and the table names it |
| `EndToEnd.AsWrittenRun` | src/networkPosix.cpp:116-158 | a run with the receiver as written and no faulty read is a run of the intended protocol |
| `EndToEnd.AsWrittenIsReachable` | src/networkPosix.cpp:116-158 | so all guarantees hold for the code in such runs |
| `EndToEnd.StepBalanceExactly` | src/networkPosix.cpp:116-158 | any step of the code, sends that miss included, conserves the bytes on all connections exactly when it is no faulty read |
| `EndToEnd.AlwaysBalancedExactly` | src/networkPosix.cpp:116-158 | over every run of the code bytes are conserved in every state exactly when no read is faulty |
| `Progress.UndisturbedSend` | src/networkPosix.cpp:276-287 | an undisturbed call puts exactly the header of its size and the user's bytes on the connection it finds, as one more message, and changes nothing else |
| `Progress.UndisturbedConnect` | src/networkPosix.cpp:288-298 | an undisturbed call in the third branch stores the new connection in table and handle, and exactly the header and the user's bytes are on it; nothing else changes |
| `Progress.CanAlwaysRead` | src/networkPosix.cpp:123 | in every reachable state with frames that fit, a peer with bytes in flight can read |
| `Progress.Drain` | src/networkPosix.cpp:116-158 | reads alone empty the wire, in at most as many steps as there are bytes |
| `Progress.EverythingCanBeDelivered` | src/networkPosix.cpp:116-158 | every message sent can be delivered by reads alone |
| `Progress.AllFinish` | src/networkPosix.cpp:276-298 | from every state in which the calls under way are routed all calls can finish, those yet to connect included, by steps of their own threads and successful connects: nobody is ever stuck |
| `Progress.DrainAll` | src/networkPosix.cpp:116-158 | reads alone empty all wires whose messages fit |
| `Progress.EverySendCompletes` | src/networkPosix.cpp:273-308 | from every such reachable state every thread can become idle and all messages that fit be delivered on the open connections, each thread's in the order of its calls |
| `Progress.EveryMessageArrives` | src/networkPosix.cpp:273-308 | every run that keeps its calls routed can be continued until all threads are idle and, on every open connection whose messages have at most the size of its buffer less 8 bytes, all are delivered; the messages are those the threads sent |
| `Progress.BlockedExactly` | src/networkPosix.cpp:123-148 | a message does not fit exactly when it has more than the size of the buffer less 8 bytes |
| `Progress.BlockedForGood` | src/networkPosix.cpp:123-148 | once a message that does not fit the buffer is next, nothing is ever delivered on that connection again, whatever threads and peers do |
| `Races.RebindingBreaksFrames` | src/networkPosix.cpp:257-281 | a run of three threads in which a connect takes over the entry under a send, with free mutexes and a corrupted stream at its end |
| `Races.SharedHandleBreaksFrames` | src/networkPosix.cpp:256-298 | a run of two threads that send on one handle, with the same end |
| `Races.ReusedNumberBreaksFrames` | src/networkPosix.cpp:296-298 | a run in which a descriptor is closed and accepted again between the two sends of a message, whose payload goes to the new connection |
| `Registry.RegisterKeeps` | src/eventloop.cpp:26-44 | a registration, accepted by the kernel or not, keeps the three records in agreement and appends the descriptor exactly when the kernel takes it |
| `Registry.RegisterEffect` | src/eventloop.cpp:26-44 | the given context is stored under its descriptor, in place when there was one, and watched exactly when the kernel takes it; no other descriptor changes |
| `Registry.RemoveKeeps` | src/eventloop.cpp:46-57 | a removal keeps them in agreement, and the descriptor is not watched afterwards |
| `Registry.RemoveEffect` | src/eventloop.cpp:46-57 | an open descriptor is closed and taken out of all records, the others stay in order; of any other it does nothing |
| `Registry.RemoveTwice` | src/eventloop.cpp:46-57 | a second removal is a no-op |
| `Registry.RefusedStays` | src/eventloop.cpp:38-54 | what the kernel refused stays registered and cannot be removed |
| `Registry.AllOpsKeep` | src/eventloop.cpp:26-57 | every sequence of registrations and removals keeps the records in agreement |
| `Registry.OpAccounted` | src/eventloop.cpp:26-57 | every descriptor the kernel took is open or closed, as often as it was taken |
| `CallbackOrder.CallsRemove` | src/eventloop.cpp:26-57 | after any operations of callbacks or other threads a watched descriptor is as it was, or, if it was removed, its context is gone for good |
| `CallbackOrder.DispatchWatched` | src/eventloop.cpp:72-84 | an event whose descriptor nobody removes too early gets exactly its data callback and, on a hang-up, the closed callback if set; others watched with it stay as they were unless removed |
| `CallbackOrder.ProcessWatched` | network/eventloop.h:67-70 | after exec_once the registration of the signal is gone, whatever the user callback did |
| `CallbackOrder.CutDangles` | src/eventloop.cpp:72-84 | removing the descriptor of an event before the loop has finished with it makes the loop use a removed context |
| `CallbackOrder.GoneDangles` | src/eventloop.cpp:72-84 | so does removing the descriptor of a later event of the batch |
| `CallbackOrder.RestReported` | src/eventloop.cpp:72-84 | without such removals the contexts of the rest of the batch are where their events point to |
| `CallbackOrder.BatchSafeExactly` | src/eventloop.cpp:72-84 | in every consistent state and for every batch, no removed context is used exactly when there is no such removal |
| `CallbackOrder.BatchKeeps` | src/eventloop.cpp:72-84 | a batch without such removals keeps records and callback order |
| `CallbackOrder.RunKeeps` | src/eventloop.cpp:59-104 | over every run the records agree, and the callbacks are in order exactly when no batch has such a removal |
| `CallbackOrder.EveryRunInOrder` | src/eventloop.cpp:59-104 | so from the empty loop, with registrations and removals by callbacks and other threads: for each registration data callbacks, then at most one closed callback right after a data callback, then nothing; one callback for a once-signal; never a use of a removed context |
| `CallbackOrder.EveryEventCallsBack` | src/eventloop.cpp:72-84 | in every run without such removals the data callbacks made are those of the events dispatched, none missing, none twice and in order |
| `LoopEffects.AddTakesEffect` | src/eventloop.cpp:26-44 | a registration that is not undone leaves its context stored, and watched exactly if the kernel agreed |
| `LoopEffects.WatchedExactly` | src/eventloop.cpp:26-57 | after any operations a descriptor is watched exactly when the last one that concerned it was an accepted registration |
| `LoopEffects.EventIsOps` | src/eventloop.cpp:72-84 | an event does to the loop exactly what callbacks and other threads do around it and the loop's own removals, in order |
| `LoopEffects.BatchIsOps` | src/eventloop.cpp:72-84 | so does a batch |
| `LoopEffects.TurnIsOps` | src/eventloop.cpp:66-99 | so does a turn; an interrupted or failed wait leaves what other threads did |
| `LoopEffects.RunIsOps` | src/eventloop.cpp:59-104 | so does every run, up to the descriptors closed at its end |
| `LoopEffects.RegistrationTakesEffect` | src/eventloop.cpp:59-104 | a registration by a callback or another thread at any point of a run takes effect |
| `LoopEffects.WatchedAtEnd` | src/eventloop.cpp:59-104 | exactly the descriptors are watched after a run that its operations leave watched |
| `LoopEffects.StopIsSeen` | src/eventloop.cpp:21-23 | the loop is told to stop exactly when stop() has been called by anybody |
| `SampleRuns.AcceptedInCallback` | src/eventloop.cpp:72-84 | a run in which a callback registers a connection that gets its events in the next batch |
| `SampleRuns.RemovalElsewhere` | src/eventloop.cpp:59-84 | a run with a signal, a hang-up and a harmless removal, and all its callbacks |
| `SampleRuns.CrossRemovalDangles` | src/eventloop.cpp:72-84 | a run in which a callback removes a later descriptor of its batch |
| `SampleRuns.RemovalBeforeHangUpDangles` | src/eventloop.cpp:75-82 | a run in which a data callback removes its own descriptor before a hang-up is handled |
| `Shutdown.BatchDispatched` | src/eventloop.cpp:72-84 | each event of a batch is dispatched once, in the order epoll gave |
| `Shutdown.TurnDispatches` | src/eventloop.cpp:66-99 | a turn of the loop ends it regularly exactly on an empty wait after stop, and fatally exactly on a failed one |
| `Shutdown.EveryEventDispatched` | src/eventloop.cpp:59-104 | every event of every wait before the end has been dispatched once and in order |
| `Shutdown.EndsAtFirstEmptyWait` | src/eventloop.cpp:85-87 | after stop the loop ends at the first empty wait and not before |
| `Shutdown.ClosesEachOnce` | src/eventloop.cpp:102-103 | the final loop closes each descriptor still open exactly once |
| `Shutdown.ClosesWhatItOpened` | src/eventloop.cpp:26-104 | at a regular end every descriptor has been closed exactly as often as the kernel took it, whatever handlers and other threads did |
| `EventLoop.Eventloop.constructor` | src/eventloop.cpp:4-11 | a new loop watches nothing and is not stopped |
| `EventLoop.Eventloop.Stop` | src/eventloop.cpp:21-23 | sets the flag and nothing else |
| `EventLoop.Eventloop.RegisterFd` | src/eventloop.cpp:26-44 | updates the fields as Registry.Register says |
| `EventLoop.Eventloop.RemoveFd` | src/eventloop.cpp:46-57 | updates the fields as Registry.Remove says, with the erase loop over m_open_fds |
| `EventLoop.Eventloop.ProcessEvent` | src/eventloop.cpp:14-19 | one data callback, with the removal a once-signal does |
| `EventLoop.Eventloop.HangUp` | src/eventloop.cpp:76-83 | the closed callback, if set, and the removal |
| `EventLoop.Eventloop.DispatchEvents` | src/eventloop.cpp:72-84 | the loop over a batch refines Dispatch.DispatchAll |
| `EventLoop.Eventloop.EvloopRun` | src/eventloop.cpp:59-104 | the nested loops refine Dispatch.EvloopRun, exit included |
| `EventLoop.Eventloop.CloseOpen` | src/eventloop.cpp:103 | closes every open descriptor |
| `PortMap.StrictWeakOrder` | network/networkUtilities.h:25-32 | operator< is a strict weak order whose equivalence is "same port" |
| `PortMap.LookupIsByPort` | src/networkPosix.cpp:276-281 | a look-up by any address finds what is stored for its port |
| `PortMap.PutIsByPort` | src/networkPosix.cpp:257 | storing under an address replaces exactly the entry of its port |
| `PortMap.PutKeepsAddresses` | src/networkPosix.cpp:257 | storing keeps the address a port was first stored with |
| `PortMap.SamePortIsSameEntry` | network/networkUtilities.h:25-32 | after two hosts with the same port have connected, the address of the first leads to the second |
| `PortMap.EraseKeeps` | src/networkPosix.cpp:95-99 | erasing by descriptor removes that descriptor and no other |
| `PortMap.EraseTakesFirst` | src/networkPosix.cpp:95-99 | of several entries with one descriptor only that of the lowest port is erased |
| `PortMap.PutKeepsDistinct` | src/networkPosix.cpp:81 | a new descriptor keeps the values distinct |
| `PortMap.LookupIsLastStored` | src/networkPosix.cpp:81-100 | in every history a look-up that succeeds finds the descriptor last stored for the port |
| `Tables.AcceptKeeps` | src/networkPosix.cpp:72-82 | an accept keeps the tables in agreement exactly when the kernel watches the new descriptor |
| `Tables.AcceptEffect` | src/networkPosix.cpp:72-82 | an accepted connection has the closed callback, its port leads to it, and nothing is pending in its buffer; no other connection changes |
| `Tables.ConnectEffect` | src/networkPosix.cpp:254-269 | one made by send_connect has no closed callback, and the rest alike |
| `Tables.ReceiveKeeps` | src/networkPosix.cpp:116-158 | a read touches one connection's buffer and nothing else, delivers what the loop finds, in both variants, and conserves the bytes when intended |
| `Tables.ReceiveAgrees` | src/networkPosix.cpp:123-147 | on the tables the code does what is intended exactly when the call is not faulty, and after a fragment keeps the length of the delivered frames too much |
| `Tables.PeerClosedKeeps` | src/eventloop.cpp:76-83 | a hang-up takes the descriptor out of the loop, and the connection out of the map exactly when it has the closed callback, without which the tables disagree |
| `Tables.HandleClosedKeeps` | src/networkPosix.cpp:194-203 | a closed handle keeps the agreement exactly unless its descriptor was refused by the kernel; no other connection changes |
| `Tables.ClientEntryOutlivesItsDescriptor` | src/networkPosix.cpp:254-269 | an entry made by send_connect outlives its descriptor |
| `Tables.TablesAgree` | src/networkPosix.cpp:59-100 | over every run of accepts, reads, hang-ups and closed handles the map names distinct open connections with closed callbacks and buffers of the right size |
| `Tables.ReusedDescriptor` | src/networkPosix.cpp:76-80 | a descriptor used again starts with nothing pending and delivers exactly what its own bytes say |
| `Tables.NumberComesBack` | src/networkPosix.cpp:59-100 | a number can be accepted, used, hung up and accepted again, and then only the new port leads to it |
| `Tables.ChoiceIsByPort` | src/networkPosix.cpp:276-289 | the connection send_data chooses is the one of the thread model on the map by port |
| `NetworkPosix.NetworkPosix.OnConnectionRequest` | src/networkPosix.cpp:59-87 | updates loop, buffers and map as Tables.Accept says, and nothing when accept fails |
| `NetworkPosix.NetworkPosix.EraseConnection` | src/networkPosix.cpp:95-99 | finds the entry of the descriptor and erases it, and no other |
| `NetworkPosix.NetworkPosix.OnConnectionClosed` | src/networkPosix.cpp:89-100 | erases the entry of the descriptor from the map only |
| `NetworkPosix.NetworkPosix.CloseHandleEv` | src/networkPosix.cpp:194-203 | removes descriptor, entry and buffer |
| `NetworkPosix.NetworkPosix.OnData` | src/networkPosix.cpp:116-158 | does nothing without a buffer, else works on that connection's buffer and leaves all others alone |
| `NetworkPosix.NetworkPosix.SetUpBuffer` | src/networkPosix.cpp:259-263 | a left-over buffer is kept with `pos` reset, else a zeroed one is made |
| `NetworkPosix.NetworkPosix.SendConnect` | src/networkPosix.cpp:234-270 | updates map, mutexes, buffers and loop when connect succeeds, and nothing when it fails |
| `NetworkPosix.NetworkPosix.SendData` | src/networkPosix.cpp:273-308 | writes header and payload to the connection chosen by port, by socket or newly made, which map and mutex table then contain, and throws exactly when it has to connect and cannot |

## Left out

- Sockets, epoll, eventfd, fcntl and name resolution: they appear as wires, kernel answers and batches.
- Partial sends and the return value of `send`, as listed under Assumptions.
- The moment between finding an entry and reading it in one look-up, and the walk over the table by which
  `send_data` compares sockets: each is one step.
- Creating the mutex of a descriptor on first use is not thread-safe in `std::map`; the model takes it as atomic.
- User callbacks that call back into the backend, and what the user callbacks do with the data.
- `close_handle` with its temporary signal: the effect of `close_handle_ev` on the tables is modelled, and to the
  event loop the removals it leads to are operations of a callback and of another thread.
- The counter of an eventfd: the loop never reads it, so how often a signal was fired does not enter.
- Contexts with a null data callback: the repository makes none.
- `left_to_read`: written but never read by any decision.
- The connect retry loop and the address set-up in `send_connect`; connect succeeds or fails.
- Logging, the factory, the examples, and the Libfabric and UCX backends.
