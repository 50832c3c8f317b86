# Verification of embassy-knx

embassy-knx is a `no_std` KNX TP1 stack: a driver for an NCN51xx bus chip, and data link, network,
transport and application layers above it. This project models the parts of it that form protocols and
proves what they guarantee. Check it with `dafny verify dfyconfig.toml` (Dafny 4.11).

| file | what it holds |
|---|---|
| `Frame.dfy`, `StandardFrame.dfy` | frames as octet strings, and the class that builds them in place in a pool block |
| `SetterAlgebra.dfy` | what any sequence of OR-ing setters does to what the getters read |
| `Checksum.dfy`, `Wire.dfy` | the check octet, and the command stream of one transmission |
| `DriverMachine.dfy`, `Driver.dfy` | the driver as a machine over UART tokens, and the blocking code that refines it |
| `Lines.dfy`, `Reception.dfy` | what the driver hands up and acknowledges, on any input |
| `Network.dfy`, `Transport.dfy` | classification of frames and TPDUs, and the connection as a function on values |
| `Connection.dfy` | the connection with its events and actions, refining that function |
| `ConnectionRuns.dfy`, `ConnectionLaws.dfy`, `Isolation.dfy`, `Delivery.dfy`, `Repetition.dfy` | theorems over all runs of the connection |
| `Dispatch.dfy` | from the octets of a frame to what each layer makes of it |
| `Handshake.dfy`, `DriverSteps.dfy` | the two tasks, two channels, the signal and the frame pool, interleaved; its driver is the machine |
| `DataPoint.dfy`, `Application.dfy`, `EndToEnd.dfy` | group responses down to the bus and up again through every layer |

How the world enters the model:

- UART input is a finite sequence of tokens: an octet, a read error, one expired bus-silence timeout, or a
  frame put into the send queue. A read still pending when the input ends leaves the driver where it waits.
- Whether the frame pool has a free block is an input wherever a block is asked for, so running out of
  memory can happen at any step. Only `Handshake.dfy` counts the blocks.
- The bus between the connection and its peer loses, duplicates and reorders. Frames of all other stations
  are arbitrary, and so is what the peer sends besides the items of its connection.
- Eight-bit arithmetic wraps, as in the release profile of `Cargo.toml`. A debug build would panic in
  `seq_no_recv - 1` at 0, and when `set_length` of an extended frame subtracts from 263 modulo 256.

Some facts the proofs brought out, each stated as a lemma below:

- The sequence number is read with three of its four bits and the receive counter never wraps, so a
  connection delivers at most eight data TPDUs, and then it stalls (`Delivery.StuckAfterEight`).
- No layer compares an individual destination with the device's own address; only the acknowledge on the line
  depends on it (`ConnectionRuns.DestinationIgnored`). A station that connects to any other opens a connection
  here as well, and its data is delivered and acknowledged (`ConnectionRuns.OverheardConversation`).
- The tests for T_ACK and T_NAK cannot succeed (`Transport.KindTable`); the stack would refuse the T_ACK it
  sends itself (`EndToEnd.ResponsesUnderstood`).
- When the owner of a connection asks to connect again and the pool is empty, the connection closes without
  anybody being told and its timer keeps running. That is the only way either goes wrong
  (`ConnectionRuns.ToldInSessionsIff`, `ConnectionRuns.TimerLeftRunningIff`).
- A driver that waits for the confirmation octet of a transmission cannot be brought back by silence
  (`DriverMachine.TwoSilencesIff`, `DriverMachine.ConfirmIgnoresSilence`), and then the task that sends waits
  with it. That is the only wait it cannot end without the bus chip (`Handshake.WaitingSenderCanFinishIff`).
- The driver skips octets until one looks like a frame start. One damaged octet is always noticed, except
  that a control octet damaged into no start can let a frame hidden behind it through
  (`Lines.DamagedFrameRefusedIff`, `Lines.PhantomFrame`).
- A refused burst shorter than the buffer costs the burst after it as well, because the driver then waits
  for one more silence (`Lines.LinesDelivered`).
- What a connection delivers can be relied on exactly if two things are given (`Delivery.CleanOpeningIff`).
  When it was opened, neither data nor acknowledges of the same peer from an earlier connection were still on
  the bus; and while it lasts, the peer sends no other numbered data, not even to other stations.
  `Delivery.PrefixDeliveryIff` names the events that do the harm.
- A read error in the middle of a frame loses that frame only, and one that finds no pool block likewise
  (`Lines.LineHeard`).
- Nothing reachable confirms data, so every data TPDU a connection sends has number 0
  (`ConnectionLaws.SentDataIsNumberZero`).
- `send_data_A7` ORs into the header it is given, so what a receiver reads depends on what was there
  (`Repetition.DataTpduReadsBackIff`).
- Every extended frame that passes the checks is handed up with a changed destination address
  (`Lines.ExtendedFrameDamaged`).
- The range guard of `set_length` (src/frame.rs:336) is true of every length. Only the capacity of the pool
  block refuses one, and then the length nibble is already written (`StandardFrames.StandardFrame.SetLength`).

The in-place setters of `StandardFrames.StandardFrame` (`SetFrameType`, and `SetPriority` to `SetApci10`) have
no rows of their own: each is proved to write what the setter function of its name in `Frames` gives, and the
rows of `SetterAlgebra` say what those do to every header field of any frame.

## Model

| member | source | states |
|---|---|---|
| `Frames.NewCoherentIff` | src/frame.rs:326-359 | the length nibble of a fresh frame gives its size exactly for sizes 8 to 23; `new(24)` leaves the nibble 0 |
| `Frames.SetLengthIdempotent` | src/frame.rs:335-345 | setting the length a frame already has only cuts off what lies beyond it |
| `StandardFrames.StandardFrame.Resize` | src/frame.rs:338-340 | grows with zeros, cuts at the end, refuses exactly lengths above the block's 264 octets |
| `StandardFrames.StandardFrame.SetLength` | src/frame.rs:335-345 | new contents for every length; the error case leaves the nibble written |
| `StandardFrames.StandardFrame.New` | src/frame.rs:349-359 | succeeds exactly with a free block and a size the block can hold; a fresh block of its own; the error otherwise |
| `StandardFrames.StandardFrame.Length` | src/frame.rs:326-328 | the length the nibble stands for |
| `StandardFrames.StandardFrame.CheckOctet` | src/frame.rs:222-224 | the loop computes the complement of the XOR of all octets |
| `StandardFrames.StandardFrame.FromDataPoint` | src/frame.rs:271-288 | the frame of a datapoint in a fresh block, or OutOfMemory exactly without one |
| `StandardFrames.StandardFrame.TryCopy` | src/frame.rs:368-375 | a copy in a block of its own, or OutOfMemory exactly without one |
| `SetterAlgebra.SetterEffect` | src/frame.rs:241-311 | the exact effect of any setter with any value on every header field, in any layout with disjoint fields |
| `SetterAlgebra.SetterFrame` | src/frame.rs:241-311 | no setter changes the recognition bits, the length nibble or the payload |
| `SetterAlgebra.SettersReadBack` | src/frame.rs:170-311 | setters of distinct fields, in any order, all read back; untouched fields keep their defaults; the TPCI octet is all that was put into it, together |
| `SetterAlgebra.WholeTpciReadsBack` | src/frame.rs:289-311 | a TPCI octet written whole reads back whole if no other call has bits for it |
| `SetterAlgebra.FreshFrameSetters` | src/frame.rs:314-359 | the same as `SettersReadBack` from `new`, with length and frame recognition kept |
| `SetterAlgebra.HopCountOverwriteIff` | src/frame.rs:253-255 | a value set over another reads back exactly if it contains the other's bits |
| `SetterAlgebra.Apci4ExactIff` | src/frame.rs:300-305 | the four-bit APCI setter reads back and spares the TPCI exactly for values below 16 |
| `SetterAlgebra.ExtendedDstIsLength` | src/frame.rs:379-392 | the destination of an extended frame overwrites its length: kept exactly if the octets agree |
| `Checksums.PaddedTestIff` | src/ncn51_driver.rs:251-253 | comparing the octet behind the data with the checksum of the zero-padded buffer is the standard's check of the data |
| `Checksums.OneOctetErrorDetected` | src/ncn51_driver.rs:245-253 | no two accepted frames of one length differ in exactly one octet |
| `Checksums.FilledSlotIff` | src/frame.rs:222-224 | filling the last slot with the checksum gives a passing frame exactly if the slot was 0 |
| `Wire.SendStreamDecodes` | src/ncn51_driver.rs:195-210 | the 2n octets written decode to the data and check octet, whatever follows; their XOR is 0xFF exactly if the last slot was 0 |
| `Wire.DecodeIff` | src/ncn51_driver.rs:195-210 | a stream decodes to given octets exactly if it is their encoding |
| `DriverMachine.OneSignalPerFrame` | src/ncn51_driver.rs:179-190 | for every input, frames are taken in queue order and each raises exactly one signal |
| `DriverMachine.TwoSilencesIff` | src/ncn51_driver.rs:146-178 | two silences bring the driver to the top of `run` exactly if it does not wait for a confirmation octet |
| `DriverMachine.ConfirmIgnoresSilence` | src/ncn51_driver.rs:215 | waiting for the confirmation survives any number of silences unchanged |
| `DriverMachine.SelfStabilises` | src/ncn51_driver.rs:298-315 | from any receive state, any input ending in two silences ends at the top of `run` |
| `Lines.LineHeard` | src/ncn51_driver.rs:146-257 | any line of octets and read errors, with a pool block or none, up to its silence: what begins with its first frame start is handed up exactly if complete, intact, unbroken and given a block; acknowledged exactly if its header came before any error and is addressed here; the driver drains on exactly after a refusal at the silence itself |
| `Lines.IsFrameIff` | src/ncn51_driver.rs:245-253 | complete and intact, in octets: which control octets, which length, and an XOR of 0xFF |
| `Lines.AcknowledgedIff` | src/ncn51_driver.rs:235-283 | the octet 0x11 is written exactly if the header is in and to a group or to 1.1.120, read off the octets of either format |
| `Lines.RefusedAtSilenceIff` | src/ncn51_driver.rs:245-250 | what is refused before its silence: 24 octets and more, 263 in the extended format |
| `Lines.DrainsToSilence` | src/ncn51_driver.rs:298-315 | draining ignores octets and read errors alike, and the first silence ends it |
| `Lines.BurstDelivered` | src/ncn51_driver.rs:146-257 | any burst of octets that finds a block: handed up exactly if complete and intact from its first frame start on |
| `Lines.BurstWithoutBlock` | src/ncn51_driver.rs:230 | any burst that meets an empty pool leaves no trace once it is over |
| `DriverMachine.TransmissionConfirmed` | src/ncn51_driver.rs:195-227 | a requested frame is written once; after an echo of its length, whatever its octets, and any number of silences, the next octet or read error decides: success exactly for 0x8B |
| `DriverMachine.TransmissionCutShort` | src/ncn51_driver.rs:212-214 | an echo cut short is a negative confirmation and the driver is back at the top of `run` |
| `Lines.LinesDelivered` | src/ncn51_driver.rs:146-178 | any sequence of lines, one silence after each: a line is heard exactly if an even number of lines refused at their silence came directly before it; one without a block or with a read error is lost and is none of those |
| `Lines.InputIsLines` | src/ncn51_driver.rs:146-178 | every input without transmissions is such a sequence and an unfinished line |
| `Lines.StreamDelivered` | src/ncn51_driver.rs:146-163 | of any sequence of well-formed frames, those that find a block are delivered whole, in order, with the acknowledges due and nothing else |
| `Lines.AckCount` | src/ncn51_driver.rs:273-283 | one acknowledge per frame that finds a block and has a group destination or this address, none for others |
| `Lines.RecoversAndDelivers` | src/ncn51_driver.rs:164-173 | after any input and two silences, every frame of the following stream that finds a block is delivered whole |
| `Lines.DamagedFrameRefusedIff` | src/ncn51_driver.rs:155-253 | an intact frame with one octet damaged causes no delivery exactly unless its control octet became no frame start and its rest contains an intact frame to the end, which is then what is delivered |
| `Lines.PhantomFrame` | src/ncn51_driver.rs:174-177 | a well-formed frame that loses one bit of its control octet and makes the driver hand up a frame nobody sent |
| `Reception.NothingMadeUp` | src/ncn51_driver.rs:146-257 | on any input from start, every frame handed up is an intact frame that arrived as consecutive octets ended by a silence, in order, no octet used twice |
| `Lines.ExtendedFrameDamaged` | src/frame.rs:398-404 | every accepted extended frame is handed up with another destination, and a length field that stands for 7; all other octets are kept |
| `Drivers.NCN51Driver.Run` | src/ncn51_driver.rs:146-193 | on every input the code ends in the state, output, deliveries and signals of the machine |
| `Drivers.NCN51Driver.SendNext` | src/ncn51_driver.rs:179-190 | one queued frame sent and its signal raised, as one run of the machine |
| `Drivers.NCN51Driver.ReceiveNext` | src/ncn51_driver.rs:155-178 | one octet at the top of `run` and all that follows from it |
| `Drivers.NCN51Driver.ReceiveFrameInt` | src/ncn51_driver.rs:229-257 | header, acknowledge, payload and tests together follow the machine |
| `Drivers.NCN51Driver.ReadWithTimeout` | src/ncn51_driver.rs:285-296 | fills the slice in place up to the first timeout or error and tells how far it got |
| `Drivers.NCN51Driver.DrainLine` | src/ncn51_driver.rs:298-315 | consumes the input up to and with the next silence and no further, whatever comes before it; what it leaves is what the machine does |
| `Drivers.NCN51Driver.AckIfAddressed` | src/ncn51_driver.rs:273-283 | writes one acknowledge exactly for a group or this address |
| `Drivers.NCN51Driver.CheckFrame` | src/ncn51_driver.rs:245-253 | the tests on the padded buffer accept exactly the complete and intact frames, index in bounds |
| `Drivers.NCN51Driver.Trim` | src/ncn51_driver.rs:254-256 | the frame handed up: unchanged octets, or the damaged extended frame |
| `Drivers.NCN51Driver.WriteCommands` | src/ncn51_driver.rs:196-210 | the loop writes exactly the command stream |
| `Drivers.NCN51Driver.ReadEcho` | src/ncn51_driver.rs:211-214 | reads as many octets as the frame has, over the frame; anything else aborts |
| `Drivers.NCN51Driver.SendFrame` | src/ncn51_driver.rs:195-227 | commands, echo and confirmation follow the machine to one confirmation status |
| `Transport.KindTable` | src/transport_layer.rs:84-121 | the TPDU kind of all 256 octets; acknowledges are never recognised |
| `Transport.ResponseBuilt` | src/transport_layer.rs:328-346 | the setters produce exactly the standard's eight octets |
| `Transport.ResponseSendable` | src/transport_layer.rs:328-346 | every response can be sent, and reads back destination, source and TPCI |
| `Connections.Connection.HandleInd` | src/transport_layer.rs:235-291 | classification into events and the step together do what the connection function says |
| `Connections.Connection.HandleEvent` | src/transport_layer.rs:293-326 | the state-event match does what the connection function says |
| `Connections.Connection.SendResponseFrame` | src/transport_layer.rs:328-346 | exactly one response frame sent, or OutOfMemory and none |
| `Connections.Connection.NewConnectionA1` | src/transport_layer.rs:348-360 | both counters restart, the sender becomes owner, the timer runs, Connect is told, nothing is sent |
| `Connections.Connection.AckDataA2` | src/transport_layer.rs:362-375 | ACK, timer, counter and indication together, or nothing |
| `Connections.Connection.AckA3` | src/transport_layer.rs:377-389 | ACK with the frame's own number and the timer, or nothing |
| `Connections.Connection.NotifyDisconnectA5` | src/transport_layer.rs:402-409 | the timer stops, Disconnect is told, nothing is sent |
| `Connections.Connection.DisconnectA6` | src/transport_layer.rs:411-421 | T_Disconnect, then timer and indication; on failure neither |
| `Connections.Connection.RejectA10` | src/transport_layer.rs:466-475 | T_Disconnect to the sender, connection untouched |
| `Connections.Connection.SendDataA7` | src/transport_layer.rs:423-441 | the frame sent is the frame stored, in a buffer the echo does not reach |
| `Connections.Connection.RepeatDataA9` | src/transport_layer.rs:453-464 | the stored frame goes out and stays as it was |
| `Connections.TransportLayer.ReceiveInd` | src/transport_layer.rs:79-144 | dispatch by address kind and TPCI does what the transport function says |
| `ConnectionRuns.RunsAreSound` | src/transport_layer.rs:293-421 | in every run: only two states, open implies owner and timer, counter at most 8; without failures closed implies no timer |
| `ConnectionRuns.TimerLeftRunningIff` | src/transport_layer.rs:305-308 | the only step that leaves a closed connection with a timer |
| `ConnectionRuns.AcceptedBelowEight` | src/transport_layer.rs:373 | the counter is incremented only below eight, so it cannot overflow |
| `ConnectionRuns.DeliveredIffAcknowledged` | src/transport_layer.rs:362-375 | data is indicated, the counter advances and a T_ACK with that number goes out together or not at all; on failure nothing changes |
| `ConnectionRuns.DestinationIgnored` | src/network_layer.rs:33-34 | individually addressed frames with the same source and TPCI have the same effect and are told upward alike, whatever their destination |
| `ConnectionRuns.OverheardConversation` | src/transport_layer.rs:79-105 | a T_Connect and first data from any station to any other open a connection here, are told upward and acknowledged |
| `ConnectionRuns.ToldInSessionsIff` | src/transport_layer.rs:299-325 | what is told upward forms whole sessions in step with the connection, exactly in runs without a silent close |
| `ConnectionLaws.ConnectOpens` | src/transport_layer.rs:300-312 | any T_Connect to a closed connection opens it for its sender, counters 0, timer on, told, nothing sent |
| `ConnectionLaws.OwnerDisconnects` | src/transport_layer.rs:315-318 | the owner's T_Disconnect closes, stops the timer and is told, block or none, nothing sent; the next T_Connect of anybody opens again |
| `ConnectionLaws.OtherDisconnectIgnored` | src/transport_layer.rs:314-319 | any other T_Disconnect changes nothing |
| `ConnectionLaws.OwnerReconnects` | src/transport_layer.rs:305-308 | the owner's T_Connect closes: with a block by T_Disconnect and told, timer off; without one silently, timer on |
| `ConnectionLaws.OthersRefused` | src/transport_layer.rs:313 | anybody else's T_Connect to an open connection gets exactly a T_Disconnect, if there is a block, and has no other effect |
| `ConnectionLaws.NextDataTaken` | src/transport_layer.rs:321 | the owner's data with the expected number is acknowledged with it, told and counted |
| `ConnectionLaws.EveryRepeatAcknowledged` | src/transport_layer.rs:323-389 | the owner's last data, however often repeated, is acknowledged with its number every time, and never told or counted again |
| `ConnectionLaws.OtherDataIgnored` | src/transport_layer.rs:253-325 | all other data, and any data without a block to answer it, changes nothing |
| `ConnectionLaws.LateDataRefused` | src/transport_layer.rs:320-322 | data of the last owner to a closed connection is answered with exactly a T_Disconnect |
| `ConnectionLaws.DataAfterReconnect` | src/transport_layer.rs:305-322 | an owner disconnected by its own second T_Connect gets a T_Disconnect for its next data as well |
| `ConnectionLaws.OtherFramesPass` | src/transport_layer.rs:79-144 | no other frame affects the connection |
| `ConnectionLaws.FailsIffItWouldAnswer` | src/transport_layer.rs:328-475 | without a block a TPDU fails with OutOfMemory exactly if it would be answered with one; else the return value is what is told upward |
| `ConnectionLaws.SendingSideKept` | src/transport_layer.rs:293-421 | no indication touches the stored frame or the repetition count; the send number only starts again with a connection |
| `ConnectionLaws.SentDataIsNumberZero` | src/transport_layer.rs:423-441 | in every run data sent goes out as numbered data 0, is stored as sent, with the timer on and no repetition counted |
| `Isolation.OthersDoNotInterfere` | src/transport_layer.rs:240-289 | other stations' TPDUs leave state, indications and sends to the owner as in the run without them; the rest are refusals of their connection requests |
| `Delivery.PrefixDeliveryIff` | src/transport_layer.rs:253-260 | in every run, whatever is on the bus and whatever else the peer sends, the data told upward is the first `seq_no_recv` items of the peer, once each and in order, with the peer there or one before, exactly as long as no wrong frame with the expected number was accepted and no ACK taken before its item was delivered |
| `Delivery.PrefixDelivery` | src/transport_layer.rs:253-260 | neither happens in any run in which the bus is clear of the peer's earlier data and ACKs at the start and at each opening, and the peer sends no other numbered data, to whomever |
| `Delivery.OpensAtRest` | src/transport_layer.rs:299-304 | every accepted T_Connect leads to the state from which the next row starts |
| `Delivery.CleanOpeningIff` | src/transport_layer.rs:348-375 | all continuations of a newly opened connection are right exactly if the bus held no numbered data of the peer and no ACK of this device to it numbered up to eight, and the peer may send no other numbered data meanwhile |
| `Delivery.StaleItemMisleads` | src/transport_layer.rs:362-375 | earlier data of the peer with any number can be delivered in place of its item |
| `Delivery.OverheardItemMisleads` | src/network_layer.rs:33-34 | so can data with any number that the peer sends meanwhile, to another station for one |
| `Delivery.StaleAckMisleads` | src/transport_layer.rs:328-346 | an earlier ACK of this device with any number up to eight can move the peer past an undelivered item |
| `Delivery.StuckAfterEight` | src/frame.rs:207-209 | after eight items nothing more is delivered until a new connection, and on a clean bus the peer stays at item 8 |
| `Delivery.RoundMakesProgress` | src/transport_layer.rs:362-375 | below eight, a lossless round delivers the current item and moves the peer on |
| `Delivery.RecoversFromLoss` | src/transport_layer.rs:377-389 | below eight, whether item or ACK was lost: one repetition that gets through and its ACK deliver the item if it was not delivered yet, and move the peer on |
| `Delivery.RecoversFromLosingAll` | src/transport_layer.rs:377-389 | the same after everything on the bus was lost |
| `Connections.SendThenRepeat` | src/transport_layer.rs:423-464 | after data is sent, any mix of arrivals and repetitions sends at most one response per arrival and, per repetition that gets a block, exactly the octets of the first transmission, although every sent buffer is overwritten; the repetitions are counted and each restarts the timer |
| `Repetition.DataTpduReadsBackIff` | src/transport_layer.rs:428-432 | from any frame: own source and hop count 7 always; destination is the owner, number is the send number, and code is numbered data, each exactly if the given frame had no bits there that stay |
| `Handshake.SendsNeverBlock` | src/ncn51_driver.rs:95-127 | blocks are conserved, so in every reachable state either channel has room for the frame at hand |
| `Handshake.ReceivedInOrder` | src/ncn51_driver.rs:160-163 | received frames leave their channel in the order they were handed up, none lost |
| `Handshake.ConfirmationsMatch` | src/data_link_layer.rs:32-36 | every `send` consumes the confirmation of its own frame; every dequeued frame raises one signal |
| `Handshake.WaitingSenderCanFinishIff` | src/ncn51_driver.rs:211-215 | a waiting sender can get its confirmation without another octet from the bus chip, in at most five steps, exactly if the driver does not wait for the confirmation octet; there one octet or error is enough |
| `Handshake.QuietStepsHelp` | src/ncn51_driver.rs:285-315 | until the confirmation is there, every step possible without the chip, other than dropping a frame, brings the sender nearer to it |
| `Handshake.BacklogBounded` | src/ncn51_driver.rs:122-127 | received and held frames leave a block for the frame being sent |
| `DriverSteps.StepRefines` | src/ncn51_driver.rs:146-257 | what the driver machine does on any token is a sequence of steps of the interleaving, with the same frames handed up and the same confirmation; on a silence without the bus chip |
| `DataPoints.WriteJoins` | src/data_point.rs:65-106 | writing a value of one or two bits leaves the others of the octet, a whole octet is overwritten |
| `Application.DataPointOctets` | src/frame.rs:271-288 | every octet of a datapoint frame, value included, last slot free |
| `Application.BuildResponse` | src/application_layer.rs:30-36 | the response frame in a fresh block, or OutOfMemory exactly without one |
| `Application.AddInfo` | src/transport_layer.rs:44-49 | group destination, own source and group data TPCI added, all else kept |
| `Application.ResponseFrameBuilt` | src/application_layer.rs:30-36 | all setters on the way give exactly the standard's octets |
| `Application.SendResponse` | src/application_layer.rs:93-100 | exactly that frame reaches the network layer |
| `Dispatch.SourceOctets` | src/frame.rs:180-182 | the source address from its octets in either format |
| `Dispatch.DestinationOctets` | src/frame.rs:176-189 | the destination and its kind from theirs |
| `Dispatch.TpduOctets` | src/frame.rs:201-217 | TPCI, sequence number and APCI from theirs |
| `Dispatch.ControlOctets` | src/frame.rs:172-200 | frame type, priority, repetition, hop count and address type from theirs |
| `Dispatch.LengthOctet` | src/frame.rs:326-392 | the length of either format from octet 5, the extended one modulo 256 |
| `Dispatch.NetworkTable` | src/network_layer.rs:32-38 | broadcast exactly to group 0, group data exactly to other groups, all else individual |
| `Dispatch.GroupTransportTable` | src/transport_layer.rs:123-139 | what each TPCI octet makes of a frame to groups; the connection is left alone |
| `Dispatch.IndividualTransportTable` | src/transport_layer.rs:84-121 | data without connection, and the error for every TPCI octet that is nothing |
| `Dispatch.SystemBroadcastPassed` | src/transport_layer.rs:140-142 | a system broadcast is passed on unseen |
| `Dispatch.ApplicationTable` | src/application_layer.rs:62-85 | through all layers, a frame is a read, a response, a write or an invalid APCI exactly by its octets, whatever the connection does |
| `Dispatch.ReadReachesUser` | src/application_layer.rs:67-69 | from the line to the user, a well-formed frame is a read exactly by its octets |
| `Dispatch.BroadcastIsNoGroupEvent` | src/network_layer.rs:35-36 | a broadcast leaves the connection alone and is no group event |
| `EndToEnd.WireRoundTrip` | src/ncn51_driver.rs:195-257 | a sendable frame, sent, decoded and received, is delivered with every header getter as before |
| `EndToEnd.StationToStation` | src/ncn51_driver.rs:146-257 | what one station sends with success another delivers, for every sendable frame |
| `EndToEnd.GroupResponseSendable` | src/application_layer.rs:30-36 | group responses have matching length, free last slot and a valid control octet |
| `EndToEnd.DataTpduSendable` | src/transport_layer.rs:428-434 | the connection's header keeps a sendable frame sendable |
| `EndToEnd.GroupResponseUnderstood` | src/application_layer.rs:62-81 | a group response of any datapoint is understood after the wire by every layer, value recovered |
| `EndToEnd.ResponsesUnderstood` | src/transport_layer.rs:79-122 | every T_Disconnect sent arrives as one; every T_ACK sent would be refused |

## Left out

- Drivers.NCN51Driver.Run: UART writes are taken to succeed; a failing write would end a transmission with a negative confirmation, or a reception with an error.
- Handshake.WaitingSenderCanFinishIff: that the bus chip sends the confirmation octet is up to the chip; the source waits for it without a limit.
- Handshake.ConfirmationsMatch: every `send` is taken to run to completion; cancellation of futures by `select` and the `RefCell` borrow across it are not modelled.
- Delivery.PrefixDelivery: assumes that neither data nor acknowledges of the peer from an earlier connection are on the bus when a new one opens, and that the peer sends no numbered data but its items meanwhile; the source does nothing to ensure either, and `Delivery.CleanOpeningIff` shows that this is exactly what is needed.
- Delivery.CleanOpeningIff: the peer's items are counted from the T_Connect accepted here. If that T_Connect was not meant to restart the peer's numbering, being old or to another station, what the peer sends to this device counts as the other data.
- Connections.Connection.HandleEvent: E15 to E27, the states OpenWait and Connecting, and the actions A4 and A8 are never reached or called.
- Connections.TransportLayer.ReceiveInd: the branches for T_ACK and T_NAK are not written out, since no octet reaches them.
- Application.SendResponse: the source panics (`unwrap!`) when the response cannot be allocated; the model returns the error.
- The connection timeout: the handler does nothing, so the timer is only present or absent.
- Extended frames being built: the stack only builds standard ones, as no datapoint exceeds 14 octets. The setter lemmas cover their layout.
- The pool is counted in `Handshake.dfy` only; elsewhere each allocation may fail.
- Octets the UART loses while the driver is not reading, DMA, interrupts, LED and logging.
- The service channels between application task and `main`, `group_object.rs`, `interface_object_server.rs`, `error.rs`, `build.rs` and `knxtest`: glue and stubs.
