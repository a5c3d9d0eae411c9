# usb-device: a verified model

A Dafny model of the device side of the `usb-device` stack, with proofs of what it does over whole
runs. `dafny verify dfyconfig.toml` checks all of it.

| files | part of the stack |
|---|---|
| `UsbTypes`, `Bus`, `Control` | machine integers, the endpoint-0 driver contract, the SETUP packet |
| `PipeModel`, `ControlPipe` | the endpoint-0 control pipe: step functions, and the class proved against them |
| `PipeSafety`, `PipeIn`, `PipeOut`, `PipeStatus`, `PipeTrace` | its invariant, IN and OUT transfers, how they end, its protocol of stages |
| `PipeLeftover`, `PipeOverlap` | the static buffer an answer leaves behind, requests dropped in mid-transfer |
| `Dispatch`, `DeviceModel`, `UsbDevice` | the endpoint loop and `UsbDevice`: step functions and classes |
| `DevicePipe`, `DeviceHistory`, `DeviceEvents` | device runs: the pipe's part in them, address, configuration, suspend, what the classes hear of |
| `DeviceAnswers`, `DeviceRequests`, `ClassRequests` | who answers a request, and the requests that a class answers |
| `StandardOut`, `StandardIn`, `DeviceLog`, `DeviceAddress` | standard requests, from the SETUP packet's bytes to the bus; the log as a record of them; when an address takes effect |
| `DescriptorModel`, `DescriptorWriter` | the descriptor writers: step functions and classes |
| `DescriptorRoundTrip`, `DescriptorOutcome`, `DescriptorErrors`, `BosRoundTrip` | configuration, BOS and string descriptors read back, when they fit, and errors classes discard |
| `GetDescriptor`, `DescriptorDecode`, `EndToEnd` | which descriptor is rendered, its fields as a host decodes them, and its way from the classes to the host |
| `Loopback`, `TestClass` | the test class's bulk loopback |

How the model is built:

- Every stateful object is a class whose fields, arrays and loops follow the source. Each method is
  proved equal to a step function on values, and the theorems are about runs of those functions.
- The driver, the host and the classes are inputs. `Bus.Read` and `Bus.Write` apply the contract of
  `read` and `write` to any packet and any willingness of the driver, including errors and short
  writes. A driver leaves the caller's buffer alone when it returns an error. A class answers a
  control request by ignoring it, accepting it with any callback, accepting it from a static
  buffer, or rejecting it.
- A Rust panic (a slice or index out of range, an integer underflow or overflow, a failed `expect`
  or `assert`, a panic in a callback) is a reply value, `Panicked`, after which nothing more happens.
  So panic freedom is proved, not assumed. Integer overflow is taken to panic, as it does with
  overflow checks on.
- What a request means is stated a second time, apart from the code's own tables: from the eight bytes
  of the SETUP packet to the packets, stalls and driver calls of the poll that brings it, and from a
  descriptor's bytes, by the type codes and offsets of USB 2.0, back to the fields they were made of.
- A `u8` and a `u16` are bounded integers; truncating casts are written out. Event masks are 16
  booleans with `&`, `|`, `!` and `<<` defined bit by bit.

Results that are conditions rather than plain promises, each proved in both directions, most with a
named input at which the plain promise fails:

- `static_in_buf` survives a reset, a new SETUP and an early status stage
  (`PipeLeftover.LeftoverReachable`). A later `accept_in` then sends from it. Which runs leave one
  behind is read off their bus events: a static answer was accepted, and no data stage has been
  written in full since. An answer comes out right exactly when none is left, or the one left begins
  with the same bytes (`PipeLeftover.FaithfulAfterIff`), and a slice can go out of range exactly when
  the answer is longer than the buffer left behind (`PipeLeftover.ReachIff`,
  `PipeSafety.OutOfReachPanics`, `PipeLeftover.PanicReachable`).
- In USB 2.0 every SETUP packet ends the transfer in progress. The code drops an OUT SETUP packet
  whose wLength exceeds the buffer and stays in the old transfer. A request completed by an OUT packet
  is the last one the host sent exactly when none has been dropped since it
  (`PipeOverlap.RequestIsLastIff`, `PipeOverlap.DataOfDroppedRequest`, `PipeOverlap.AnswerGoesOn`),
  and a run keeps to the standard's stages exactly when nothing more is done for a transfer so
  overtaken (`PipeTrace.ConformsIff`), as when the host never announces more than the buffer holds
  (`PipeTrace.FittingConforms`).
- Such a packet, and one that does not parse, also overwrites the start of the buffer. The bytes still
  to be sent stay right exactly when the answer is static, or past the bytes overwritten, or the same
  there (`PipeIn.IgnoredSetupIff`, `PipeOverlap.DroppedRequestSpoilsAnswer`); the bytes already
  received stay right exactly when one of packet and data is the beginning of the other
  (`PipeOut.IgnoredSetupOutIff`).
- The code ends a data stage with an empty packet whenever its length is a multiple of the packet
  size. Section 8.5.3.2 of USB 2.0 has the stage end at wLength bytes. The code keeps to that exactly
  when the answer is shorter than wLength or not a multiple of the packet size
  (`PipeIn.DataStageIff`, `PipeIn.ExactAnswerOverruns`).
- A pending address is applied at the next status stage to complete. That is the SET_ADDRESS
  request's own exactly when the driver took its status packet and reports its completion before any
  reset, SETUP packet or empty OUT packet, and not in the same poll as one of them
  (`DeviceAddress.AddressAppliedAtOwnStatusIff`). Otherwise a SET_CONFIGURATION that follows applies
  it at its own status stage, and so loses the configuration it has just set
  (`DeviceAddress.AddressAppliedByAnotherRequest`).
- `write_with` admits a payload of 254 bytes, whose record length 256 is stored as 0. The
  configuration descriptor can be walked exactly when no payload is that long
  (`DescriptorRoundTrip.ConfigWalkIff`, `DescriptorRoundTrip.LongPayloadBreaksWalk`).
- `capability` counts a capability before it checks that it fits. Rendering the BOS descriptor
  succeeds exactly when it has room for the fixed part, there are fewer than 255 capabilities and no
  refused one's error is returned by its class (`BosRoundTrip.BosOutcome`); with classes that return
  every error, when all capabilities fit (`BosRoundTrip.BosOutcomeStrict`). In a finished descriptor
  bNumDeviceCaps is the number of capabilities exactly when all fit and none is over 252 bytes
  (`BosRoundTrip.BosWalk`). A class that discards the error makes it wrong
  (`BosRoundTrip.RefusedCapabilityCounted`).
- With classes that return every error, there is a configuration descriptor exactly when the header and
  all calls fit the buffer, there are fewer than 256 default interfaces and fewer than 256 endpoints
  under each interface, no endpoint comes before its class's first interface, and every callback
  returns (`DescriptorOutcome.ConfigOutcome`).
- bNumInterfaces is the number of calls for a default interface, refused ones included
  (`DescriptorErrors.InterfaceCountIsCalls`). A class that discards an error leaves a refused one
  counted (`DescriptorErrors.RefusedInterfaceCounted`), and changes nothing as long as none of its
  calls is refused (`DescriptorErrors.DiscardingSame`).
- `string` runs off the buffer instead of returning an error exactly when the string does not fit
  and the room left is odd and at least 3; its length byte is right exactly up to 126 code units
  (`BosRoundTrip.StringRoundTrip`).
- A refused echo packet is never retried by the test class, whichever packet of the echo it is
  (`Loopback.EchoGoesOnIff`), and what had come back of the message comes back again in front of the
  next one (`Loopback.RefusedEchoMixes`).
- Re-encoding a parsed SETUP packet gives back its bytes exactly when the recipient field is at
  most 4 (`Control.EncodeParse`).

Where the code and its documentation differ, the code is modelled: an OUT request longer than the
buffer is dropped without a stall, and a driver may write short at any time, although the `UsbBus`
documentation calls that an error.

## Model

| member | source | states |
|---|---|---|
| Control.ParseEncode | src/test_class.rs:311-317 | parsing the stored encoding of any request gives the request back |
| Control.EncodeParse | src/control.rs:100-121 | every 8-byte packet parses, and encodes back to the same bytes if and only if its recipient bits are at most 4 |
| Control.MasksOfByte | src/control.rs:105-115 | the arithmetic used for direction, type and recipient is what the masks and shifts compute, for every byte |
| Control.ParseBytes | src/control.rs:100-121 | direction, type and recipient are bit 7, bits 6..5 and bits 4..0 of byte 0 of the SETUP packet, and the other fields its bytes, low byte first |
| Bus.ReadCovers | src/bus.rs:84-102 | the model's reads are exactly those the contract permits: a whole packet that fits the slice, or an error, which is an overflow for one that does not fit |
| Bus.WriteCovers | src/bus.rs:62-82 | the model's writes are exactly a count of at most the slice, or an error |
| PipeSafety.StepSafe | src/control_pipe.rs:67-313 | every operation in every state keeps the pipe invariant and indexes in range, provided an `accept_in` is no longer than a left-over static buffer and its callback does not panic |
| PipeSafety.RunSafe | src/control_pipe.rs:67-313 | no operation of any run panics, under the same condition at each acceptance |
| PipeSafety.OutOfReachPanics | src/control_pipe.rs:220-240 | the condition on lengths is exact: when it fails, full writes run off the static buffer after floor(d/m) packets |
| PipeIn.LosslessIn | src/control_pipe.rs:187-240 | over any refused, short and full writes and any other operations, SETUP packets that start no transfer and overwrite nothing still to be sent included, the bytes on the wire are the accepted source up to the cursor, all of it once the data stage is over |
| PipeIn.IgnoredSetupIff | src/control_pipe.rs:67-107 | a packet read as SETUP that starts no transfer leaves the bytes still to be sent right if and only if it overwrites none of them with others |
| PipeIn.InFragmentation | src/control_pipe.rs:187-240 | with whole-packet writes the packets are an initial stretch of floor(n/m) full ones and one short or empty one, all of them exactly when the pipe is past the data stage |
| PipeIn.DataStageIff | src/control_pipe.rs:220-240 | no packet goes out after the stage is over by section 8.5.3.2 of USB 2.0 if and only if n < wLength or m does not divide n |
| PipeIn.ExactAnswerOverruns | src/control_pipe.rs:232-236 | an answer of one full packet and exactly wLength bytes is followed by an empty packet out of stage |
| PipeIn.PacketAt | src/control_pipe.rs:220-240 | packet k of that fragmentation is bytes k*m to (k+1)*m, and the last is the n mod m bytes left, possibly none |
| PipeIn.PacketsFlatten | src/control_pipe.rs:220-240 | the fragmentation joined together is the source |
| PipeIn.AnswerRightIff | src/control_pipe.rs:256-296 | an answer of `accept_in` that is sent in full comes out right if and only if no static buffer is left over, or one that begins with the same bytes |
| PipeIn.FaithfulIff | src/control_pipe.rs:256-296 | every one-byte answer comes out right if and only if no static buffer is left over |
| PipeIn.AnswerEnds | src/control_pipe.rs:187-240 | with a driver that takes whole packets, an answer of n bytes is sent in full after floor(n/m) completions |
| PipeStatus.AnswerTrace | src/control_pipe.rs:187-240 | with whole-packet writes, an answer of n bytes is on the bus as its packets alone after floor(n/m) completions; one more unstalls EP0-OUT, does nothing else and opens the status stage; the host's empty packet closes it |
| PipeStatus.StatusOpenSince | src/control_pipe.rs:197-200 | in any run that ends in the status stage of an IN transfer, a completion of a last packet opened it, with an unstall of EP0-OUT and nothing else, and it has been open since |
| PipeStatus.SetupOutcomes | src/control_pipe.rs:67-127 | by its bytes, a SETUP packet asks for an IN answer, asks for an OUT answer, opens a data stage, or is dropped, and in all four cases unstalls EP0-OUT first |
| PipeStatus.UnstalledIff | src/control_pipe.rs:67-200 | EP0-OUT is unstalled if and only if eight bytes are read as SETUP or the last packet of an IN transfer has gone |
| PipeStatus.StalledIff | src/control_pipe.rs:129-313 | endpoint 0 is stalled if and only if an OUT packet is too long, fails or is empty and out of turn, a pending request is rejected, or a callback reports more than the buffer holds |
| PipeLeftover.LeftoverReachable | src/control_pipe.rs:62-65 | from a fresh pipe, a static answer cut short by a reset, an early status packet or a new SETUP leaves its buffer behind for the next answer |
| PipeLeftover.RunCounts | src/control_pipe.rs:220-296 | after any run, the buffer left behind is what the run's bus events say: the last static one given, unless a data stage has been written in full since |
| PipeLeftover.ReachIff | src/control_pipe.rs:256-296 | the condition for a safe run, on its own bus events: each answer within the buffer left behind |
| PipeLeftover.FaithfulAfterIff | src/control_pipe.rs:256-296 | after any run, an answer sent in full comes out right if and only if the run's bus events leave no static buffer unsent, or one that begins with the same bytes |
| PipeLeftover.PanicReachable | src/control_pipe.rs:220-240 | from a fresh pipe, such an answer followed by a longer one takes the chunk writer out of range |
| PipeOut.OutReassembly | src/control_pipe.rs:129-157 | in any run without a SETUP, an operation returns the request exactly when the bytes received first reach wLength, and `data()` is then their first wLength bytes |
| PipeOut.IgnoredSetupOutIff | src/control_pipe.rs:67-107 | a packet read as SETUP that starts no transfer leaves the bytes already received as they were if and only if one is a prefix of the other |
| PipeOverlap.RequestIsLastIff | src/control_pipe.rs:98-157 | in any run, a request completed by an OUT packet is the last one parsed if and only if none has been dropped since it was taken up |
| PipeOverlap.DataOfDroppedRequest | src/control_pipe.rs:104-107 | from a fresh pipe, the data of a dropped request completes the request it overtook |
| PipeOverlap.AnswerGoesOn | src/control_pipe.rs:104-107 | a static answer sends its next packet after a dropped request |
| PipeOverlap.DroppedRequestSpoilsAnswer | src/control_pipe.rs:67-107 | from a fresh pipe, a dropped request's own bytes go out in place of an answer the driver had refused |
| PipeOut.OutDelivery | src/control_pipe.rs:129-157 | from the host's side: packets of any sizes that fit, with idle polls between, are all taken and reassembled, the last one completing the request |
| PipeOut.OutOpens | src/control_pipe.rs:98-117 | an OUT SETUP opens a data stage, completes at once, or is dropped, according to its wLength alone |
| PipeTrace.RunRefines | src/control_pipe.rs:67-313 | the bus events of every run follow an automaton of control-transfer stages that sees nothing of the pipe, dropped requests ignored, and the pipe state is the stage they lead to |
| PipeTrace.ConformsIff | src/control_pipe.rs:98-127 | with every SETUP packet ending the transfer in progress, as in USB 2.0, a run follows the stages if and only if nothing more is done for a transfer that a dropped request has overtaken |
| PipeTrace.FittingConforms | src/control_pipe.rs:98-127 | it does so whenever no OUT SETUP packet announces more than the buffer holds |
| PipeTrace.OutTransfer | src/control_pipe.rs:129-157 | an OUT transfer writes at most one packet, empty, only after every announced byte, and completes its status stage at most once, only after that packet |
| PipeTrace.InTransfer | src/control_pipe.rs:242-313 | an IN transfer writes nothing before it is accepted and nothing once stalled |
| PipeTrace.InReturnsToIdle | src/control_pipe.rs:158-170 | an IN transfer returns to idle only on a zero-length OUT packet or a reset |
| ControlPipe.Ep0Pipe.HandleSetup | src/control_pipe.rs:67-127 | the in-place method has the effect, events and reply of its step function |
| ControlPipe.Ep0Pipe.HandleOut | src/control_pipe.rs:129-185 | the same, for an OUT packet |
| ControlPipe.Ep0Pipe.HandleInComplete | src/control_pipe.rs:187-218 | the same, for an IN completion; the buffer is not touched |
| ControlPipe.Ep0Pipe.WriteInChunk | src/control_pipe.rs:220-240 | the same, for one packet of the data stage |
| ControlPipe.Ep0Pipe.AcceptIn | src/control_pipe.rs:256-296 | the same, for an acceptance with a callback, unless it panics |
| Dispatch.DispatchEndpoints | src/device.rs:286-325 | the loop with its shifted bit and early exit makes exactly the callbacks of a full scan of endpoints 1 to 15 |
| Dispatch.ScanContains | src/device.rs:290-314 | a callback is made if and only if its mask bit is set, a SETUP hiding an OUT packet, and to every class |
| Dispatch.OrIs | src/device.rs:211 | or-ing two masks bit by bit is the source's bitwise or on `u16` |
| Dispatch.AndIs | src/device.rs:291 | the same for bitwise and |
| Dispatch.ShiftIs | src/device.rs:323 | the same for a shift by one, the top bit lost |
| Dispatch.NothingLeft | src/device.rs:316-321 | once the remaining mask is zero no callback is left to make |
| DevicePipe.DeviceRunIsPipeRun | src/device.rs:183-343 | a device run takes its control pipe through exactly the pipe operations it logs, and halts only where one of them panics |
| DevicePipe.RunMadeBy | src/device.rs:183-343 | every pipe operation of a run is made by some poll, with that poll's own event and answers |
| DevicePipe.DeviceFollowsProtocol | src/device.rs:183-343 | endpoint 0 of any device run follows the code's stages, and the standard's under the same exact condition, and the `expect` on resume never fails |
| DevicePipe.SafeWithoutStaticAnswers | src/device.rs:183-343 | with classes that never answer from a static buffer, and callbacks that return, the same holds with no other condition |
| DeviceAnswers.FirstAnswerWins | src/device.rs:345-354 | the classes asked are an initial stretch of the list, each finding the pipe waiting, stopping short only at an answer |
| DeviceAnswers.ControlSettles | src/device.rs:345-561 | built-in handling runs only if no class answered, finds the state its answers demand, and leaves the pipe waiting only if its own write or rendering failed |
| DeviceAnswers.GotIsPosed | src/control_pipe.rs:67-157 | a request the pipe returns is in the state that asks for its answer |
| DeviceAnswers.EveryRequestSettles | src/device.rs:183-343 | so every request of every run, whichever poll brings it, is settled in that poll |
| DeviceAnswers.BuiltInAnswers | src/device.rs:369-434 | an error leaves an OUT request undecided, or an IN request undecided or accepted with nothing sent; otherwise the request is settled |
| DeviceHistory.AddressSafety | src/device.rs:269-277 | without the quirk, each set_device_address comes right after a status stage, with the latest address in 1..127 handled since the last reset or use, and never more often than requested |
| DeviceAddress.AddressAppliedAtOwnStatusIff | src/device.rs:246-278 | without the quirk, from any state and over any polls after SET_ADDRESS, the address is applied before a reset or another transfer if and only if the driver took the status packet and the first poll to end the transfer reports its completion alone |
| DeviceAddress.AddressAppliedByAnotherRequest | src/device.rs:492-510 | whether the status packet was refused, or its completion came together with the next SETUP, the status stage of a SET_CONFIGURATION applies the address and undoes the configuration |
| DeviceHistory.ConfigurationHistory | src/device.rs:503-520 | in every reachable state the device is configured, now or on resume, exactly when the last of reset, address application and SET_CONFIGURATION was SET_CONFIGURATION(1) |
| DeviceHistory.SuspendAlternates | src/device.rs:186-200 | in every run the driver's suspend and resume calls strictly alternate, starting with suspend, and the saved state is there exactly while suspended |
| DeviceHistory.SuspendTransparent | src/device.rs:183-200 | a run and the same run with suspend, resume and empty polls erased end in the same device, suspension undone, after the same other calls |
| DeviceHistory.HistoryAgrees | src/device.rs:680-693 | the log of any run, read alone, gives the device's state, address, wakeup flag and suspension |
| DeviceEvents.PollDelivers | src/device.rs:286-330 | in any poll of a running device, suspended or not, a class is called for an endpoint if and only if its mask bit is set, a SETUP hiding an OUT packet, and polled if and only if there is data |
| DeviceEvents.PollOrder | src/device.rs:209-330 | endpoint 0 comes first, then the callbacks, ascending by endpoint and without repetition, then each class's poll, once and in order |
| DeviceEvents.ResetPoll | src/device.rs:680-693 | a reset, suspended or not, resets the bus, the pipe and every class in order and puts every field back |
| DeviceEvents.SuspendFollowsHost | src/device.rs:183-340 | in any run the device is suspended if and only if the last event its driver reported was a suspend |
| StandardOut.OutSettled | src/device.rs:439-561 | every request to the device that no class answers, by the bytes of its SETUP packet: acknowledged or stalled on the bus, with its effect on every field, the driver calls and the log |
| StandardOut.EndpointHalt | src/device.rs:468-490 | SETUP 02 01 or 02 03 with value 0 tells the driver once, for endpoint `index & 0x8f`, to clear or set the stall, and then offers the status packet |
| DeviceLog.RunHandled | src/device.rs:439-561 | the address, configuration, wakeup and halt entries of any run's log are those of the host's completed, unanswered requests, in order and nothing more |
| DeviceLog.LastHaltIsLastRequest | src/device.rs:468-490 | over any run, what the driver was last told about an endpoint is what the last halt request for it said |
| StandardIn.DeviceStatus | src/device.rs:360-370 | the packet that answers GET_STATUS of the device, cut to wLength |
| StandardIn.InterfaceStatus | src/device.rs:372-377 | the same, of an interface: 0 0 |
| StandardIn.EndpointStatus | src/device.rs:379-390 | the same, of an endpoint: 1 0 if the driver reports endpoint `index & 0x8f` stalled, else 0 0 |
| StandardIn.InterfaceSetting | src/device.rs:407-425 | the packet that answers GET_INTERFACE is the setting of the first class that knows the interface, or 0 |
| StandardIn.InStalledIff | src/device.rs:345-437 | a request from the device that no class answers stalls endpoint 0 if and only if it is none of those with an answer |
| StandardIn.HostIsToldConfiguration | src/device.rs:397-405 | after any run, the packet that answers GET_CONFIGURATION is 1 exactly when the last change of state was SET_CONFIGURATION(1) |
| StandardIn.HostIsToldStatus | src/device.rs:360-370 | after any run, the packet that answers GET_STATUS has its wakeup bit set exactly when the last word on it since the last reset was SET_FEATURE |
| StandardIn.HostIsToldHalt | src/device.rs:379-390 | after any run, with a driver that reports what it was last told, GET_STATUS of an endpoint answers 1 exactly when the last halt request for it was SET_FEATURE |
| ClassRequests.ClassAccepts | src/device.rs:439-448 | the first class to accept an OUT request has it acknowledged, later classes are not asked, and no field but the pipe changes |
| ClassRequests.ClassRefuses | src/device.rs:345-354 | the first class to reject a request, of either direction, has endpoint 0 stalled, and the same holds |
| ClassRequests.ClassAnswers | src/class.rs:175-200 | the first class to accept an IN request has its bytes sent, cut to wLength, to a packet and to what the driver takes, and the pipe goes on with the rest |
| UsbDevice.Stack.Ask | src/device.rs:348-354 | the class loop has the effect of its step function |
| UsbDevice.Stack.Configure | src/device.rs:457-552 | the match over standard OUT requests changes the fields, logs and answers as its step function says |
| UsbDevice.Stack.BuiltInAnswer | src/device.rs:356-428 | the match over standard IN requests answers as its step function says |
| UsbDevice.Stack.Poll | src/device.rs:183-343 | poll has the effect of its step function and returns true exactly on a data event |
| UsbDevice.Stack.Run | src/device.rs:183-343 | polling over and over has the effect of the device run; from the builder, with no static answers and callbacks that return, it never panics |
| DescriptorRoundTrip.WriteWithAppends | src/descriptor.rs:78-102 | a successful `write_with` appends one length-prefixed record and changes nothing before it |
| DescriptorRoundTrip.ClassPrinted | src/descriptor.rs:195-351 | one class's successful calls leave exactly its records, with every counter moved by the number of calls it counts |
| DescriptorRoundTrip.ConfigRoundTrip | src/device.rs:601-612 | the finished configuration descriptor is the header and all records in order, with wTotalLength, bNumInterfaces and each bNumEndpoints right and neither count wrapped, and walks back to them exactly when every length byte is right |
| DescriptorRoundTrip.ConfigWalkIff | src/descriptor.rs:87-96 | it walks back to the records if and only if no payload is 254 bytes |
| DescriptorRoundTrip.LongPayloadBreaksWalk | src/descriptor.rs:87-96 | one such payload, in a buffer with room for it, is written and cannot be walked |
| DescriptorOutcome.ConfigOutcome | src/descriptor.rs:78-351 | rendering the configuration succeeds if and only if header and calls fit, no counter passes 255, no endpoint precedes its class's first interface, and every callback returns |
| DescriptorOutcome.PutFails | src/descriptor.rs:78-351 | a class's call panics if and only if it would push a counter past 255; otherwise a misplaced call fails with InvalidState, a failing callback with its own error, and anything else for want of room |
| DescriptorDecode.ConfigDecodes | src/descriptor.rs:146-351 | walked and decoded by the offsets of sections 9.6.3 to 9.6.6 of USB 2.0, the configuration descriptor gives back its configuration and, in order, every call with all its fields and each interface's number of endpoints |
| DescriptorDecode.BosDecodes | src/descriptor.rs:395-447 | the same of a BOS descriptor: the count of calls, the USB 2.0 extension, and type and data of each capability that fits |
| DescriptorDecode.DeviceDecodes | src/descriptor.rs:104-144 | the same of the device descriptor: the identity it was built with, and the indexes of the strings the first language has |
| DescriptorRoundTrip.WalkIff | src/descriptor.rs:96-97 | walking bLength recovers a sequence of records if and only if each length byte is its record's length |
| DescriptorErrors.InterfaceCountIsCalls | src/descriptor.rs:266-300 | bNumInterfaces is the number of default-interface calls of any classes, refused and discarded ones included |
| DescriptorErrors.DiscardingSame | src/device.rs:604-607 | classes that discard errors write the same descriptor as long as no refused call is discarded |
| DescriptorErrors.RefusedInterfaceCounted | src/descriptor.rs:274-279 | a default interface refused and discarded is counted and not there |
| DescriptorWriter.RecordWriter.WriteWith | src/descriptor.rs:78-102 | the in-place method has the effect and result of its step function |
| DescriptorWriter.RecordWriter.Assemble | src/device.rs:601-612 | the assembly loop over classes has the effect and result of its step function |
| DescriptorWriter.RecordWriter.String | src/descriptor.rs:354-380 | the loop over code units has the effect and result of its step function |
| DescriptorWriter.BosWriter.Capability | src/descriptor.rs:418-440 | the in-place method has the effect and result of its step function |
| BosRoundTrip.CapabilityAppends | src/descriptor.rs:418-440 | a capability call counts one, and appends its record exactly when it succeeds |
| BosRoundTrip.BosOutcome | src/device.rs:586-597 | rendering succeeds if and only if the buffer has 12 bytes, there are fewer than 255 capabilities, and no refused one's class returns the error; it panics if and only if the counter runs over before that |
| BosRoundTrip.BosOutcomeStrict | src/device.rs:590-592 | with classes that return every error, it succeeds if and only if all capabilities fit |
| BosRoundTrip.BosWalk | src/device.rs:586-597 | a finished BOS descriptor walks back to its header, the USB 2.0 extension and the capabilities that fit, and its count is right if and only if all do and none is over 252 bytes |
| BosRoundTrip.RefusedCapabilityCounted | src/descriptor.rs:418-428 | one capability with no room for it is counted and not there if its class discards the error, and fails the rendering if not |
| BosRoundTrip.StringRoundTrip | src/descriptor.rs:354-380 | success if and only if the string fits, a panic if and only if it does not and the room is odd and at least 3, the position unmoved on failure, and reading back works if and only if it has at most 126 code units |
| GetDescriptor.SelectsIff | src/device.rs:640-662 | the string found is that of the first language with the identifier asked for, for indexes 1 to 3, and of the first class that knows it otherwise |
| EndToEnd.HostReadsDescriptor | src/device.rs:564-677 | from the poll that brings GET_DESCRIPTOR, what goes out is a first part of the rendered descriptor's first wLength bytes, and all of them once the data stage is over |
| EndToEnd.HostReadsDevice | src/descriptor.rs:104-144 | a host with room for the device descriptor decodes the identity and string indexes the device was built with |
| EndToEnd.HostReadsConfiguration | src/device.rs:601-612 | a host with room for the whole configuration descriptor walks it and decodes the configuration and every call of every class, field by field |
| EndToEnd.HostReadsBos | src/device.rs:586-597 | a host with room for the whole BOS descriptor, which a device has only above USB 2.0, walks it and decodes the extension and every capability that fits |
| EndToEnd.HostReadsLanguages | src/device.rs:617-634 | a host that asks for string 0 reads the identifiers of the languages, in order |
| EndToEnd.HostReadsString | src/device.rs:635-668 | a host with room for any other whole string descriptor reads the string its index and language select, if and only if that has at most 126 code units |
| EndToEnd.DescriptorRefusedIff | src/device.rs:601-675 | a GET_DESCRIPTOR that no class answers stalls endpoint 0 if and only if its type is unknown or its index and language select no string |
| EndToEnd.HostCanRead | src/device.rs:564-677 | and it can have any finished descriptor, after the request's poll and one for each full packet |
| Loopback.LoopbackRun | src/test_class.rs:148-214 | for any number of rounds of a well-behaved host, no panic or assert is reached, and packets written plus packets owed are the echo of every message |
| Loopback.LoopbackSettled | src/test_class.rs:148-214 | between messages every byte sent has come back and the cursor and flags are ready for the next round |
| Loopback.EchoCount | src/test_class.rs:189-214 | the echo of T bytes takes max(1, ceil(T/m)) packets |
| Loopback.EchoGoesOnIff | src/test_class.rs:189-214 | at any packet of an echo, it goes on if and only if the driver takes the packet; after a refusal an idle poll writes nothing and a completion panics |
| Loopback.PollPanicsIff | src/test_class.rs:148-214 | in any state, a poll panics or fails an assert if and only if the driver fails, the packet was not announced or does not fit, or it ends a message whose first echo packet the driver fails or cuts |
| Loopback.CompletionPanicsIff | src/test_class.rs:189-263 | a completion does if and only if no echo is in progress, or the driver fails or cuts the packet due |
| Loopback.RefusedEchoMixes | src/test_class.rs:148-214 | after a refusal, the messages that follow come back with the bytes already echoed in front of the first |
| TestClass.BulkLoop.PollBulk | src/test_class.rs:148-168 | the in-place method has the effect and result of its step function |

## Left out

- DeviceModel.AcceptWriter: a device run takes the rendering of each poll, a panic included, as an input; GetDescriptor.Render says which rendering it is, with the class's strings as inputs.
- StandardIn.HostIsToldHalt: assumes of the driver that it reports what it was last told; a driver may also clear a stall on a bus reset, and a class may stall an endpoint itself.
- DescriptorRoundTrip.ConfigRoundTrip: speaks of classes whose errors are returned; for those that discard a refused call, only bNumInterfaces is settled (DescriptorErrors), because a refused interface leaves its endpoint counter over bytes written later. A callback reports no more bytes than it writes.
- Real `UsbBus` drivers, `DummyUsbBus` and the host-side tests: hardware and other programs.
- `freeze`, `RefCell`, `AtomicPtr` and shared pointers: Rust ownership, no algorithm.
- Builder setters, endpoint-address accessors, `to_bm_attributes` and the allocator's counters: easy members.
- UTF-16 encoding of Rust strings: library code; the model starts from code units.
- Test-class bench mode, interrupt echo, isochronous endpoint and control buffer: no state beyond one packet or one copy.
- Timing, remote-wakeup signalling and the electrical effect of a stall: stalls are recorded as events only.
- `force_reset` and `set_self_powered`: one assignment or one driver call each.
