# Verified model of the Bluetooth keyboard bridge

This firmware turns a Bluetooth Classic keyboard into a USB keyboard on a Pico W. The project
models its decision logic in Dafny and proves what that logic is for. Verify it with
`dafny verify dfyconfig.toml`.

Code that updates state in place is modelled by classes, arrays and loops; each method is proved
against a function on values, and the properties are proved about those functions.

## What is modelled

- **HID report descriptors** (`HidItems`, `HidReference`, `UsageSets`, `HidDescriptor`,
  `HidGrammar`, `HidNkro`, `HidFlags`). The one-pass interpreter keeps compressed usage sets: a table of first
  positions, a bitmap and saturating counters. It is proved equal, for every byte string, to a
  reference that keeps the usage lists themselves. Acceptance is proved to be a grammar over item
  lists, and every flag of the report to be the existence of one kind of item in the list. The claim that the keyboard depth tells whether a keyboard collection is open is false when such
  collections nest; the project gives a descriptor whose NKRO field is missed for that reason, and
  the exact condition.
- **SDP data elements** (`SdpElements`, `SdpSearch`, `SdpReport`, `SdpParser`, `SdpRecord`). Trees remember which
  length form encodes them. Validation, the search for channel numbers and the search for the
  report descriptor are proved against the trees, the byte-at-a-time reader against reading
  whole attributes, and the record that any list of attributes leaves is given field by field. Following the code, only sequences are descended: alternatives are leaves.
- **The connection manager** (`BtState`, `DeviceTable`, `HidChannels`, `ReportQueue`, `Connection`,
  `Bluetooth`, and the proofs `ConnectionSteps`, `ConnectionState`, `ConnectionWish`,
  `ConnectionSafety`, `ConnectionPause`, `ConnectionLink`, `ConnectionRuns`, `ConnectionRecords`,
  `ConnectionWitness`, `ConnectionKeys`, `BluetoothRuns`). `Connection` is a state machine over stack
  events, timer, control requests and USB turns; its log records transitions and commands.
  `Bluetooth.App` is the module with its variables, whose handlers refine the machine, and
  `BluetoothRuns` states the results on those variables.
- **The DHCP server** (`DhcpOptions`, `DhcpLeases`, `DhcpServer`, `DhcpWire`), from packet to reply, with the
  16-bit expiry on the wrapping clock. True time is unbounded; the code sees it modulo 2^32. Each
  slot of a scan may be looked at a little later than the one before.
- **Control JSON** (`Json`, `ControlJson`, `JsonWriter`, `JsonBound`, `ControlSnapshot`). A bounded
  writer, the JSON value it stands for, a parser that inverts printing, and the worst-case size.
- **The log ring** (`LogRing`) between `printf` and the CDC endpoint.

## The stack contract

The Bluetooth stack is an environment that may deliver any event at any time with any contents,
and may refuse any command. `ConnectionSafety` states what it must not do:

- `WorkingOnce`: it reports that it works only in the initial state.
- `OpensOnLink`: a channel opens successfully only while there is an ACL link.
- `LinkContract`: a successful connection has a valid handle and, during an attempt, the address of
  that attempt.
- `AnswerContract`: discovery data, a successful discovery and a successfully opened channel answer
  a request that is still pending on the current link.
- `NoStrayDisconnection`: while an answer is owed, a disconnection that is reported is that of the
  module's own link.
- `AnswersOnly` is the first, third and fourth together, and `Contract` is `AnswersOnly` with
  `NoStrayDisconnection`.

Nothing is asked of timers and failures. The disconnection handler never looks at the handle: it
takes any disconnection for its own link's, and goes idle. While nothing is owed that keeps every
promise below, and the contract allows it. While an answer is owed it does not: the module can
bring such a disconnection about itself, by giving up a link that it did not ask for, and the answer then makes it open a
channel without a link. `ConnectionWitness` shows this run, and `InvHoldsExactly` that the clause is
exactly what the invariant needs of a stack that answers only what it was asked.

| result | assumes |
|---|---|
| LED agreement, reports in order, attempts only for the selected keyboard, selection on record | nothing |
| a user's pause wins, a wanted keyboard is pursued | `WorkingOnce` |
| no stuck keys | `WorkingOnce`, `OpensOnLink` |
| global invariant, expected transitions, milestones of a link, the marked device, what a client sees | `Contract` |

Transitions are as expected exactly when no interrupt channel opens under the number of its control
channel: the code compares with the control number first, so equal numbers take a connected
keyboard back to the boot protocol step. `ConnectionWitness` spells out runs from power-on for every
service record: those whose numbers differ end with a connected keyboard, and those that give one
number for both channels with that transition. `ConnectionKeys` continues the former with a key press.

## Model

| member | source | states |
|---|---|---|
| `HidItems.TokeniseIsInverseOfEncode` | bt/hid_report_descriptor.c:155-170 | A byte string splits into a list of items exactly when it is the encoding of that list; both round trips, for short and long items |
| `HidReference.InterpretIsRunOfTokens` | bt/hid_report_descriptor.c:155-301 | Reading item by item from an offset gives the same end state as tokenising first and folding the items |
| `UsageSets.SettingBits` | bt/hid_report_descriptor.c:89-93 | Setting one bit of a bitmap byte changes exactly that bit |
| `UsageSets.UsageSet.Reset` | bt/hid_report_descriptor.c:129-135 | From any earlier contents, the set represents the empty usage list |
| `UsageSets.UsageSet.Append` | bt/hid_report_descriptor.c:73-101 | The compressed set goes from representing a list to representing the list with one more usage, saturation included |
| `UsageSets.UsageSet.RecordPosition` | bt/hid_report_descriptor.c:80-88 | The first-position table stays that of the longer list: first occurrences only, none past the sentinel limit |
| `UsageSets.UsageSet.SetNonKey` | bt/hid_report_descriptor.c:89-93 | The bitmap gains exactly the position of a non-key usage |
| `UsageSets.UsageSet.NonKeyPositionCount` | bt/hid_report_descriptor.c:103-113 | Counts the positions below the report count that hold a non-key code |
| `UsageSets.UsageSet.KeyboardUsageCount` | bt/hid_report_descriptor.c:115-127 | Counts the distinct keys whose first occurrence is below the report count, although the table stores 16-bit positions with an absent sentinel |
| `UsageSets.FirstPositionIsFirst` | bt/hid_report_descriptor.c:80-88 | For counts up to the position limit, the stored position is below the count exactly when the key occurs among that many usages |
| `UsageSets.FirstConsumerIsFirst` | bt/hid_report_descriptor.c:95-98 | The stored index is below a limit exactly when a consumer usage occurs before it |
| `UsageSets.NkroCountIsExact` | bt/hid_report_descriptor.c:276-286 | Distinct keys plus non-key positions never exceed the report count, and reach it exactly when every bit has a keyboard-page usage and keys are pairwise distinct |
| `HidDescriptor.DescriptorParser.Parse` | bt/hid_report_descriptor.c:137-309 | For every byte string and any earlier contents of the static usage sets, the five flags equal the reference over unbounded usage lists |
| `HidDescriptor.DescriptorParser.GlobalItem` | bt/hid_report_descriptor.c:172-195 | The in-place globals and their push/pop stack follow the reference step, with the same rejections |
| `HidDescriptor.DescriptorParser.UsageItem` | bt/hid_report_descriptor.c:196-223 | A usage, minimum or maximum item extends the represented lists as the reference does, ranges included |
| `HidDescriptor.DescriptorParser.DelimiterItem` | bt/hid_report_descriptor.c:224-240 | A delimiter opens the next of at most four alternatives or closes the group, or is rejected, as in the reference |
| `HidDescriptor.DescriptorParser.BeginCollection` | bt/hid_report_descriptor.c:249-267 | Opening a collection updates depths and descriptor flags as the reference nesting does |
| `HidDescriptor.DescriptorParser.EndCollection` | bt/hid_report_descriptor.c:268-273 | Closing a collection keeps the depth counters equal to the reference nesting, and forgets an outer keyboard collection as the source does |
| `HidDescriptor.DescriptorParser.InputItem` | bt/hid_report_descriptor.c:274-297 | The loop over alternatives reports the same NKRO and consumer fields as the reference quantifier over them |
| `HidDescriptor.DescriptorParser.NkroField` | bt/hid_report_descriptor.c:276-286 | One alternative is an NKRO bitmap by its counters exactly when its usage list covers the bitmap |
| `HidDescriptor.DescriptorParser.MainItem` | bt/hid_report_descriptor.c:241-301 | A main item acts, and clears local items, as the reference step does |
| `HidDescriptor.DescriptorParser.Finish` | bt/hid_report_descriptor.c:303-308 | The verdict on the end state is the reference verdict |
| `HidGrammar.AcceptanceIsGrammar` | bt/hid_report_descriptor.c:155-308 | A descriptor is valid exactly when items tile the non-empty input, each is allowed after the items before it, and nothing is left open; the rules are stated on the item list alone |
| `HidGrammar.RunAgrees` | bt/hid_report_descriptor.c:155-308 | Interpretation of an item list succeeds exactly when every item is allowed, and its depths, global values, pending minimum and delimiters are those counted on the list |
| `HidGrammar.ReportIsCautious` | bt/hid_report_descriptor.c:44-47 | A descriptor that is not valid has every flag false, and NKRO implies a keyboard |
| `HidGrammar.TracksKeyboardsExactlyWithoutNesting` | bt/hid_report_descriptor.c:257-273 | The keyboard depth is right at every point of a valid descriptor exactly when no keyboard collection opens inside another |
| `HidNkro.NestedKeyboardIsForgotten` | bt/hid_report_descriptor.c:268-286 | A concrete descriptor, as bytes, that is accepted, has an NKRO field inside an open keyboard collection, and is reported without one |
| `HidNkro.NkroIsReportedWhereSeen` | bt/hid_report_descriptor.c:276-286 | The NKRO flag is set exactly when some input item has an NKRO field where the keyboard depth is not zero |
| `HidNkro.NkroIsReportedExactly` | bt/hid_report_descriptor.c:276-286 | On a valid descriptor a reported NKRO field is really inside a keyboard collection; without nested keyboard collections none is missed; in general the flag is right exactly when one of the fields is where the parser tracks its collection |
| `HidFlags.ParseIsDescribed` | bt/hid_report_descriptor.c:137-309 | The whole report of any byte string, from its items alone: keyboard exactly when some application collection is named by an alternative whose first usage is generic desktop keyboard; consumer control exactly when one is named so or some data input reports a consumer usage; NKRO exactly when such a field stands where the keyboard collection begun last is open; report IDs exactly when there is such an item; nothing when no items tile the bytes or the grammar is broken |
| `HidFlags.RunDescribes` | bt/hid_report_descriptor.c:155-301 | At every point of an accepted run each flag is the existence of that kind of item so far |
| `HidFlags.InsideIsOpen` | bt/hid_report_descriptor.c:257-273 | The keyboard depth is not zero exactly when the keyboard collection begun last has not ended, by the depths counted on the item list |
| `HidFlags.RunLists` | bt/hid_report_descriptor.c:196-240 | The usages of every alternative are those that its usage, minimum and maximum items give since the last main item, by delimiters counted on the list |
| `SdpElements.DecodeIsInverseOfEncode` | bt/sdp_parser.c:33-116 | A buffer decodes to a tree exactly when it is the tree's encoding, byte by byte, and the height is allowed; each of the size indexes 5, 6 and 7 is remembered |
| `SdpElements.LeafIsWritten` | bt/sdp_parser.c:33-84 | Which kinds, size indexes and sizes are allowed, and the bytes of each form of element |
| `SdpElements.SequenceIsWritten` | bt/sdp_parser.c:33-84 | The same for sequences, with the encodings of their children as data |
| `SdpSearch.ReadElement` | bt/sdp_parser.c:54-85 | The bounded reader succeeds exactly on a complete header and payload, and returns their sizes and data, within the buffer |
| `SdpSearch.ValidateElementTree` | bt/sdp_parser.c:96-116 | Recursive validation at a depth equals decoding with the levels that are left |
| `SdpSearch.ValidTrees` | bt/sdp_parser.c:96-116 | Validation at the top accepts exactly the encodings, filling the buffer, of trees of height at most four |
| `SdpSearch.FindL2capPsm` | bt/sdp_parser.c:161-199 | The recursive scan returns what its specification on the bytes returns, and terminates |
| `SdpSearch.PsmIsFirstInPreorder` | bt/sdp_parser.c:161-199 | On the encoding of any tree, of any depth and with anything behind it, the search returns the channel number of the first L2CAP descriptor in preorder |
| `SdpSearch.FirstPsmIsFirst` | bt/sdp_parser.c:161-199 | That search fails exactly when no sequence is such a descriptor, and otherwise gives the 16-bit integer of the first one, most significant byte first |
| `SdpReport.FindReportDescriptor` | bt/sdp_parser.c:118-159 | The loop over entries returns the report string of the decoded tree, or nothing |
| `SdpReport.ReportShape` | bt/sdp_parser.c:118-159 | A report is found exactly when the buffer encodes a sequence of kind and string pairs whose first kind is 0x22 and whose later kinds are not, and it is the first string; no depth condition is needed |
| `SdpReport.ReportListed` | bt/sdp_parser.c:130-158 | That list, child by child: every child is a pair of an 8-bit unsigned integer and a string, the integer is 0x22 in the first child and in no other, and the report is the first string |
| `SdpReport.ReportIsShallow` | bt/sdp_parser.c:125-127 | That shape alone is within the depth limit |
| `SdpParser.SdpParser.ParseAttribute` | bt/sdp_parser.c:201-267 | The device record is updated in place as the attribute specification says, and no other device changes |
| `SdpParser.SdpParser.Feed` | bt/sdp_parser.c:273-298 | One byte updates buffer, counter and record as the specification of one fed byte says |
| `SdpParser.StreamingIsBatching` | bt/sdp_parser.c:201-298 | Any list of attributes fed byte by byte gives the record of reading each whole; the counter is exact modulo 65536; oversized attributes only clear the descriptor of 0x0206 |
| `SdpParser.OneAttributeTooLong` | bt/sdp_parser.c:277-286 | An attribute that is too long never touches the buffer |
| `SdpRecord.RecordOfAttributes` | bt/sdp_parser.c:201-298 | Any list of attributes: the control number is that of the last usable 0x0004, the interrupt number that of the last usable 0x000d, all seven report flags are those of the last 0x0206, the name is the first non-empty 0x0100 of a device without a name; otherwise each field, and every other field, is as before |
| `SdpRecord.NumberOfTree` | bt/sdp_parser.c:161-199 | The number in either protocol attribute is that of the first L2CAP descriptor, in preorder, of the tree that it encodes |
| `SdpRecord.NameOfText` | bt/sdp_parser.c:248-266 | The name in an attribute is its string, cut to 63 bytes, unless it is empty |
| `SdpRecord.FlagsOfItems` | bt/sdp_parser.c:203-234 | The flags of a report attribute are, one by one, what the items of its report descriptor describe |
| `SdpRecord.LatestIsLast` | bt/sdp_parser.c:201-298 | What the last attribute says that says anything, by its place in the list |
| `SdpRecord.EarliestIsFirst` | bt/sdp_parser.c:263-266 | What the first one says, by its place in the list |
| `DeviceTable.DeviceManager.Find` | bt/device_manager.c:9-16 | Returns the index of the address in the table, or nothing |
| `DeviceTable.DeviceManager.Upsert` | bt/device_manager.c:18-56 | Updates or appends one record as the specification says; fails only for an unknown address in a full table |
| `DeviceTable.DeviceManager.GetConnectionTarget` | bt/device_manager.c:61-75 | The first bonded keyboard, else the first keyboard, else nothing |
| `DeviceTable.DeviceManager.ClearConnections` | bt/device_manager.c:95-99 | Only the connected flags change, all to false |
| `DeviceTable.DeviceManager.ClearBonded` | bt/device_manager.c:101-105 | Only the bonded flags change, all to false |
| `DeviceTable.UpsertKeepsTable` | bt/device_manager.c:18-56 | Addresses stay distinct and at most 16, every known address stays known, and other devices keep their places and records |
| `DeviceTable.UpsertedIndex` | bt/device_manager.c:18-56 | After an upsert the address is found at its old index, or behind all others if it was new and there was room, and otherwise not at all |
| `DeviceTable.SightingIsRecorded` | bt/device_manager.c:18-56 | Each field of a sighted device against the inquiry result, and what it keeps or starts with |
| `DeviceTable.KeyboardClassBits` | bt/device_manager.c:35-40 | A class of device is a keyboard's exactly when its major class is 5 and the keyboard bit is set |
| `DeviceTable.TargetIsBest` | bt/device_manager.c:61-75 | A keyboard is chosen exactly when no bonded keyboard is passed over, and among equals none that comes first; none is chosen exactly when there is no keyboard |
| `HidChannels.ChannelState.Close` | bt/hid_channels.c:29-44 | Closes the channel or channels with the identifier, which zero never names, and says which |
| `HidChannels.ChannelState.SetLeds` | bt/hid_channels.c:46-54 | Masks the host's LEDs and asks for a report unless nothing would change |
| `ReportQueue.Queue.Send` | usb/hid_keyboard.c:22-38 | The circular array stands for the pending reports with the new one last; a full queue keeps only the new one |
| `ReportQueue.Queue.Release` | usb/hid_keyboard.c:50-54 | All pending reports give way to one that releases every key |
| `ReportQueue.Queue.Drain` | usb/hid_keyboard.c:66-78 | The host takes the oldest pending report, or nothing changes |
| `ReportQueue.DrainingKeepsNewest` | usb/hid_keyboard.c:66-78 | Draining never changes what the host will finally see |
| `ReportQueue.SendingIsNewest` | usb/hid_keyboard.c:22-54 | After a send or a release the newest state is that report, overflow included |
| `Bluetooth.App.Handle` | bt/bluetooth.c:125-1057 | Every stack event, timer, control request and USB turn changes the module's variables, its device records, channels and queue in place, as one step of the state machine whose runs are studied, and sends the same commands |
| `Bluetooth.App.HandleAll` | bt/bluetooth.c:125-1057 | A whole run of the handlers is the run of the state machine |
| `BluetoothRuns.Session` | bt/bluetooth.c:125-1057 | From power-on through any events, on the module's own variables: the LEDs are those the host asked for last; the array holds, in order, what was typed and neither read nor dropped; an idle module that wants a keyboard has its timer running; a closed interrupt channel means the newest report in the array, or the last one taken, releases all keys; and the handle, timer, state, device array and addresses fit together, each under its named assumption |
| `BluetoothRuns.PausedSession` | bt/bluetooth.c:999-1055 | After Disconnect or Forget, and until Connect or Reconnect, the handlers send no connection command and enter no authentication, and an attempt that is still open is being cancelled |
| `ConnectionSteps.PacketCarries` | bt/hid_boot_report.c:6-53 | A packet yields a report exactly when it is a header, an optional report ID, the modifier, a zero and six keys, with error codes in all six places or nowhere |
| `ConnectionSteps.StepDoes` | bt/bluetooth.c:125-1057 | In every state and for every event: exactly which commands go out, in order, and whether the key queue is released, gains a typed report, gives up its oldest or stays |
| `ConnectionState.StepGoes` | bt/bluetooth.c:125-1057 | In every state and for every event, the next state, refusals by the stack and failures with and without a link included |
| `ConnectionWish.StepWishes` | bt/bluetooth.c:949-1057 | Which events change whether a keyboard is wanted, which one, and the LEDs, and to what; and no event leaves the module idle without a retry to come while one is wanted |
| `ConnectionWish.AttemptsAreForSelected` | bt/bluetooth.c:179-225 | In any state and with no contract, every connection command goes to the keyboard that is selected from then on |
| `ConnectionWish.SelectionIsOnRecord` | bt/bluetooth.c:67-99 | On every run the selection in memory is what the commands sent so far have stored and erased |
| `ConnectionWish.NeverStopsTrying` | bt/bluetooth.c:154-225 | On every run, an idle module that wants a selected keyboard has its timer running, and the timer dials exactly that keyboard; assumes that the stack starts once |
| `ConnectionWish.LedAgreement` | bt/bluetooth.c:700-743 | On every run, with no assumption, a connected keyboard without a pending report was last sent the five LED bits that the host asked for last |
| `ConnectionWish.LedsReachKeyboard` | bt/bluetooth.c:256-269 | After any run, LEDs that the host sets reach a connected keyboard as soon as its control channel can be written |
| `ConnectionKeys.HostReadsInOrder` | bt/bluetooth.c:357-401 | On every run, with no assumption, what the host has read followed by what waits is, in order, the typed reports and the releases that were not dropped by a release or by a 65th waiting report |
| `ConnectionKeys.NothingIsLost` | usb/hid_keyboard.c:22-78 | While there is no release and no overflow, the host gets all that is typed, in order |
| `ConnectionKeys.PacketIsQueued` | bt/bluetooth.c:376-400 | On the open interrupt channel the bytes a1, m, 0 and six keys, or with a report ID in front of m, become the newest waiting report, for every m and all keys but the error codes |
| `ConnectionKeys.OtherPacketsAreIgnored` | bt/bluetooth.c:376-392 | A packet that carries no report, or that comes while the interrupt channel is closed, changes nothing |
| `ConnectionKeys.TypesFromPowerOn` | bt/bluetooth.c:357-401 | An explicit run from power-on: a keyboard with any service record connects, a key is pressed, and after at most 64 turns of the USB task that is the host's state |
| `ConnectionRecords.LinkIsMarked` | bt/bluetooth.c:562-832 | On every run under the contract exactly the live link's device is marked as connected, and without a link every channel is closed and no request is under way |
| `ConnectionRecords.BondsFollow` | bt/bluetooth.c:1048-1050 | Each change of a bond is that device's flag and nothing else, and Forget clears all |
| `ConnectionRecords.SightingFollows` | bt/bluetooth.c:515-543 | An inquiry result is recorded with its bond, which only keyboards get |
| `ConnectionRecords.SelectedIsRestored` | bt/bluetooth.c:189-209 | A selected keyboard without a record gets one as a keyboard with its bond, behind the others, or alone when the table was full |
| `ConnectionRuns.GlobalInvariant` | bt/bluetooth.c:138-225 | On every run that keeps the contract: the handle is valid exactly in the states with a link, the timer is armed only when idle, the table is well formed, and the device of an attempt or of a live link can be found |
| `ConnectionRuns.TransitionsAreExpected` | bt/bt_state.c:22-48 | Under the contract, all transitions of a run are allowed exactly when no interrupt channel was opened under the number of its control channel |
| `ConnectionWitness.ConnectsByReported` | bt/bluetooth.c:403-465 | For every address and every service record, an explicit run from power-on within the contract: unless the record gives one number for both channels, the keyboard is connected by the numbers of its record, or by 0x0011 and 0x0013 when one is missing, and its report flags are those of its record |
| `ConnectionWitness.EqualNumbersMisfire` | bt/bluetooth.c:692-708 | For every address and every service record that gives one number, not zero, for both channels: every transition up to the request for the interrupt channel is allowed, and the opening of that channel takes the keyboard back to the boot protocol step, which is not allowed |
| `ConnectionWitness.ListsAreReported` | bt/sdp_parser.c:235-247 | The two protocol lists with one number each, byte by byte, are such a record, for any two numbers |
| `ConnectionWitness.StrayDisconnectionMisfires` | bt/bluetooth.c:597-604 | An explicit run: the module gives up an unasked link, that link is reported down while services of its own link are awaited, and the answer makes it open a channel from idle with no link on record |
| `ConnectionLink.InvHoldsExactly` | bt/bluetooth.c:816-832 | On every run of a stack that answers only what it was asked, the invariant holds all along exactly when no other link is reported down while an answer is owed |
| `ConnectionLink.StepKeepsInvExactly` | bt/bluetooth.c:816-832 | One step of such a stack keeps the invariant exactly if it is not such a disconnection, and its transitions are allowed exactly when it does not open an interrupt channel under the control channel's number |
| `ConnectionLink.StepFine` | bt/bluetooth.c:486-1057 | One step under the contract keeps the invariant, and its transitions are allowed exactly when it does not open an interrupt channel under the control channel's number |
| `ConnectionLink.InvHolds` | bt/bluetooth.c:486-1057 | The invariant holds at the end of every run that keeps the contract |
| `ConnectionRuns.LinkSawEveryStep` | bt/bluetooth.c:590-814 | A live link has seen, since it came up, in order and with no disconnection in between, every milestone its state stands for |
| `ConnectionRuns.ConnectedSawAll` | bt/bluetooth.c:590-814 | A connected keyboard's link has seen security, discovery, control channel, boot protocol and interrupt channel, in this order |
| `ConnectionPause.PauseWins` | bt/bluetooth.c:999-1055 | After Disconnect or Forget no run creates a connection or enters authentication until Connect or Reconnect; the only assumption is that the stack starts once |
| `ConnectionSafety.NoStuckKeys` | usb/hid_keyboard.c:22-78 | On every run, while the interrupt channel is not open the newest report for the USB host releases all keys; assumes that the stack starts once and that channels open only on a link |
| `DhcpOptions.Find` | web/dhcp_server.c:148-163 | Finds an option exactly when the option list has one, and its data is that of the first; never reads past the length |
| `DhcpOptions.WriteN` | web/dhcp_server.c:165-171 | Writes one option and touches no other byte |
| `DhcpOptions.WriteU8` | web/dhcp_server.c:173-179 | Writes a one-byte option and touches no other byte |
| `DhcpOptions.WriteU32` | web/dhcp_server.c:181-190 | Writes a word most significant byte first and touches no other byte |
| `DhcpOptions.BigEndian` | web/dhcp_server.c:185-188 | The four bytes are the digits of the word in base 256 |
| `DhcpOptions.ReadCanBeWritten` | web/dhcp_server.c:148-190 | Whatever bytes the options are read from, the options that were read can be written, and read back the same |
| `DhcpOptions.ReadOfEncoded` | web/dhcp_server.c:148-190 | Options that were written, with anything behind the end mark, read back as the same list |
| `DhcpOptions.ReadRules` | web/dhcp_server.c:148-163 | 0 is a pad, 255 ends the list, any other code is followed by a length and as many bytes, and a cut option ends the list |
| `DhcpLeases.ExpiryIsExact` | web/dhcp_server.c:241-246 | For every grant time and every age, across every wrap: a lease counts as expired exactly when the time that is left, with a slack below 65536 ms, is at least half a wrap modulo 2^32 |
| `DhcpLeases.ExpiryWindows` | web/dhcp_server.c:241-246 | So it counts as expired exactly in the half wrap behind its end, and again in that half of every later wrap |
| `DhcpLeases.ExpiryBounds` | web/dhcp_server.c:294 | Live for every age up to the lease time, expired for every age from 65536 ms past it to half a wrap past it |
| `DhcpLeases.ExpiryComesBack` | web/dhcp_server.c:241-246 | In the other half of every wrap a stale expiry looks live again |
| `DhcpLeases.RefusesWhenFull` | web/dhcp_server.c:229-252 | A DISCOVER is turned away exactly when every slot is leased to another client and live when looked at |
| `DhcpLeases.OfferedSlot` | web/dhcp_server.c:229-252 | The client's first own slot is offered, else the first that is free or expired when looked at |
| `DhcpLeases.DiscoverClearsExpired` | web/dhcp_server.c:241-246 | A DISCOVER changes at most one slot, which is expired, not the client's own, and free afterwards |
| `DhcpLeases.LeasesAreExclusive` | web/dhcp_server.c:226-295 | From any table: once a slot is granted to a real hardware address, no messages make the server grant it to another within the lease time |
| `DhcpLeases.OfferIsHonoured` | web/dhcp_server.c:226-295 | An offered slot is granted on request, after any messages that do not grant it to somebody else |
| `DhcpWire.ReplyReads` | web/dhcp_server.c:326-336 | A client reads in a reply the opcode 2, its own transaction and hardware address, the address 16 plus the slot in the server's network, and the six options with their codes and the lease of 86400 seconds |
| `DhcpWire.OfferIsFound` | web/dhcp_server.c:227-259 | An OFFER of an address goes to a client exactly when the packet is its DISCOVER and the slot of that address is the one found for it |
| `DhcpWire.AckIsGrant` | web/dhcp_server.c:261-320 | An ACK of an address goes to a client exactly when the packet is its REQUEST for that address and the slot is its own or nobody's |
| `DhcpWire.AddressesAreExclusive` | web/dhcp_server.c:192-343 | Over packets of any content: after an ACK of an address, no packets bring an ACK of it to another client for 86400 seconds |
| `DhcpWire.OfferIsHonoured` | web/dhcp_server.c:192-343 | A client that requests the address it reads in its OFFER gets an ACK of it, after any packets that bring none to another client |
| `DhcpServer.SlotOf` | web/dhcp_server.c:268-283 | An address names a slot exactly when it is that slot's address |
| `DhcpServer.Server.FindSlot` | web/dhcp_server.c:228-252 | The scan offers the client's own slot, else the first reusable one, and clears a reusable slot that it passes, as the specification says |
| `DhcpServer.Server.Grant` | web/dhcp_server.c:284-294 | Takes or renews a slot of the client's or of nobody's, with its truncated expiry, or refuses |
| `DhcpServer.Server.Finish` | web/dhcp_server.c:313-336 | The reply is the header and the encoded options, padded to 300 bytes |
| `DhcpServer.Server.ReadSlot` | web/dhcp_server.c:263-283 | The requested address, from the option or the client's own, names the slot or is refused |
| `DhcpServer.Server.Process` | web/dhcp_server.c:192-343 | One packet changes the leases as its message says, gives the specified answer, and counts modulo 2^32 |
| `LogRing.Ring.Printf` | usb/usb_serial.c:19-46 | The ring stands for the waiting bytes; a message is appended whole, cut at 127 bytes, or dropped whole and remembered as lost |
| `LogRing.Ring.Write` | usb/usb_serial.c:54-67 | Hands over the oldest bytes up to the end of the array and removes exactly those |
| `LogRing.Ring.Task` | usb/usb_serial.c:48-75 | For any answers of the endpoint: what it took is a prefix of what waited, the rest waits, a loss is reported when there is room, and the loop stops early only when the endpoint takes nothing |
| `LogRing.LogIsFifo` | usb/usb_serial.c:19-75 | On every run, what the endpoint took followed by what waits is the accepted messages in order, whole up to 127 bytes when they fit 8192, and nothing taken changes |
| `LogRing.LossIsRecorded` | usb/usb_serial.c:35-74 | A loss is recorded exactly when a message of a connected host does not fit, and taken off the record exactly by a turn that leaves room for the report |
| `LogRing.LossIsReported` | usb/usb_serial.c:71-74 | A lost message stays on record until one turn takes it off, and that very turn puts the report in the log unless the host leaves in the middle of it |
| `LogRing.ReportFits` | usb/usb_serial.c:71-74 | The report of a loss always has room when it is due, and is never cut |
| `Json.ParseIsInverseOfPrint` | web/control_json.c:31-124 | Every value parses back from its compact text, by a parser that knows nothing of the printer; escapes as in section 7 of RFC 8259 |
| `Json.Spelling` | web/control_json.c:65-114 | How literals, lists and objects are spelled |
| `Json.Escaping` | web/control_json.c:31-44 | How quotes, backslashes and control characters are escaped, and that nothing else is |
| `JsonWriter.Writer.Append` | web/control_json.c:15-29 | The bounded print keeps the buffer holding all of the text asked for, or as much as fits, with a terminator |
| `JsonWriter.Writer.AppendString` | web/control_json.c:31-44 | Appends the quoted and escaped string up to its terminator |
| `JsonWriter.Writer.AppendAddress` | web/control_json.c:46-50 | Appends the address as a JSON string of six upper-case pairs |
| `JsonWriter.Writer.AppendDevice` | web/control_json.c:87-113 | Appends the JSON text of one device's value, with a comma unless it is the first |
| `JsonWriter.Writer.AppendDevices` | web/control_json.c:82-114 | Appends the list of at most 16 devices |
| `JsonWriter.WriteSnapshot` | web/control_json.c:52-124 | Succeeds exactly when the text is shorter than the buffer; then the buffer holds the text and a terminator, else the longest prefix and a terminator |
| `JsonBound.SnapshotFits` | web/control_json.h:9-11 | Every snapshot's text is shorter than 14336 bytes, whatever its strings hold |
| `ControlJson.ClientReadsSnapshot` | web/control_json.c:52-124 | Parsing the text recovers every field of the snapshot |
| `ControlJson.StatusReads` | web/control_json.c:65-114 | The JSON value determines the status: reading it gives the status back |
| `ControlJson.DeviceIsDescribed` | web/control_json.c:87-113 | Which key carries which field of a device, in order, and no other key |
| `ControlJson.StatusIsDescribed` | web/control_json.c:65-114 | The same for the status and its list of devices |
| `ControlJson.AddressIsHex` | web/control_json.c:46-50 | An address is six pairs of upper-case hexadecimal digits between colons |
| `ControlSnapshot.SnapshotIsFaithful` | bt/bluetooth.c:1063-1113 | The snapshot is well formed, and each of its fields is the field of the state or of the table's record, with bounded copies of the strings |
| `ControlSnapshot.NamesDiffer` | bt/bt_state.c:3-20 | Different states have different names |
| `ControlSnapshot.ClientSeesRun` | bt/bluetooth.c:1063-1113 | After every run under the contract, the snapshot's text fits, and a client that parses it finds under each literal key the field of the state or of the table's record, and connected exactly for the live link's device |

## Left out

- BTstack, TinyUSB, lwIP and CYW43: each call is a status chosen by the environment, under the contract above.
- Link-key storage, the persistent store and the PIN display: only the selected keyboard, its flag, whether a device is bonded, and the commands that store or erase them are kept.
- Bluetooth.App.Handle: the stack's debts are those of the link that the module has, so a link that it lost sight of does not end them; the branch of service discovery for zero channel numbers after the fallback cannot be reached and has no counterpart; a request for a send slot is kept as a flag and not as a command.
- ConnectionRuns.ConnectedSawAll: says what the link has seen, not that both channels are still open, because a channel may close before the disconnection is reported.
- DhcpLeases.LeasesAreExclusive: does not say that a client holds one slot only, because the code grants a client several free ones.
- DhcpServer.Server.Process: the host name option is read only for a log line and is not modelled.
- ControlSnapshot.SnapshotIsFaithful: the snapshot is built as a value, so the order in which the fields of the struct are filled is not captured.
- JsonWriter.WriteSnapshot: null pointers are not modelled; a buffer of no bytes is.
- Json.ParseIsInverseOfPrint: the parser accepts the compact subset of JSON without white space, fractions and exponents, which is all that the writer emits.
- LogRing.Ring.Printf: the text is the bytes that formatting produced; the formats themselves are not modelled.
- HidDescriptor.DescriptorParser.Parse: depth counters are unbounded, so wrap-around after 2^32 open collections is not modelled; an item value is the little-endian sum of its bytes, which equals the shifts and ors of the source.
- The HTTP server, the control request queue, the command parser, the web page, USB descriptors and the keyboard demo: input and output or easy bookkeeping.
- The wording of log messages and the timer's period.
