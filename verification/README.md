# Foxtrot in Dafny

Foxtrot is a device server. This project models the parts of it that do more than pass bytes
along, and proves what they promise. `dafny verify dfyconfig.toml` checks all of it.

| part | files |
|---|---|
| Typed wire translation: C++ values, protobuf messages and Python values | `WireTypes`, `ServerEncode`, `ClientDecode`, `ServerToClient`, `ClientEncode`, `ServerDecode`, `ClientToServer`, `RoundTrips`, with `Bytes` and `Floats` |
| Archon configuration store: command layer, index, timing scripts, parameter table, module settings, buffer readback | `ArchonLink`, `ArchonStore`, `ArchonRuns`, `ArchonFaults`, `ArchonScript`, `ArchonParams`, `ArchonParamRuns`, `ArchonParamSlots`, `ArchonParamCases`, `ArchonParamTable`, `ArchonModules`, `ArchonReadback`; as objects `ArchonHandle`, `ArchonModuleObjects` |
| Autofill controller | `Autofill`, `AutofillSafety` |
| Chunked stream | `FetchData` |
| Thorlabs APT framing and motor wait loop | `AptFraming`, `AptWait`; as objects `AptMotor` |
| Pfeiffer telegrams | `Pfeiffer` |
| Shared: errors, numbers as text | `Results`, `Text` |

The objects of the source are classes here, with its fields; each method is tied by its `ensures`
to a function of the old state (`(State(), r) == Store.WriteKeyValue(old(State()), key, val)`), and
what the source promises is proved about that function, over whole runs where it is about runs. An
exception is an `Err`.

## What the code does not keep

Where the code falls short of what one would expect of it, the exact condition is proved.

- An array of `short` travels under the tag of `unsigned short`: it arrives exactly when no number
  is negative. Arrays of 64-bit integers have no unpack case. Enumerators outside `uint32` are not
  carried. A struct or an enum that is an item of an array is encoded by asking the item's reference
  wrapper for its properties, so that the client sees an empty dictionary; a union there cannot be
  encoded (`ServerToClient.ClientSeesMeaning`, `ItemIsSeen`).
- Unregistered enumerators, infinite floats and signalling NaNs do not come back
  (`RoundTrips.CppRoundTrip`), and a string's size field is 32 in a message but 0 in the description
  of its type (`RoundTrips.SizesAgreeButForStrings`).
- A `clear_config` that fails after the controller has acted leaves keys mapped to empty lines
  (`ArchonFaults.ClearUnderFaults`).
- `setParam` records a new name before PARAMETERS counts it. If that request is lost or the store is
  full, the next name is recorded at the same slot, and `getParam` of the one returns the value of
  the other (`ArchonParamCases.AnotherNamesValue`); names share a slot exactly when a name was
  recorded after one whose count did not arrive (`ArchonParamSlots.NamesShareSlots`). While new names
  report success, or while no exchange fails, the table is what its callers count on
  (`ArchonParamTable.LastSetComesBack`, `GetAnswersLastSet`). In a full store all new names are
  recorded at one slot that is never written (`ArchonParamCases.FullStore`). A name too long for its
  line is recorded and counted without a slot (`ArchonParamCases.LongNameIsCounted`).
- A tick may start a second fill before the launched thread has set `fill_in_progress` or between
  the thread's last two assignments, and a fill that ends within a tick is forgotten. Each of the
  three is a run with exactly one step off the tick interval (`AutofillSafety.TickBeforeThreadRuns`,
  `TickBetweenLastAssignments`, `FillEndsWithinTick`); without such steps the controller is safe, and
  with one of them it is exactly when no fill is launched on account of it before the last one is
  over and cleared (`AutofillSafety.OneUntimelyStepIsSafe`). In the first of the three two fills overlap, and fill_in_progress, fillactive and the relay then
  cease to tell whether one is running (`AutofillSafety.AgreementEnds`).
- A stream of no bytes, of 4 GiB and more, or of an element type other than unsigned char, short,
  unsigned, int or double does not reach the client as sent (`FetchData.ClientGetsTheArray`).
- An APT packet whose length has a low byte of 128 or more is misread unless the high byte is 255, and
  so is one of 65536 bytes or more (`AptFraming.FrameIsReceived`, `UnframedIsMisread`).
- The Pfeiffer checksum is accumulated through a signed `char` and may come out negative: the driver
  then refuses a correct telegram (`Pfeiffer.GenuineIsAccepted`), and it does not understand its own
  telegram when the checksum is -100 or less, as for data ending in a newline
  (`Pfeiffer.RoundTrip`, `NewlineIsLost`).

## Assumptions

- The platform is 64-bit Linux on x86: `char` is signed, `sizeof(std::string)` is 32, memory is
  little-endian.
- `rttr`: `convert` between a wire field and a type of its own kind succeeds exactly when the number
  fits; for a `float` that is when its magnitude is at most the greatest finite float, or when it is
  a NaN, so that infinities are refused. The conversion rounds to nearest, ties to even. Property and
  enumerator names are unique within their type.
- `rttr` wrappers: the type of a wrapped item shows neither properties nor methods nor enumerators of
  the wrapped type, which is why the source unwraps simple values and tuples itself; conversions to
  numbers look through the wrapper.
- Strings are valid UTF-8. A conversion between the float widths makes a signalling NaN quiet.
- The Archon controller keeps 2048 lines, acts on WCONFIG, RCONFIG and CLEARCONFIG, and echoes the
  sequence number; the link may lose a request or a reply or deliver another text.
- Autofill: one thread action, and each half of a tick, is one step; server calls succeed. Assigning
  the future of a new fill waits for the thread of the future it replaces, as futures of
  `std::async` do.
- APT: a line read either gets all its bytes in time or fails.

## Model

| member | source | states |
|---|---|---|
| ServerToClient.ClientSeesMeaning | core/src/typeUtil.cpp:370-621 | For every device value, nested to any depth: the client decodes the server's message to the value's meaning if and only if the value is carried (no enumerator outside uint32, no array of arrays or of 64-bit integers, no negative short in an array, and neither a struct with fields nor a union as an item of an array) |
| ServerToClient.PackedArray | core/src/typeUtil.cpp:445-477 | A packed array of numbers arrives as the tuple of its items, little-endian two's complement and both float widths, exactly when it is carried |
| ServerToClient.PackedItems | python/pyfoxtrot/TypeConversion.py:168-179 | Unpacking the packed bytes never fails for a supported tag, and yields the items exactly when each is readable under the tag |
| ServerToClient.UnpackOfPack | python/pyfoxtrot/TypeConversion.py:14-33 | The format built from tag and length reads back as many items as were packed, each at its place |
| ServerToClient.ItemOfImage | core/src/typeUtil.cpp:27-38 | One number, read back with the tag of its element type: it keeps its value unless it is a negative short; the 64-bit tags have no reader |
| ServerToClient.StructFields | python/pyfoxtrot/TypeConversion.py:189-190 | A struct arrives as the dictionary of its fields' meanings exactly when every field is carried |
| ServerToClient.Elements | python/pyfoxtrot/TypeConversion.py:196-198 | A tuple arrives as the tuple of its elements' meanings exactly when every element is carried |
| ServerToClient.ItemIsSeen | core/src/typeUtil.cpp:491-495 | An item of a heavy array, which comes as a reference wrapper, arrives exactly when it is no struct with fields, no union and no array, and is carried itself |
| ServerToClient.Items | python/pyfoxtrot/TypeConversion.py:172-174 | A heavy array arrives as the list of its items' meanings exactly when every item is carried as an item |
| ServerEncode.GetVariantWireType | core/src/typeUtil.cpp:505-621 | The dispatch over the kinds of values, with and without unwrapping, yields the message whose reading ClientSeesMeaning and ItemIsSeen describe, and fails for enumerators outside uint32, arrays of arrays and unions inside arrays |
| ServerEncode.GetStructWireType | core/src/typeUtil.cpp:370-390 | The loop over the properties of the variant's own type encodes every one under its name, whatever their order; of a wrapper there are none |
| ServerEncode.GetTupleWireType | core/src/typeUtil.cpp:407-443 | The loop over the elements encodes them in order |
| ServerEncode.GetHeavyArray | core/src/typeUtil.cpp:485-501 | The heavy-array loop encodes the wrapped items in order; arrays of arrays are refused |
| ServerEncode.VariantToBytes | core/src/typeUtil.cpp:45-131 | The byte buffer holds the items' images one after another |
| ClientToServer.ServerReceivesDenoted | core/src/typeUtil.cpp:624-839 | For every Python value and every type of simple types, enums, structs and tuples: what denotes nothing at the type is refused, and what denotes a value is received as that value if and only if the value is carried; names stand for enumerators, numbers must fit, a number for a float stands for the nearest float, extra keys are dropped |
| ServerDecode.DecodesWhatIsSpelt | core/src/typeUtil.cpp:624-763 | Whatever message arrives, well-formed or not: it is decoded to a value if and only if the value has the type wanted and the message spells it, with all the fields of a struct, a tuple's elements in order, registered enumerators and numbers in range |
| ClientToServer.FloatIsRounded | core/src/typeUtil.cpp:752-761 | For a float argument every number up to the greatest finite float is received as the nearest float with its sign, NaNs as NaNs, and larger numbers and infinities are refused |
| ClientToServer.StructReceived | core/src/typeUtil.cpp:684-719 | A struct is received exactly when every described field is, and field by field |
| ClientToServer.TupleReceived | core/src/typeUtil.cpp:647-682 | For a list and for a tuple alike, a tuple argument is received exactly when the lengths agree and every item is received at its place, and item i is received from item i; for a string from its characters, and from nothing else |
| ClientToServer.EnumAgrees | python/pyfoxtrot/TypeConversion.py:121-136 | An enum argument, by name or number, is received as the enumerator it denotes, or refused |
| ClientToServer.SimpleAgrees | python/pyfoxtrot/TypeConversion.py:62-89 | A simple argument is received as the number, float, flag or text it denotes, or refused |
| ClientEncode.FtVariantFromValue | python/pyfoxtrot/TypeConversion.py:36-51 | The dispatch over the descriptor builds a message that conforms to it, or raises for a value of another shape |
| ClientEncode.FtTupleFromValue | python/pyfoxtrot/TypeConversion.py:91-102 | The loop appends the encoded elements in order after the length check; which elements a value has is stated by TupleReceived |
| ClientEncode.FtStructFromValue | python/pyfoxtrot/TypeConversion.py:106-119 | The loop over the described fields stores each under its name, and fails on a missing key |
| RoundTrips.CppRoundTrip | core/src/typeUtil.cpp:647-839 | wire_type_to_variant undoes get_variant_wire_type if and only if the value holds no void, only registered enumerators within uint32, and no float that is infinite or a signalling NaN |
| RoundTrips.StructThroughCpp | core/src/typeUtil.cpp:684-719 | A struct goes through the wire exactly when its fields do, and field by field |
| RoundTrips.TupleThroughCpp | core/src/typeUtil.cpp:407-443 | A tuple goes through the wire exactly when its elements do, and element by element |
| RoundTrips.MeaningDenotes | python/pyfoxtrot/TypeConversion.py:152-198 | What the client reads denotes the value again at the value's own type, exactly when the value is returnable |
| RoundTrips.EchoIsIdentity | python/pyfoxtrot/TypeConversion.py:36-198 | A value handed to the client and passed back unchanged arrives as the same value, exactly for the carried values without void, unregistered enumerators, infinite floats and signalling NaNs |
| RoundTrips.ServerMessagesConform | core/src/typeUtil.cpp:888-978 | A message the server builds has the shape, the fields, the 64-bit ranges and the enumerators that the description of the value's type announces if and only if every enum number in it is an enumerator, or is 0 while the description shows 0 for an enumerator outside uint32 |
| RoundTrips.ClientMessagesConform | python/pyfoxtrot/TypeConversion.py:36-136 | So has every message the client builds from a description |
| RoundTrips.SizesAgreeButForStrings | core/src/typeUtil.cpp:1081-1122 | A message's size field is the number of bytes of its type, and equals the described size for all simple values but strings, where it is 32 and 0 is described |
| Floats.WidenIsExact | core/src/typeUtil.cpp:296-302 | Sending a float as a double changes neither value nor sign, subnormals included |
| Floats.NarrowIsNearest | core/src/typeUtil.cpp:752-761 | A double in range becomes a float of its sign to which no other finite float is nearer, and of two equally near ones the even one |
| Floats.NarrowOfWiden | core/src/typeUtil.cpp:721-763 | A float sent as a double and narrowed again is the same bit pattern if and only if it is no infinity and no signalling NaN; infinities are refused |
| WireTypes.RangesFillWidths | core/src/typeUtil.cpp:27-38 | Every integral type ranges over all of its 1, 2, 4 or 8 bytes, in two's complement if it is signed |
| Bytes.FromLEOfToLE | core/src/typeUtil.cpp:119-120 | A number that fits w bytes survives its little-endian image |
| Bytes.SlotOfPack | core/src/typeUtil.cpp:119-120 | The k-th slot of a packed array is the image of the k-th number |
| ArchonLink.StaleReplies | devices/archon/archon.cpp:144-196 | Over every run, the reply to command i passes for the reply to command j if and only if they are a multiple of 254 apart: replies to the previous 253 commands are rejected |
| ArchonLink.NumbersRepeat | devices/archon/archon.cpp:147-155 | Two commands of a run carry the same number exactly when they are a multiple of 254 apart |
| ArchonLink.NumbersWrap | devices/archon/archon.cpp:147-155 | The number of the n-th command is the first one plus n modulo 254, always below 0xFE |
| ArchonLink.ReplyTo | devices/archon/archon.cpp:164-195 | A well-formed reply is accepted exactly for its own number, and its payload arrives less the characters that are not printable |
| ArchonLink.AcceptsExactly | devices/archon/archon.cpp:164-195 | Any text passes for the reply if and only if its printable part starts with '<' and its next two characters are there and read as the number sent; what follows them is returned; a text starting with '?' is a DeviceError, and any other a ProtocolError |
| ArchonLink.HexRoundTrip | devices/archon/archon.cpp:155 | The two-digit sequence number and the four-digit line number always parse back |
| ArchonStore.WriteRequest | devices/archon/archon.cpp:361-363 | What a WCONFIG request does to the controller's lines: the one line is replaced unless the request was lost |
| ArchonStore.ReadRequest | devices/archon/archon.cpp:377-381 | A RCONFIG request changes no line and yields the line less characters that are not printable |
| ArchonStore.OnlyOwnReplies | devices/archon/archon.cpp:144-196 | Whatever arrives for a request: the command succeeds exactly with a reply of its own number, and never with one by which the controller refuses it |
| ArchonRuns.StoreRefinesMap | devices/archon/archon.cpp:314-463 | Over every run of clear_config, writeKeyValue and readKeyValue with keys free of '=', handle and controller give exactly the replies of a plain map, full store and overlong lines included |
| ArchonRuns.ReadBack | devices/archon/archon.cpp:420-463 | A value written is read back as it was if and only if the key has no '=' and the value is printable, values containing '=' included |
| ArchonRuns.WriteIsPrivate | devices/archon/archon.cpp:444-463 | A write changes what its own key reads and nothing else |
| ArchonRuns.WriteStep | devices/archon/archon.cpp:338-368 | Whatever happens to the exchange, the index stays injective and every line owned by its key, and the map changes at most at the key, to the value; a refused write changes nothing |
| ArchonRuns.ReadStep | devices/archon/archon.cpp:420-442 | A read changes neither index nor map, and yields what follows the first '=' of the key's line |
| ArchonRuns.CalmWrite | devices/archon/archon.cpp:444-463 | While exchanges succeed, a write is the plain map's write, refusals included |
| ArchonRuns.CalmRead | devices/archon/archon.cpp:420-442 | While exchanges succeed, a read of a key without '=' is the plain map's read |
| ArchonRuns.CalmClear | devices/archon/archon.cpp:314-335 | clear_config leaves exactly the five counters, each "0", and an empty parameter table |
| ArchonFaults.FaultyRuns | devices/archon/archon.cpp:314-463 | Over every run of clears, writes and reads in which any exchange may fail before or after the controller acted, but for clears the controller takes up unheard: index injectivity and line ownership hold, each key holds the last value reported stored or one attempted since, and is registered exactly when a write was reported stored, unless a clear has failed since; a read whose exchange succeeds answers with such a value, cut at the first equals sign |
| ArchonFaults.ClearStep | devices/archon/archon.cpp:314-335 | A clear_config leaves the map as it was if its request was lost, and otherwise nothing but counters at "0" and no parameters; all five counters if it reports success, whatever has failed |
| ArchonFaults.ClearUnderFaults | devices/archon/archon.cpp:314-335 | clear_config keeps the invariant if and only if its command was accepted, or did not reach the controller, or nothing was registered |
| ArchonScript.ScriptReadsBack | devices/archon/archon.cpp:547-564 | After a load, LINES reads the number of lines and every LINEi its line, in order, whatever longer script was loaded before |
| ArchonScript.LoadSucceeds | devices/archon/archon.cpp:547-564 | A load succeeds if and only if the line keys fit beside the keys already there and every line fits in a request |
| ArchonScript.OtherKeysUntouched | devices/archon/archon.cpp:547-564 | Every key that is neither LINES nor a line of the script reads as before, whether or not the load succeeds |
| ArchonScript.LinesAreTheScript | devices/archon/archon.cpp:553 | The lines joined by newlines are the script, up to a missing last newline |
| ArchonScript.LoadRefinesMap | devices/archon/archon.cpp:547-564 | Loading lines does to the store what the same writes do to a plain map |
| Text.StoiOfDec | devices/archon/archon.cpp:501-507 | An int printed by std::to_string is read back by std::stoi |
| Text.StoulOfPrint | devices/archon/archon.cpp:702 | A number printed by a stream is read back by std::stoul |
| Text.StoulReads | devices/archon/archon.cpp:185 | std::stoul on any text that begins with a number: leading spaces, a sign and digits are read, the rest ignored; 2^64 and more is out of range, and a minus sign negates modulo 2^64 |
| Text.ReadsNumber | devices/archon/archon.cpp:501 | The same of the signed number that std::stoi starts from |
| Text.NothingIsRead | devices/archon/archon.cpp:501 | A text without digits in that place is refused |
| Text.PaddedNumber | devices/archon/archon.cpp:155 | A number that fits its field survives zero padding and re-reading |
| ArchonParamRuns.ParameterTable | devices/archon/archon.cpp:682-727 | From a clear_config the controller took up, over every run of setParam with any name without '=', getParam, further clears and accesses outside the table, whichever exchanges fail: a getParam whose exchange succeeds answers with the value last written to the slot its name is recorded at, through both '=' encodings, and fails if there is none |
| ArchonParamRuns.LastSetIsReturned | devices/archon/archon.cpp:682-727 | getParam returns the last value setParam reported as set, whatever was done to other names since, if and only if that is also the value last written to the slot; so always when no other name is recorded there |
| ArchonParamRuns.OwnValue | devices/archon/archon.cpp:682-704 | The same of the last value that reached the controller under the name, reported or not |
| ArchonParamSlots.NamesShareSlots | devices/archon/archon.cpp:707-718 | Over every run whose exchanges succeed or throw, from what can be told before each setParam: the table is a bijection onto 0..PARAMETERS-1 exactly while every new name whose number was read found a free line and had its PARAMETERS request reach the controller, and two names share a slot exactly when a name was recorded after one that had not |
| ArchonParamSlots.NewNameCounts | devices/archon/archon.cpp:713-718 | A new name is recorded exactly if the exchange that reads PARAMETERS succeeds with an int, at that number; it is counted exactly if the store has a free line and the request that writes PARAMETERS is not lost; and both have happened if setParam reports success |
| ArchonParamTable.LastSetComesBack | devices/archon/archon.cpp:682-727 | Over every run from clear_config whose exchanges succeed or throw and in which setParam of new names reports success: the table is a bijection onto 0..PARAMETERS-1, and a getParam whose exchange succeeds returns the last value reported set, or one that a later failing setParam of the name attempted, and fails exactly for names never set |
| ArchonParamTable.GetAnswersLastSet | devices/archon/archon.cpp:682-727 | Over every run from clear_config in which no exchange fails, overlong names and a full store included: every getParam returns the last value setParam reported as set, and fails for names without one; while the store has a free line, the table is a bijection onto 0..PARAMETERS-1 |
| ArchonParamTable.QuietNewName | devices/archon/archon.cpp:707-727 | What a setParam of a new name does when no exchange fails: nothing without a number; recorded only, in a full store; counted only, if its line does not fit; else counted and written |
| ArchonParamCases.SetSucceeds | devices/archon/archon.cpp:707-727 | While no exchange fails, setParam succeeds if and only if the store is not full, the slot number can be had and the name=value line fits in a request |
| ArchonParamCases.AnotherNamesValue | devices/archon/archon.cpp:713-727 | A run with one lost exchange, in a nearly empty store, after which getParam of one name returns the value of another |
| ArchonParamCases.SecondMayBeLost | devices/archon/archon.cpp:314-335 | Every successful clear_config leads to where that run starts, given that loss |
| ArchonParamCases.LongNameIsCounted | devices/archon/archon.cpp:713-726 | A name too long for its line is recorded and counted, and its slot is not written |
| ArchonParamCases.FullStore | devices/archon/archon.cpp:341-344 | A run that fills the store after clear_config; two names set after it are recorded at one slot that is never written |
| ArchonParams.SetStep | devices/archon/archon.cpp:707-727 | Whatever fails in it, setParam changes at most the slot of its name, and that to the value; if it reports success it has |
| ArchonParams.SetNew | devices/archon/archon.cpp:713-726 | What setParam does for a new name, exchange by exchange: recorded if the number was read, then counted or not, then written or not, and nothing else |
| ArchonParams.SetIsOnController | devices/archon/archon.cpp:720-726 | After a setParam that reports success, the key PARAMETERn of the number n recorded for the name holds name=value |
| ArchonParams.GetStep | devices/archon/archon.cpp:682-704 | getParam changes nothing and reads what was written last to the slot |
| ArchonParams.ParamLineReads | devices/archon/archon.cpp:696-702 | The stored name=value line reads as the value, with or without a quote after it, cut to an unsigned int |
| ArchonModules.SettingsAreIndependent | devices/archon/archon_module_generic_bias.cpp:18-103 | Setting any (module, bank, attribute, channel), GPIO or limit cell changes its own get and no other; a set that fails its checks changes nothing |
| ArchonModules.CellKeysDistinct | devices/archon/archon_modules.cpp:145-161 | Two existing cells have the same key if and only if they are the same cell |
| ArchonModules.BankKeysInText | devices/archon/archon_module_generic_bias.cpp:18-103 | The keys of bias settings and current limits, letter by letter |
| ArchonModules.PortKeysInText | devices/archon/archon_GPIO.cpp:59-97 | The keys of GPIO settings, letter by letter |
| ArchonModules.WhichExist | devices/archon/archon_module_hvxbias.cpp:32-34 | Which channels and pairs exist in which module |
| ArchonModules.SubKeyInjective | devices/archon/archon_GPIO.cpp:64-97 | Within one module, banks, limits and GPIO cells have distinct keys |
| ArchonModules.SettingsApartFromTheRest | devices/archon/archon_modules.cpp:145-161 | No cell shares a key with the timing script, the parameter table or the counters |
| ArchonModules.NumberReadsBack | devices/archon/archon_module_generic_bias.cpp:37-63 | An order, limit or flag reads back as the int that was set |
| ArchonModules.RangesAreChecked | devices/archon/archon_module_lvxbias.cpp:69-162 | In either bank, orders are stored exactly for existing channels and numbers from 0; limits exactly for existing channels and 0 to 500 mA |
| ArchonHandle.Handle.Cmd | devices/archon/archon.cpp:144-196 | The counter wraps at 0xFE and advances even if the exchange fails; the reply is returned only if it carries the request's number |
| ArchonHandle.Handle.WriteConfigLine | devices/archon/archon.cpp:338-368 | A full store, a long line or a line number that does not exist changes nothing; a new line is counted before its exchange; the one line of the controller is replaced |
| ArchonHandle.Handle.ReadConfigLine | devices/archon/archon.cpp:370-383 | Lines that do not exist yet are refused unless the caller overrides; no line changes |
| ArchonHandle.Handle.ReadKeyValue | devices/archon/archon.cpp:420-442 | Unregistered keys and lines without '=' fail; the rest of the key's line is returned |
| ArchonHandle.Handle.WriteKeyValue | devices/archon/archon.cpp:444-463 | A new key is registered only after its line was accepted; a known key keeps its line |
| ArchonHandle.Handle.ClearConfig | devices/archon/archon.cpp:314-335 | The host's tables are dropped only after the command was accepted, then the five counters are written in order until one fails |
| ArchonHandle.Handle.GetParameters | devices/archon/archon.cpp:499-503 | Reads the PARAMETERS counter as an int |
| ArchonHandle.Handle.SetParam | devices/archon/archon.cpp:707-727 | The name is recorded first, then counted, then its slot written; a failure leaves what came before it |
| ArchonHandle.Handle.GetParam | devices/archon/archon.cpp:682-704 | Unknown names fail without an exchange; a known one costs one read of its slot |
| ArchonHandle.Handle.LoadTimingScript | devices/archon/archon.cpp:547-564 | The getline loop writes the lines of the script in order, then their number, and stops at the first failure |
| ArchonModuleObjects.Module.ReadConfigKey | devices/archon/archon_modules.cpp:145-152 | Reads the key prefixed with the module's position |
| ArchonModuleObjects.Module.WriteConfigKey | devices/archon/archon_modules.cpp:154-161 | Writes the key prefixed with the module's position |
| ArchonModuleObjects.GenericBias.SetLabel | devices/archon/archon_module_generic_bias.cpp:18-25 | Sets the label cell of the bank's channel, or is refused |
| ArchonModuleObjects.GenericBias.SetOrder | devices/archon/archon_module_generic_bias.cpp:37-54 | Sets the order cell of the bank's channel, or is refused for the channel or a negative order |
| ArchonModuleObjects.GenericBias.GetOrder | devices/archon/archon_module_generic_bias.cpp:56-63 | Reads the order cell of the bank's channel |
| ArchonModuleObjects.GenericBias.SetEnable | devices/archon/archon_module_generic_bias.cpp:86-94 | Sets the enable cell of the bank's channel |
| ArchonModuleObjects.GenericBias.GetLabel | devices/archon/archon_module_generic_bias.cpp:27-35 | Reads the label cell of the bank's channel |
| ArchonModuleObjects.GenericBias.Reconfigure | devices/archon/archon_module_generic_bias.cpp:164-170 | Changes the bank's mnemonic and number of channels |
| ArchonModuleObjects.BiasModule.constructor | devices/archon/archon_module_xvbias.cpp:7-8 | The two banks of a module serve its kind, reconfigured for HVX and XV |
| ArchonModuleObjects.BiasModule.SetOrder | devices/archon/archon_module_lvxbias.cpp:69-80 | Dispatches to the bank asked for, so sets that bank's cell |
| ArchonModuleObjects.BiasModule.SetLimit | devices/archon/archon_module_lvxbias.cpp:138-160 | Sets the current-limit cell within the checked ranges |
| ArchonModuleObjects.BiasModule.GetLimit | devices/archon/archon_module_lvxbias.cpp:154-162 | Reads the current-limit cell of an existing channel |
| ArchonModuleObjects.BiasModule.SetLabel | devices/archon/archon_module_lvxbias.cpp:46-57 | Dispatches to the bank asked for |
| ArchonModuleObjects.BiasModule.GetLabel | devices/archon/archon_module_lvxbias.cpp:59-67 | Dispatches to the bank asked for |
| ArchonModuleObjects.SetHereReadThere | devices/archon/archon_modules.cpp:145-161 | What is set through one object of a module is read through another object of it that shares the handle |
| ArchonModuleObjects.SetHereElsewhereSame | devices/archon/archon_modules.cpp:145-161 | What is set through an object of one module leaves every label of another module sharing the handle as it was |
| ArchonModuleObjects.Gpio.SetDirection | devices/archon/archon_GPIO.cpp:64-82 | Sets the direction cell of the pair, or is refused |
| ArchonModuleObjects.Gpio.SetSource | devices/archon/archon_GPIO.cpp:91-97 | Sets the source cell of the channel |
| ArchonModuleObjects.Gpio.SetPower | devices/archon/archon_GPIO.cpp:59-62 | Sets the power cell |
| ArchonModuleObjects.Gpio.SetLabel | devices/archon/archon_GPIO.cpp:84-89 | Sets the label cell of the channel |
| ArchonReadback.FetchReturnsPixels | devices/archon/archon.cpp:1100-1144 | For every pixel count and both widths: a fetch from a complete buffer returns exactly the samples in order, dropping only padding, if each of the ceil(bytes/1024) blocks is found by one of its hundred polls, and else fails with a DeviceError |
| ArchonReadback.PollsAreBounded | devices/archon/archon.cpp:1055-1075 | Polling stops within blocks times retries, however the readback ends |
| ArchonReadback.BlocksAreLeast | devices/archon/archon.cpp:1123-1125 | A number of blocks covers the bytes if and only if it is at least the block count |
| ArchonReadback.BufferPort.ReadBackBuffer | devices/archon/archon.cpp:1055-1087 | The nested loops poll for each block up to `retries` times, leave at the first poll that finds it, and collect the samples of every block in order |
| ArchonReadback.ReadBackCollects | devices/archon/archon.cpp:1055-1087 | Reading blocks that carry some data collects exactly the data's samples if each block is found in time, and else fails |
| ArchonReadback.WaitFinds | devices/archon/archon.cpp:1058-1073 | Waiting ends with the first poll that finds a block, or after `retries` polls that found none |
| ArchonReadback.Payload | devices/archon/archon.cpp:231-260 | A block yields a payload exactly if it carries the two markers, and is then four header bytes with these markers and the 1024 bytes yielded; a block starting with '?' is a DeviceError, another a ProtocolError |
| AutofillSafety.AutofillIsSafe | lsst/autofilld/autofill_fill_logic.cpp:123-257 | Over every timely run of ticks, fill-thread actions and user actions in any interleaving, by the readings the ticks took: fills do not overlap, between two fills lies a dewar_filled or a completed fill after which a tick read a temperature not above the empty limit, between dewar_empty and the next dewar_filled neither a fill nor another dewar_empty falls, and every fill was caused by a tick that read a pressure below its limit and a temperature above the empty limit, with autofill enabled |
| AutofillSafety.OneUntimelyStepIsSafe | lsst/autofilld/autofill_fill_logic.cpp:123-257 | For every timely run and one untimely step after it: all timely continuations are safe if and only if the step is a tick that launches no fill, or launches it while the last thread has only fill_just_done left to set and its fill is cleared by then, or is the end of a fill within a tick that finds it cleared or the dewar known empty |
| AutofillSafety.RunAgrees | lsst/autofilld/autofill_fill_logic.cpp:123-257 | At every step of every run, timely or not, in which no tick launches a fill before the last one's thread has begun: fill_in_progress and the fillactive flag follow the fill threads, the relay is on only while a fill that is no dry run pours, and dewarfull once written is the opposite of dewar_empty |
| AutofillSafety.AgreementEnds | lsst/autofilld/autofill_fill_logic.cpp:132-155 | A tick is the end of that agreement if and only if it launches a fill before the last one's thread has begun: then, and only then, the run can go on until fill_in_progress is false in the middle of a fill |
| AutofillSafety.TrackedHolds | lsst/autofilld/autofill_fill_logic.cpp:157-257 | The facts tracked event by event hold of the whole history |
| AutofillSafety.TickBodyRemembers | lsst/autofilld/autofill_fill_logic.cpp:157-239 | A timely tick keeps what the controller's fields remember of the history |
| AutofillSafety.ThreadRemembers | lsst/autofilld/autofill_fill_logic.cpp:132-148 | So does every timely action of the fill thread |
| AutofillSafety.FillsAreApart | lsst/autofilld/autofill_fill_logic.cpp:187-239 | In a safe history no fill begins before the last one completed and was cleared |
| AutofillSafety.EmptiesAreApart | lsst/autofilld/autofill_fill_logic.cpp:199-213 | In a safe history neither a fill nor a dewar_empty lies between dewar_empty and dewar_filled, and the tank is reported empty once per fill |
| AutofillSafety.FillsAreCaused | lsst/autofilld/autofill_fill_logic.cpp:225-231 | In a safe history every fill belongs to a tick that read a pressure below the limit and a temperature above the empty limit, with autofill enabled |
| AutofillSafety.TickReports | lsst/autofilld/autofill_fill_logic.cpp:159-222 | After every tick the pumpdown flag is whether the pressure read is below its limit, and the tank flag whether the temperature read is not above the empty limit |
| AutofillSafety.TickLaunches | lsst/autofilld/autofill_fill_logic.cpp:225-231 | A tick launches a fill if and only if the pressure read is below its limit and the temperature above the empty limit, no fill is in progress or just done, the dewar was not found empty or has been refilled since, and autofill is enabled |
| AutofillSafety.TickBeforeThreadRuns | lsst/autofilld/autofill_fill_logic.cpp:132-155 | For every configuration there is a run whose one untimely step is a tick between launch and fill_in_progress = true, and which starts a second fill beside the first |
| AutofillSafety.TickBetweenLastAssignments | lsst/autofilld/autofill_fill_logic.cpp:145-146 | The same for a tick between the thread's last two assignments |
| AutofillSafety.FillEndsWithinTick | lsst/autofilld/autofill_fill_logic.cpp:241 | The same for a fill whose fill_just_done a running tick overwrites |
| Autofill.AutofillLogic.BeginTick | lsst/autofilld/autofill_fill_logic.cpp:157-239 | The tick, up to where it forgets a finished fill: vacuum, dewar, tank and the decision about a fill, each seeing what those before it have changed; TickReports and TickLaunches say what that comes to for its readings |
| Autofill.AutofillLogic.HandleDewarFilled | lsst/autofilld/autofill_fill_logic.cpp:176-185 | A dewar_filled flag that is set is taken back, the dewar counts as full and the event is logged; else the flag exists afterwards as it was, or as false |
| Autofill.AutofillLogic.HandleWarmTank | lsst/autofilld/autofill_fill_logic.cpp:187-217 | The empty tank is logged once per fill; a tank that is warm just after a fill means an empty dewar, logged once; a fill is needed only without one in progress or just done |
| Autofill.AutofillLogic.StartFillIfNeeded | lsst/autofilld/autofill_fill_logic.cpp:225-235 | Launches a fill exactly when needed, pumped down, not just done, dewar not empty and autofill enabled |
| Autofill.AutofillLogic.ContinueFill | lsst/autofilld/autofill_fill_logic.cpp:132-148 | The last fill's thread does its next action: flag, relay on, relay off, event, flag cleared, fill_in_progress cleared, fill_just_done set |
| Autofill.AutofillLogic.ContinueOlderFill | lsst/autofilld/autofill_fill_logic.cpp:132-153 | So does the thread of a fill that was replaced, while the tick waits for it |
| Autofill.AutofillLogic.WasDewarFilled | lsst/autofilld/autofill_fill_logic.cpp:259-273 | Reads the flag, creating it as false if the server lacks it |
| Autofill.AutofillLogic.IsAutofillEnabled | lsst/autofilld/autofill_fill_logic.cpp:281-294 | Reads the flag, creating it as false if the server lacks it |
| Autofill.AutofillLogic.ObserveVacuum | lsst/autofilld/autofill_fill_logic.cpp:159-171 | Sets the pumpdown flag to whether the pressure read is below its limit, and notes the readings |
| Autofill.AutofillLogic.CheckTankTemperature | lsst/autofilld/autofill_fill_logic.cpp:187-222 | A full tank only sets tank_full; a warm one is handled as above |
| Autofill.AutofillLogic.FillTank | lsst/autofilld/autofill_fill_logic.cpp:123-155 | Logs the fill, sets fillactive and launches the thread; a thread still alive runs on beside it |
| Autofill.AutofillLogic.EndTick | lsst/autofilld/autofill_fill_logic.cpp:241 | The tick forgets a finished fill, once no replaced thread is alive |
| FetchData.ClientGetsTheArray | python/pyfoxtrot/Client.py:264-285 | End to end, for every chunk size: the client gets the original list if and only if the array is not empty, is below 4 GiB, has elements of type unsigned char, unsigned short, short, unsigned, int or double, and holds no negative short |
| FetchData.RequestIsServed | server/src/FetchDataImpl.cpp:82-148 | Serving a request takes ceil(n/c) writes, all full but a shorter last one, then one finish; the chunks make up the buffer and the handler is ready again |
| FetchData.ServeFrom | server/src/FetchDataImpl.cpp:100-148 | From any chunk on, serving goes on to exactly the remaining chunks and one finish |
| FetchData.GlueOfChunks | python/pyfoxtrot/Client.py:267-270 | The first k chunks glued are the buffer up to where chunk k starts |
| FetchData.ShortView | server/src/ServerUtil.cpp:81-87 | A view cut off by the 32-bit size does not unpack to the whole list |
| FetchData.FetchDataLogic.InitialRequest | server/src/FetchDataImpl.cpp:82-93 | Sets up quotient, remainder, chunk size and read position for the buffer; nothing is written |
| FetchData.FetchDataLogic.HandleRequest | server/src/FetchDataImpl.cpp:100-148 | One call writes the next full chunk, or the remaining bytes once, or finishes and resets the counter |
| FetchData.ProcessSyncResponse | python/pyfoxtrot/Client.py:264-285 | The loop glues the chunks in order; without a chunk or with another tag there is an exception, else the unpacked list |
| AptFraming.FrameIsReceived | devices/Thorlabs_APT/APT.cpp:673-755 | A message is received as it was sent, with nothing lost of what follows, if and only if its length is below 65536 and its low length byte below 128 or its high one 255 |
| AptFraming.StreamIsReceived | devices/Thorlabs_APT/APT.cpp:673-755 | A stream of messages is received message by message as it was sent if and only if every message of it is framed so |
| AptFraming.UnframedIsMisread | devices/Thorlabs_APT/APT.cpp:736-744 | A packet framed otherwise, alone on the line: below 65536 bytes the receiver waits for data never sent; from there on it takes the packet's beginning for all of it |
| AptFraming.OthersAreRefused | devices/Thorlabs_APT/APT.cpp:710-730 | A message of any other source than the expected one is refused with a DeviceError, and all that has arrived is flushed |
| AptFraming.AddressesDiffer | devices/Thorlabs_APT/APT_defs.hh:9-17 | Different destinations have different addresses, none of them null or of eight bits |
| AptFraming.AddressBytes | devices/Thorlabs_APT/APT_defs.hh:9-17 | The addresses are the protocol's |
| AptFraming.HeaderOf | devices/Thorlabs_APT/APT.h:240-255 | The header's opcode, parameters or length bytes, and addresses are where the receiver looks for them |
| AptWait.HowMovesEnd | devices/Thorlabs_APT/APT.cpp:384-461 | For every input, by opcode and status number of its messages: normal return if and only if the completion message follows only statuses that pass, at most the tolerated number of failing ones from a homing motor and at most one limit status if the move began at one; the emergency stop is sent if and only if one more such status of a homing motor comes; while all pass, the wait times out |
| AptWait.ClassifyIsMeant | devices/Thorlabs_APT/APT.cpp:407-455 | The loop's bit tests sort every reply by its opcode and, for a status, by the number b in its last four bytes: it passes if b % 16 is 0 and b / 16 % 16 is not; else it is of a homing motor if bit 9 is set, whatever the limit switches say; else at a limit if b % 16 is not 0; else stalled |
| AptWait.WaitIsDecision | devices/Thorlabs_APT/APT.cpp:402-459 | The loop's outcome is decided by the first message that does not pass, whatever follows it |
| AptWait.FirstToFailIsFirst | devices/Thorlabs_APT/APT.cpp:402-459 | The messages up to that one, and no more, pass by counting |
| AptWait.EndsOnce | devices/Thorlabs_APT/APT.cpp:402-459 | There is only one message at which a wait can end |
| AptWait.StatusBitsMean | devices/Thorlabs_APT/APT.cpp:137-149 | A status passes exactly when its lowest four bits are clear and one of the next four is set; homing is bit 9 |
| AptMotor.Apt.WaitBlockingMove | devices/Thorlabs_APT/APT.cpp:384-461 | On every way out the update messages were started once and stopped once, around at most one immediate stop, sent exactly when HowMovesEnd says |
| AptMotor.MessageBytes | devices/Thorlabs_APT/APT.cpp:186-195 | The messages that start and stop the updates and stop a move, byte by byte |
| AptMotor.Apt.Follow | devices/Thorlabs_APT/APT.cpp:402-460 | The loop with its retry counter and limit flag has the outcome, the stop and the input left of the wait that HowMovesEnd describes |
| AptMotor.Apt.ReceiveSync | devices/Thorlabs_APT/APT.cpp:673-755 | Reads the header, flushes and fails on a null destination or another source, and reads the data the header announces; result and bytes left are those of the framing rows |
| AptMotor.Apt.Transmit | devices/Thorlabs_APT/APT.h:240-255 | Appends the message's frame to what was sent |
| AptMotor.Apt.ReadDefinite | devices/Thorlabs_APT/APT.cpp:684 | Takes exactly the bytes asked for, or times out and loses those that came |
| AptMotor.UpdateGuard.constructor | devices/Thorlabs_APT/APT.cpp:57-64 | Starts the update messages if asked to |
| AptMotor.UpdateGuard.Start | devices/Thorlabs_APT/APT.cpp:66-72 | Starts the update messages and remembers it |
| AptMotor.UpdateGuard.Release | devices/Thorlabs_APT/APT.cpp:74-86 | Stops the update messages exactly if they were started |
| Pfeiffer.RoundTrip | devices/Pfeiffer/Pfeiffer.cpp:69-95 | Interpreting a built telegram gives back address, parameter and data if and only if the first two are below 1000, the data shorter than 100 and the checksum above -100 |
| Pfeiffer.TextRoundTrip | devices/Pfeiffer/Pfeiffer.cpp:121-143 | For data that do not end in a control character the fields alone decide |
| Pfeiffer.NewlineIsLost | devices/Pfeiffer/Pfeiffer.cpp:121-143 | A telegram whose data end in a newline and which its own driver refuses |
| Pfeiffer.OneErrorIsDetected | devices/Pfeiffer/Pfeiffer.cpp:121-133 | In any accepted telegram of any length, replacing one character before the checksum by another makes the driver refuse it |
| Pfeiffer.GenuineReportIsRead | devices/Pfeiffer/Pfeiffer.h:121-130 | A gauge's report is read if and only if it fits, is none of the three error reports and its checksum does not come out negative |
| Pfeiffer.OnlyTheAnswer | devices/Pfeiffer/Pfeiffer.cpp:97-118 | For every reply: it is taken as the answer if and only if it reads as data of the address and the parameter asked for, and is none of the three error reports |
| Pfeiffer.OthersAreRefused | devices/Pfeiffer/Pfeiffer.cpp:97-106 | A report of another address or about another parameter is always refused |
| Pfeiffer.ActionInText | devices/Pfeiffer/Pfeiffer.h:25-29 | The telegram's action digits are 00 to ask and 10 to tell |
| Pfeiffer.GenuineIsAccepted | devices/Pfeiffer/Pfeiffer.cpp:121-133 | A telegram with the protocol's checksum passes the driver's comparison exactly when the driver's checksum is not negative |
| Pfeiffer.ChecksumIsSum | devices/Pfeiffer/Pfeiffer.cpp:56-67 | The accumulated checksum is the sum of the characters modulo 256 |
| Pfeiffer.WhenGenuine | devices/Pfeiffer/Pfeiffer.cpp:56-67 | For 7-bit text it is the protocol's checksum if and only if the sum before the last character is below 128 modulo 256 or the last character carries it over 255 |
| Pfeiffer.FieldsOfBody | devices/Pfeiffer/Pfeiffer.cpp:135-141 | The fields are read as they were written if and only if they fit |
| Pfeiffer.FieldsOfText | devices/Pfeiffer/Pfeiffer.cpp:135-141 | The fields of any text: the numbers at its places, and the data as long as told, or to the end if the length told is too long or negative |
| Pfeiffer.NumberReadsBack | devices/Pfeiffer/Pfeiffer.h:74-80 | A padded number reads back exactly when it is an int and no padding came before a sign |
| Pfeiffer.NumberTextInjective | devices/Pfeiffer/Pfeiffer.h:74-80 | Different numbers have different padded texts |
| Pfeiffer.FieldWidth | devices/Pfeiffer/Pfeiffer.h:74-80 | A number takes exactly its field's width if and only if it fits, and never less |
| Pfeiffer.LongChecksumFails | devices/Pfeiffer/Pfeiffer.cpp:121-133 | A checksum of four characters is cut by the reader, and what is left never matches |
| Pfeiffer.PfeifferDevice.CalculateChecksum | devices/Pfeiffer/Pfeiffer.cpp:56-67 | The accumulation loop yields the truncated remainder, padded to three characters |
| Pfeiffer.PfeifferDevice.Cmd | devices/Pfeiffer/Pfeiffer.cpp:20-54 | Rebuilds the command buffer, writes body, checksum and carriage return, and returns the reply |
| Pfeiffer.PfeifferDevice.SemanticCommand | devices/Pfeiffer/Pfeiffer.cpp:69-95 | Rebuilds the telegram buffer and sends it; a write without data sends nothing |
| Pfeiffer.PfeifferDevice.ReadCmdHelper | devices/Pfeiffer/Pfeiffer.h:121-130 | Sends the read telegram and returns what interpreting and validating the reply give |

## Left out

- Transports (serial, TCP, USB, SCSI, I2C, HTTP), gRPC, logging, udev, command-line tools: I/O.
- Arguments of union and array type: they depend on converters registered elsewhere, or are refused by the server; both occur from server to client.
- ServerDecode.Convert: conversions between kinds (a number for a string, say) are not modelled.
- ClientEncode.FtTupleFromValue: refuses a dictionary where a tuple is expected; Python would iterate over its keys.
- `long long`, remote handles, timestamps and the C++ type name in descriptors.
- The kinds of exceptions of the wire translation: all are one kind of error here.
- Newlines inside configuration keys and values: the controller would take the rest for another request.
- Tap lines, constants and timing states; the heater, AD and driver modules: further keys in the same store.
- Bias voltages and other floating-point values: settings are modelled as text and whole numbers. The getters of GPIO cells and of the enable flag have the form of GetOrder.
- `parse_parameter_response` and `read_parse_existing_config`: not used by what is modelled here.
- ArchonRuns.StoreRefinesMap: runs of exchanges that succeed; failing ones are the subject of ArchonFaults.FaultyRuns.
- ArchonReadback.FetchReturnsPixels: a socket read of fewer than 1028 bytes, of which the source uses bytes it has not got.
- ArchonReadback.BufferPort.ReadBackBuffer: the FETCH request itself and socket reads of fewer than 1028 bytes; nor are frame widths and heights modelled, or buffers of 2^29 pixels and more, where the byte count wraps.
- ArchonHandle.Handle.ClearConfig: the tables of state names, constants and tap lines, which it empties too, are not in the model.
- ArchonModuleObjects.GenericBias.Reconfigure: the voltage limits it also sets.
- ArchonParamSlots.NamesShareSlots: runs in which some other text passes for the reply to a read; ArchonParamRuns.ParameterTable covers those too. Beyond 2^31 names the count overflows an int in the source.
- Autofill.AutofillLogic.BeginTick: the check-in time stamp and the notifications. Failing server calls and failing fills, after which the future is read twice, are not modelled.
- FetchData.FetchDataLogic.InitialRequest: requests refused before the stream starts, and error chunks.
- AptWait.Wait: a status message without its 14 bytes of data is undefined in the source and an outcome of its own here. Bytes of a read that timed out, and those that arrive after a flush, are gone.
- APT move-time estimates, and the calls around the wait loop that start a move.
- Pfeiffer.PfeifferDevice.Cmd: the flush of unread input before the write, whose failure the source ignores.
- Pfeiffer: formatting by data type (`str_from_number` with a type) and values with exponents.
