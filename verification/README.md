# Moonlight Embedded: a verified model of its stateful core

Moonlight Embedded is a game-streaming client written in C. Most of it is glue around libraries;
its own hard logic sits in small pieces of state between the I/O calls. This project models those
pieces in Dafny, in the form the C code has them (tables edited in place, loops that move a
pointer, handlers that mutate a record, threads that share slots and pipes), proves every such
method against a specification function, and proves what the program relies on about those
functions: for every input, every run of events or every interleaving of its threads.

Every library call is either left out or is an explicit step or parameter of the model: what a
device reports, what a handler does, whether an import succeeds, which frame the decoder shows.

| file | models |
|---|---|
| `AxisConversion.dfy`, `AxisCurve.dfy`, `Calibration.dfy`, `AxisRoles.dfy` | axis and trigger scaling, button and axis numbering, calibration per axis, and what an axis event writes |
| `Touch.dfy` | the touch screen as a mouse: contacts, pending deltas, flushes, clicks |
| `EvdevDevices.dfy`, `DeviceInput.dfy`, `PollLoop.dfy`, `DevicePasses.dfy`, `Bits.dfy` | device table, poll table and controller id mask under hotplug; what reading a device does; dispatch while handlers edit the table |
| `SdlGamepads.dfy` | the gamepad slots of the SDL back end |
| `MappingFormat.dfy`, `MappingOptions.dfy`, `ConfigFile.dfy`, `ConfigOptions.dfy`, `Text.dfy` | the two printer/parser pairs, what each option and key sets, and the parts of scanf, strtok, atoi and printf they use |
| `XmlQuery.dfy` | the XML event handlers as folds over a document tree |
| `Tiling.dfy`, `ExternalImages.dfy`, `SurfaceImages.dfy`, `DrawnFrames.dfy`, `ZeroCopy.dfy`, `DmaBuf.dfy` | de-tiling shader, layout check and image caches of the zero-copy display, and when a frame is drawn from them |
| `FrameSlots.dfy`, `ImxFrames.dfy`, `MmalSubmit.dfy`, `MmalSemaphore.dfy` | hand-off of decoded frames and of input buffers between threads |
| `BitstreamRing.dfy` | the wrap-around copy into the VPU's bitstream ring |
| `Arith.dfy`, `Counting.dfy`, `Wrappers.dfy`, `CTypes.dfy` | division facts; occurrences in a sequence; optional values; C's narrow integers and truncating division |

Threads are modelled as step relations: a run is any interleaving of the enabled actions of all
threads, and the methods of the classes are proved to perform such a run. Text is `seq<char>`.

## Where the code does not do what one would expect

Properties that are false of the code are stated with the exact condition under which they hold.

- A saved configuration does not survive when its packet size is 1024: `config_save` leaves that
  value out as if it were the default, but the default is 1392 (`ConfigFile.SavedFileRestores`).
- Reversing an axis equals reading its mirror image exactly when min+max is even or there is no
  dead zone (`AxisConversion.ReverseIsMirrorIff`).
- A trigger reading below the axis minimum fits a byte only under the condition of
  `AxisConversion.TriggerBelowMinimum`; otherwise it wraps, and any byte can come out
  (`AxisConversion.AnyByteBelowMinimum`).
- Touch motion is lost exactly for contacts whose first coordinate is -1, the value that marks a
  lifted finger, and that are given another one later (`Touch.MotionConservedIff`,
  `Touch.SentinelCoordinateLosesMotion`); inside a contact -1 does no harm
  (`Touch.SentinelInsideContact`).
- A ready slot of the poll table is skipped by a pass exactly when an edit puts it behind the loop
  (`PollLoop.SkippedIff`): a removal that moves it into a hole there, or an addition to a table
  that has become shorter than the loop index (`PollLoop.RemovalCanSkip`,
  `PollLoop.AdditionCanSkip`).
- Half-axis readings never exceed 127, so a d-pad direction mapped to half an axis is never
  pressed (`AxisConversion.DpadOnHalfAxisNeverPressed`).
- Controller ids are distinct in exactly the runs that never take the fallback to id 0
  (`EvdevDevices.DistinctIffNoFallback`); the seventeenth pad takes it
  (`EvdevDevices.SeventeenthPadFallsBack`).
- A unit larger than the free space of the bitstream ring is reported but written all the same;
  unread bytes survive exactly when there are none or it fits (`BitstreamRing.UnreadSurvivesIff`).
  The copies stay inside the ring exactly when no chunk reaches past its end a second time
  (`BitstreamRing.CopiesInsideIff`).
- The mmal error exits keep the semaphore token; one such exit stops all later input
  (`MmalSemaphore.TokenKeptIff`, `MmalSemaphore.AbandonIsLast`,
  `MmalSemaphore.FirstUnitAbandoned`).
- Linear and tiled frames share the remembered frame size, but each empties only its own caches.
  Tiled images depend on their descriptor alone, so that does them no harm. A linear frame is drawn
  from planes of another height exactly when it is a stale hit: its descriptor holds planes made
  for a height other than the one remembered, which a tiled frame has changed
  (`SurfaceImages.DrawsOwnSurfaceIff`, `SurfaceImages.SpoiledRun`). With the de-tiling path off,
  as it is unless asked for, that never happens (`SurfaceImages.DrawsOwnSurface`).
- The SDL skip test runs outside the mutex, so an event can upload a newer frame than its own
  (`FrameSlots.LateUploadIsNewer`); it is still one whole frame (`FrameSlots.UploadsAreWhole`).
- The value of an ID or AppTitle element without text is undetermined, since its new buffer is
  never terminated (`XmlQuery.WrittenIs`).
- `evdev.c:902-904` says that unused indices are set to -2. The memset fills bytes, so each entry
  becomes -16843010; the model follows the code. Neither value equals the default -1.
- `vaapi_export_reset` has no caller in the repository; exported descriptors stay open for good,
  which is what keeps them distinct.

## Model

| member | source | states |
|---|---|---|
| AxisConversion.StickFits | src/input/evdev.c:190-206 | no stick value, in range or not, forward or reversed, is truncated by the conversion to short |
| AxisConversion.StickExtremes | src/input/evdev.c:190-206 | values at or beyond the limits give exactly -32768 and 32767, exchanged when reversed |
| AxisConversion.StickMonotone | src/input/evdev.c:190-206 | outside the dead zone the reading is monotone in the value, antitone when reversed |
| AxisConversion.StickContinuousAcrossDeadZone | src/input/evdev.c:190-206 | both edges of the dead zone give one and the same reading |
| AxisCurve.StickCurve | src/input/evdev.c:190-206 | in both directions: strictly within flat of the centre the reading is exactly 0, outside it and inside the limits it is the straight line over the scale without the dead zone, rounded down, and beyond the limits the two extremes; said on min, max, flat and the value alone |
| AxisCurve.NoLimitsNoReading | src/input/evdev.c:190-230 | an axis without limits reads 0 as a stick, a trigger and a half axis |
| AxisConversion.ReverseIsMirrorIff | src/input/evdev.c:190-206 | reversed equals forward on min+max-v for all v if and only if min+max is even or flat is 0 |
| AxisConversion.TriggerFitsAndRises | src/input/evdev.c:208-230 | trigger bytes of values from the minimum up lie in 0..255, are monotone, and are 255 from the maximum up |
| AxisCurve.TriggerCurve | src/input/evdev.c:214-220 | a trigger reads 0 strictly within flat of its minimum, the straight line from there to the maximum, rounded down, and 255 above it |
| AxisCurve.HalfAxisCurve | src/input/evdev.c:221-229 | half an axis reads the part of the stick that its sign asks for, scaled from 65535 to 255, and 0 on the other side |
| AxisConversion.TriggerBelowMinimum | src/input/evdev.c:208-230 | below the minimum the scaled value fits a byte if and only if it is in the dead zone or scales to zero |
| AxisConversion.AnyByteBelowMinimum | src/input/evdev.c:208-230 | for every byte there is a reading below a minimum of 0 that comes out as that byte |
| AxisConversion.HalfAxisReadings | src/input/evdev.c:208-230 | '+' and '-' half-axis readings are at most 127 and never both non-zero, for all parameters |
| AxisConversion.DpadOnHalfAxisNeverPressed | src/input/evdev.c:669-700 | the test above 127 never succeeds for a half axis, and does at the maximum of a whole axis |
| Calibration.NumberButtons | src/input/evdev.c:912-921 | the two loops leave in key_map, for every code, its rank among the device's buttons, joystick buttons first, and the memset value elsewhere |
| Calibration.NumberAxes | src/input/evdev.c:923-930 | the loop leaves in abs_map the rank of every axis, hats skipped |
| Calibration.ButtonNumberingBijective | src/input/evdev.c:902-921 | for every set of codes the button numbers are distinct, are exactly 0..n-1, and no entry is -1 |
| Calibration.AxisNumberingBijective | src/input/evdev.c:902-930 | the same for axes |
| AxisRoles.ButtonOrder | src/input/evdev.c:912-921 | codes from 0x120 are numbered before all others, and each group in the order of its codes |
| AxisRoles.AxisOrder | src/input/evdev.c:923-930 | axes are numbered in the order of their codes; codes 0x10 to 0x17 get no number |
| Calibration.GetMap | src/input/evdev.c:143-149 | the first index holding the value, or -1 exactly when no index below length holds it |
| Calibration.InitParms | src/input/evdev.c:151-166 | the stored parameters are those of the axis that was given the mapped number; zero when there is none |
| Calibration.Device.constructor | src/input/evdev.c:902-948 | after creation every role of the mapping is calibrated with the limits of the axis it names |
| Calibration.Device.CalibratedAt | src/input/evdev.c:624-667 | a role whose number is the event axis' entry holds the parameters of that very axis |
| Calibration.Device.HandleAxis | src/input/evdev.c:620-700 | the readings after an ABS event are those of the specification, and the gamepad counts as modified if and only if some role is mapped to that axis |
| Calibration.Device.HandleSticks | src/input/evdev.c:649-658 | the if-chain over the sticks updates the first that matches, scaled by that axis' limits |
| Calibration.Device.HandleTriggers | src/input/evdev.c:660-667 | both triggers are tested, each scaled by that axis' limits |
| Calibration.Device.HandleDpadSides | src/input/evdev.c:669-684 | right and left follow the reading of their axis |
| Calibration.Device.HandleDpadVertical | src/input/evdev.c:685-700 | up and down follow the reading of their axis |
| Calibration.AxisEventReads | src/input/evdev.c:648-700 | a role changes exactly when its number is that of the event's axis (and no earlier stick took it), to the reading converted with that axis' limits |
| AxisRoles.AxisEventWrites | src/input/evdev.c:648-700 | role by role: of the sticks only the first one mapped to the axis takes the reading, both triggers and all four directions take theirs, each with its own reversal or half, and everything else stays |
| AxisRoles.MappedIff | src/input/evdev.c:620-700 | the gamepad counts as modified exactly when the axis is one of the ten in the mapping |
| Touch.Touchscreen.HandleEvent | src/input/evdev.c:325-347 | the handler's in-place updates and the calls it makes are the step function's |
| Touch.XStep | src/input/evdev.c:597-606 | every event keeps the X account: delta sent plus delta pending is the travel of all contacts as seen, from their first coordinate other than the lifted-finger value |
| Touch.YStep | src/input/evdev.c:607-616 | the same for Y |
| Touch.MotionAccounted | src/input/evdev.c:330-347 | for each rotation and every event sequence, the moves sent are the rotated deltas flushed, and on each axis flushed plus pending delta is the travel of the contacts as seen |
| Touch.MotionConservedIff | src/input/evdev.c:330-347 | for each rotation and every event sequence, moves sent plus rotated pending delta equal the rotated sum over contacts of last minus first position after each event, if and only if no contact on either axis starts with TOUCH_UP and is given another coordinate later |
| Touch.ConservedNow | src/input/evdev.c:330-347 | after any one event sequence that equation holds if and only if the losses of each axis add up to zero |
| Touch.MotionConserved | src/input/evdev.c:330-347 | without such a contact the equation holds |
| Touch.SynFlushes | src/input/evdev.c:329-347 | after a synchronisation event the moves sent alone are the rotated travel as seen, and the whole travel if and only if neither axis lost anything |
| Touch.DirectionsSent | src/input/evdev.c:329-347 | the four directions written out: after a synchronisation event the moves sent add up to (y, -x), (-x, -y), (-y, x) or (x, y), where x and y are the travels as seen |
| Touch.EventSends | src/input/evdev.c:329-347 | a synchronisation event sends nothing without a pending delta, and else one move, turned as above; coordinates and a finger put down send nothing |
| Touch.LiftClicks | src/input/evdev.c:440-463 | after every event sequence a lifted finger clicks exactly when both coordinates of its contact are known and it moved less than the radius, right from 750 milliseconds after it was put down and left before |
| Touch.SentinelCoordinateLosesMotion | src/input/evdev.c:597-606 | a contact that starts with TOUCH_UP and moves on: its motion is not sent |
| Touch.SentinelInsideContact | src/input/evdev.c:597-606 | TOUCH_UP as a later coordinate is conserved like any other |
| PollLoop.PollTable.AddFd | src/loop.c:53-73 | both arrays gain one entry, in step |
| PollLoop.PollTable.RemoveFd | src/loop.c:75-90 | swap-with-last on both arrays; the last entry goes when the descriptor is absent |
| PollLoop.RemoveTakesOne | src/loop.c:75-90 | as a multiset, the table loses exactly the removed slot, paired as it was |
| PollLoop.Dispatch | src/loop.c:105-116 | with edits that never take a slot out of an empty table, the loop over the table that handlers edit stays inside it and is the specified pass; it reports a stop if and only if the last handler called asked for one, and none before it did |
| PollLoop.PassDoneIff | src/loop.c:75-116 | a pass stays inside the table if and only if, in each handler it runs, slots present and added never fall short of slots removed |
| PollLoop.NamedIsCovered | src/loop.c:75-90 | edits that only remove descriptors that are in the table at that moment meet that condition |
| PollLoop.PassIsSafe | src/loop.c:105-116 | under exactly that condition, whatever handlers add and remove: each call is for a registration as it was made, none is called twice in a poll, and each one that is not removed is still in the table afterwards |
| PollLoop.AddingNeverSkips | src/loop.c:105-116 | a pass without removals calls every ready slot exactly once, in table order, added ones included |
| PollLoop.SkippedIff | src/loop.c:53-116 | after a pass that ran to its end, a ready slot of the table was not called if and only if an edit had put it behind the loop index: a removal moved it there from ahead, or it was added to a table shorter than the index |
| PollLoop.RemovalCanSkip | src/loop.c:75-116 | a handler removing its own descriptor makes the loop skip the slot swapped into its place, which stays ready |
| PollLoop.AdditionCanSkip | src/loop.c:53-116 | the only handler removes itself and registers another descriptor: the new slot, ready by its leftover result, is not called |
| EvdevDevices.Evdev.Create | src/input/evdev.c:884-956 | a device is appended and its descriptor registered with evdev_handle |
| EvdevDevices.Evdev.Remove | src/input/evdev.c:168-188 | id released, descriptor unregistered, device swapped out |
| EvdevDevices.Evdev.Synchronise | src/input/evdev.c:356-372 | the lowest clear bit is taken and given to the device, or id 0 |
| EvdevDevices.Evdev.ReadInputs | src/input/evdev.c:767-774 | the read loop performs the events in order up to the one that ends the program |
| EvdevDevices.Evdev.Handle | src/input/evdev.c:762-784 | the loop over devices handles the device of the descriptor and, after its removal, no other one |
| DeviceInput.ReadEffect | src/input/evdev.c:767-774 | reading a device changes that device only: a change is pending afterwards exactly when no synchronisation event followed it, and it gets an id, the lowest free one or 0, exactly when it had none and a change was reported; events after the one that ends the program do nothing |
| DeviceInput.HandleEffect | src/input/evdev.c:762-784 | in every state in which devices and poll table agree the device of the descriptor is read so, and then, when it is gone and no event ended the program, the device, its slot and its descriptor are out and everything else is as it was |
| DeviceInput.HandleNothing | src/input/evdev.c:762-784 | for a descriptor that is no device nothing happens |
| DeviceInput.NewDeviceId | src/input/evdev.c:356-372 | a device just plugged in, once read, has an id exactly when it changed and then synchronised |
| EvdevDevices.RunKeepsAgreement | src/input/evdev.c:168-956 | in every run of hotplug, input, unplug and other registrations, each device's descriptor occurs exactly once in the poll table with evdev_handle, and descriptors are distinct |
| EvdevDevices.UnplugRemovesOnlyItsSlot | src/input/evdev.c:168-188 | in every run an unplug finds its descriptor in the table, and takes exactly its own slot and its own device out, re-pairing nothing |
| DevicePasses.RunOpsNamed | src/input/evdev.c:168-956 | in every run the descriptors that device handlers take out of the poll table are in it at that moment |
| DevicePasses.DevicePassStaysInside | src/loop.c:75-116 | after any history of hotplug, and whatever poll reports, a pass whose handlers plug and unplug devices and edit other registrations stays inside the table |
| EvdevDevices.RunKeepsMaskHeld | src/input/evdev.c:168-372 | in every run each set bit of assignedControllerIds is the id of some device |
| EvdevDevices.RunKeepsMaskExact | src/input/evdev.c:168-372 | while no pad falls back to id 0 the mask is exactly the set of ids held and ids are distinct |
| EvdevDevices.DistinctIffNoFallback | src/input/evdev.c:356-369 | ids are distinct throughout a run if and only if the run never takes the fallback |
| EvdevDevices.ControllerIdsFromStart | src/input/evdev.c:168-372 | the three facts above for every run from an empty table |
| EvdevDevices.FallbackSharesId | src/input/evdev.c:366-368 | the fallback always gives out an id that is already held |
| EvdevDevices.SeventeenthPadFallsBack | src/input/evdev.c:357-368 | a run from start-up, seventeen pads plugged in, after which the last one shares id 0 with the first |
| EvdevDevices.NewPadGetsLowestFree | src/input/evdev.c:357-365 | a new pad gets the lowest id that no device holds |
| SdlGamepads.Gamepads.GetGamepad | src/input/sdl.c:340-363 | finds the slot of the joystick, else takes the lowest free one and sets its bit, else returns slot 0 |
| SdlGamepads.Gamepads.AddGamepad | src/input/sdl.c:365-404 | the state after adding a pad, whether SDL can open it or not |
| SdlGamepads.Gamepads.RemoveGamepad | src/input/sdl.c:406-430 | the state after a pad is removed, known or not |
| SdlGamepads.RunKeepsConsistent | src/input/sdl.c:340-430 | in all runs mask bit i is set exactly when slot i is initialized, initialized slots carry their index as id, and joystick ids are distinct |
| SdlGamepads.SlotsFromStart | src/input/sdl.c:340-430 | the pad count exceeds the initialized slots by exactly the pads added while all sixteen were taken |
| SdlGamepads.AddThenRemove | src/input/sdl.c:365-430 | adding a new pad and removing it restores mask, slots and count |
| SdlGamepads.AddEffect | src/input/sdl.c:340-404 | a pad that can be opened and has no slot takes the lowest free one, with its bit in the mask; with none free it replaces the controller of slot 0; any other pad changes nothing |
| SdlGamepads.RemoveEffect | src/input/sdl.c:406-430 | a known pad leaves its slot empty and its bit clear, and every other slot as it was; an unknown one changes nothing |
| MappingFormat.Parse | src/input/mapping.c:28-172 | the strtok loop with its assignments to the structure computes the specified mapping, for every line |
| MappingFormat.MappingStruct.AssignOption | src/input/mapping.c:50-167 | one option: sign, platform, then button, axis or hat code, narrowed to short |
| MappingFormat.MappingStruct.AssignCode | src/input/mapping.c:62-154 | which members a key and code set, in the order of the source's tests |
| MappingFormat.Print | src/input/mapping.c:197-237 | the text mapping_print writes, item by item |
| MappingFormat.AgreeingReadsBack | src/input/mapping.c:48-154 | a printed item is read back as exactly the indices it shows, whatever was read before |
| MappingFormat.MarkedAxisReads | src/input/mapping.c:51-140 | the syntax that is never printed: a sign before an axis code is its half, the character after it the mark of reversal, for every key, number and mark |
| MappingOptions.StickOptionSets | src/input/mapping.c:109-121 | an axis option under one of the four stick keys sets the index of that stick, its reversal to whether the mark is a tilde, and nothing else |
| MappingOptions.HalfOptionSets | src/input/mapping.c:109-140 | under one of the six keys of triggers and directions it sets that index, the half to the sign in front or to none, and nothing else |
| MappingOptions.OtherAxisOptionSetsNothing | src/input/mapping.c:109-140 | under any other key it sets nothing |
| MappingOptions.ButtonOptionSets | src/input/mapping.c:62-108 | a button option sets the index of its key, one of 23, and nothing else |
| MappingOptions.OtherButtonOptionSetsNothing | src/input/mapping.c:62-108 | under any other key it sets nothing |
| MappingOptions.HatOptionSets | src/input/mapping.c:141-154 | a hat option sets the hat and the direction of its key, and nothing else |
| MappingOptions.OtherLetterSetsNothing | src/input/mapping.c:155-158 | a code with another letter sets nothing |
| MappingOptions.PlatformOptionSets | src/input/mapping.c:56-61 | the platform is the first 32 characters of its value, without a sign in front |
| MappingOptions.MalformedOptionSetsNothing | src/input/mapping.c:51-160 | an option without a colon, or with nothing in front of it or behind it, sets nothing |
| MappingOptions.OptionsInOrder | src/input/mapping.c:47-48 | options are read from left to right; the last one needs no comma |
| MappingOptions.NamesThenOptions | src/input/mapping.c:28-48 | a line gives a mapping with its two names, cut to 32 and 256 characters, every index at -1, and then its options |
| MappingOptions.NoMappingWithoutNames | src/input/mapping.c:30-33 | without both names there is no mapping |
| MappingFormat.AllItemsReadBack | src/input/mapping.c:201-237 | each of the 33 items is written under the key that the parser knows for the index it comes from |
| MappingFormat.ItemsCover | src/input/mapping.c:201-237 | the items together show every index except the four axes of the directional pad |
| MappingFormat.PrintedReadsBackIff | src/input/mapping.c:28-237 | parsing what was printed gives the mapping with only the unprinted parts defaulted, if and only if guid and name are non-empty and free of commas |
| MappingFormat.PrintedReadsBackUnchangedIff | src/input/mapping.c:28-237 | it gives the very same mapping if and only if, besides, nothing unprinted was set |
| MappingFormat.KeptPrintsAlike | src/input/mapping.c:197-237 | the defaulted parts do not show in the printed text |
| MappingFormat.PrintParsePrint | src/input/mapping.c:28-237 | print, parse, print equals print |
| MappingFormat.ParsedNames | src/input/mapping.c:30-46 | whatever line is parsed, guid and name are non-empty and free of commas |
| ConfigFile.Save | src/config.c:307-339 | the text of the saved file, one line per value that differs from what config_save takes for the default |
| ConfigFile.Configuration.ParseFile | src/config.c:275-305 | the getline loop computes the specified configuration for every text; a file that cannot be opened changes nothing |
| ConfigFile.Configuration.AssignKey | src/config.c:288-301 | address and sops apart, every table entry of that name is applied, flags only for the value true |
| ConfigFile.Configuration.ParseArgument | src/config.c:134-273 | the switch over the options that touch the saved members |
| ConfigFile.Configuration.constructor | src/config.c:344-388 | the defaults |
| ConfigFile.LineScans | src/config.c:287 | a written line scans back to its key and value |
| ConfigFile.AssignNumber | src/config.c:134-301 | a line with the key of a saved number sets exactly that member to the number printed |
| ConfigFile.AssignFlag | src/config.c:134-301 | a line with the key of a saved flag and the value true sets exactly that flag |
| ConfigOptions.NumberKeys | src/config.c:134-301 | for every value, each of the six keys with a number sets its own member to what atoi reads, and nothing else |
| ConfigOptions.TextKeys | src/config.c:288-292 | the address and the app take the value, sops whether it is true |
| ConfigOptions.FlagKeys | src/config.c:293-301 | a flag is set when the value is true, and any other value changes nothing |
| ConfigOptions.SizeKeys | src/config.c:136-194 | so do the three picture sizes, with their two numbers, and nosops, which clears sops |
| ConfigOptions.OtherKeys | src/config.c:288-301 | every other key, nested files apart, leaves these members as they are |
| ConfigOptions.LineCountsIff | src/config.c:285-303 | a line counts exactly when it is a key, white space, an equals sign and a value, with any white space around them; it then assigns that value to that key, and every other line changes nothing |
| ConfigOptions.SavedText | src/config.c:307-339 | the saved text written out, line by line, with the value that leaves each line out |
| ConfigFile.LoadedAppend | src/config.c:285-303 | complete lines are read one after the other, whatever follows them |
| ConfigFile.LoadedRendered | src/config.c:285-303 | loading written lines assigns them one after the other |
| ConfigFile.LoadedApp | src/config.c:285-303 | no file text gives an app name that is empty, starts blank or holds a newline |
| ConfigFile.SavedFileRestores | src/config.c:275-388 | loading a saved file over the defaults restores every saved member and changes nothing else, if and only if the packet size is not 1024 and the app name is non-empty, without newline and without leading blank |
| ConfigFile.SavedFileRestoresBut | src/config.c:275-388 | for such app names, everything but a packet size of 1024 comes back, and that as 1392 |
| XmlQuery.XmlSearch | libgamestream/xml.c:140-165 | the handlers run over the events give the specified text; a malformed document gives nothing |
| XmlQuery.XmlApplist | libgamestream/xml.c:167-188 | the same for the application list |
| XmlQuery.Parser.Search | libgamestream/xml.c:35-45 | start, end and text handlers, event by event |
| XmlQuery.Parser.Applist | libgamestream/xml.c:47-80 | the list handlers, event by event |
| XmlQuery.Parser.EndApplistElement | libgamestream/xml.c:65-80 | what an end tag stores in the head of the list, and that it stops the collecting unless the list is empty |
| XmlQuery.Parser.WriteData | libgamestream/xml.c:127-139 | text is appended exactly while collecting |
| XmlQuery.SearchCollects | libgamestream/xml.c:35-45 | from any nesting, a piece of document adds exactly its text below such an element and leaves the counter as it was |
| XmlQuery.SearchFindsText | libgamestream/xml.c:140-165 | for every tree and name the result is the in-order text with an ancestor of that name, and the counter ends at 0 |
| XmlQuery.SearchIgnoresCuts | libgamestream/xml.c:127-139 | the result does not depend on how the parser cuts texts into pieces |
| XmlQuery.BodyFillsHead | libgamestream/xml.c:47-80 | below an App element only the first list entry changes |
| XmlQuery.ApplistReverses | libgamestream/xml.c:47-188 | for documents with ID and AppTitle only below App elements, the list is the applications in reverse document order, each as its own element describes it |
| XmlQuery.DescribedByLast | libgamestream/xml.c:65-80 | an application has the number in its last ID and the text of its last AppTitle; id 0 and no name without them |
| XmlQuery.WrittenIs | libgamestream/xml.c:58-62 | such a value is all the text of its element; it is undetermined exactly when the element has none, because the new buffer is never terminated |
| XmlQuery.AppAlone | libgamestream/xml.c:47-80 | an App element by itself gives one entry: id 0 without an ID element and not determined after an empty one, and as its name the text of the last AppTitle, or none |
| XmlQuery.IdIsNumber | libgamestream/xml.c:72-74 | the id is the number the last ID starts with, in decimal notation, after white space and with at most a sign; without a number it is 0 |
| Text.IntReadBack | src/input/mapping.c:62 | %d reads back any integer that %d printed, up to the first non-digit |
| Text.AtoiReadsBack | src/config.c:42 | atoi inverts %d |
| Text.PrintedIsDecimal | src/config.c:41-43 | %d prints the decimal notation of a number, without leading zeros and with a minus sign for a negative one |
| Text.AtoiUnsigned | libgamestream/xml.c:73 | past white space, atoi gives the number that the digits up to the first other character are the decimal notation of |
| Text.AtoiSigned | libgamestream/xml.c:73 | with a sign in front, that number or its negative |
| Text.AtoiNothing | libgamestream/xml.c:73 | without a digit there, 0 |
| Tiling.AddressMapBijective | src/video/egl.c:161-166 | the tile address map is injective on the padded plane, stays inside it and reaches every byte of it |
| Tiling.TilesNeeded | src/video/egl.c:947-950 | a row of a frame takes the number of 32-byte tiles that holds it, and no more |
| Tiling.TileLayout | src/video/egl.c:161-166 | column c and row r of tile (tx, ty) are at 1024 (ty tpr + tx) + 32 r + c |
| Tiling.HeldIffInTiles | src/video/egl.c:173-175 | that a plane is held means exactly that each of its bytes lies at that place |
| Tiling.OffsetInverse | src/video/egl.c:161-166 | column and row are recovered from the address |
| Tiling.Buffer.TexelInside | src/video/egl.c:168-172 | every byte address falls on its own texel inside the ceil(size/pitch)-row texture |
| Tiling.FetchPlaneReads | src/video/egl.c:173-175 | fetching a plane laid out in tiles gives the plane's samples, for every texture pitch |
| Tiling.ShadePixel | src/video/egl.c:182-188 | for every size, pitch, chroma offset and buffer that hold the tiled frame, the three fetches for a pixel give its own luma and its block's chroma |
| Tiling.AcrossInside | src/video/egl.c:178-181 | every fragment of a view of any size falls on a frame column, left to right, and the separate case of equal sizes agrees with the formula |
| Tiling.AcrossCovers | src/video/egl.c:178-181 | a view at least as large as the frame shows every column |
| Tiling.ShadeShowsFrame | src/video/egl.c:176-196 | the view shows the frame's own pixels with rows flipped once |
| ExternalImages.AcceptedLayoutFits | src/video/egl.c:982-992 | every layout the draw check accepts has all luma and chroma bytes inside the buffer, the planes disjoint and no byte shared by two samples |
| ExternalImages.ResultIff | src/video/egl.c:415-999 | in every state of every run the draw has image i exactly when the layout passes, and i is the one held for its full key, or is the next one, the key is new, there is room and the import succeeds |
| ExternalImages.Cache.GetImage | src/video/egl.c:415-472 | search, import and append, with a full cache giving no image |
| ExternalImages.Cache.DrawFrame | src/video/egl.c:977-999 | the check, then the lookup |
| ExternalImages.Cache.Clear | src/video/egl.c:474-480 | destroys every live image of the cache once and empties it |
| ExternalImages.RunKeepsInv | src/video/egl.c:415-480 | over every run full keys are distinct, and every image made is cached or destroyed, exactly once |
| ExternalImages.DrawUsesOwnImage | src/video/egl.c:415-999 | over every run, the image a draw uses was made for exactly its key, is not destroyed, and was imported with both planes inside the buffer |
| ExternalImages.ImportedOnce | src/video/egl.c:415-472 | between resets no key is imported twice, whether its import succeeded or not |
| ZeroCopy.Display.ExportDmabuf | src/video/ffmpeg_vaapi.c:95-130 | look-up, then export and append; a full table or a failing export gives nothing |
| ZeroCopy.Display.GetNv12 | src/video/egl.c:370-413 | look-up by descriptor alone, then both imports, with failures cached |
| ZeroCopy.Display.GetExternal | src/video/egl.c:977-999 | the external draw up to its image, and the buffer behind a new one |
| ZeroCopy.Display.Resize | src/video/egl.c:1315-1320 | another size empties the planes and the external images, and not the tiled ones |
| ZeroCopy.Display.DrawDmabufNv12 | src/video/egl.c:1297-1354 | checks, size change, the external image first if that path is on, then the two planes; the new state and what is drawn from are the specified ones |
| ZeroCopy.Display.GetImage | src/video/egl.c:863-897 | look-up by descriptor alone, then the import; a failure is not cached |
| ZeroCopy.Display.DrawDmabuf | src/video/egl.c:899-926 | another size empties the tiled images, and not the others; then the look-up |
| ZeroCopy.Display.ShowFrame | src/video/x11.c:268-296 | export, then the linear or the tiled path by the descriptor's layout |
| SurfaceImages.ExportKeepsInv | src/video/ffmpeg_vaapi.c:95-130 | exported descriptors stay distinct and open, one per surface |
| SurfaceImages.GetPlanesGood | src/video/egl.c:370-413 | the planes drawn are those of the frame's own surface, with the pitch and chroma offset of its descriptor, for the height they were made for |
| SurfaceImages.GetWholeGood | src/video/egl.c:415-472 | an external image is of the frame's own surface and of its own layout |
| SurfaceImages.GetTileGood | src/video/egl.c:863-897 | a tiled image is of the frame's own surface and as its descriptor lays it out, whatever sizes linear frames have left behind |
| DrawnFrames.DrawnIff | src/video/egl.c:370-1354 | when a frame is drawn and from what, as an if and only if on the frame, the settings, the descriptor, what the caches hold and what the libraries answer: whole image, two planes or tiled image, for hit and miss |
| DrawnFrames.NoDescriptorNothing | src/video/x11.c:268-296 | without a descriptor, neither exported before nor to be had now, nothing is drawn or changed |
| DrawnFrames.LinearLeaves | src/video/egl.c:1297-1354 | what a linear frame leaves: its size, the planes held for that size with its own appended, one without images when an import failed, and the tiled images as they were |
| DrawnFrames.LinearWholes | src/video/egl.c:415-472 | and the whole images of that size, with its own appended when that path is on and accepts the layout |
| DrawnFrames.TiledLeaves | src/video/egl.c:863-926 | what a tiled frame leaves: its size, its image among those of that size unless the import failed, and everything linear as it was |
| SurfaceImages.DrawGoodIff | src/video/egl.c:863-1354 | in every state of every run a frame, linear or tiled, is drawn from images of its own surface, layout and height if and only if it is no stale hit |
| SurfaceImages.NextDrawsGoodIff | src/video/egl.c:863-1354 | every frame that can come next is drawn well if and only if no linear surface, shown at the remembered size, holds planes made for another height |
| SurfaceImages.DrawsOwnSurfaceIff | src/video/egl.c:863-1354 | over every run, tiled frames included, with other code opening and closing descriptors: all frames are drawn well if and only if none is a stale hit, and so is whatever comes next if and only if the run ends in a state that is not stale |
| SurfaceImages.OnlyTiledSpoils | src/video/egl.c:914-921 | only a tiled frame of another height can leave planes behind that are not for the remembered height |
| SurfaceImages.DrawsOwnSurface | src/video/egl.c:370-1354 | with the de-tiling path off, every frame of every run is drawn from its own surface at its own height |
| SurfaceImages.SpoiledRun | src/video/egl.c:914-921 | a run from start-up, one linear and two tiled frames, after which the linear surface is drawn from planes of its old height |
| FrameSlots.SdlVideo.GetFrame | src/video/ffmpeg.c:176-190 | a successful receive fills the next slot and rotates; a failing one changes nothing |
| FrameSlots.SdlVideo.SubmitFrame | src/video/sdl.c:52-80 | the producer performs exactly the locked sequence of the concurrent model |
| FrameSlots.SdlVideo.HandleFrameEvent | src/sdl.c:98-109 | the consumer's skip test and the slot it uploads from |
| FrameSlots.UploadsAreWhole | src/sdl.c:98-109 | in every interleaving an upload for event k is one whole frame from the slot of k, numbered at least k, and it is frame k exactly when fewer than two frames were counted since |
| FrameSlots.SkipIsExact | src/sdl.c:99-101 | with the decoder outside the mutex, an event is skipped exactly when its slot no longer holds its frame |
| FrameSlots.NeverBothInside | src/video/sdl.c:65-77 | the two threads are never both inside the mutex, and no event comes before its frame is counted |
| FrameSlots.LateUploadIsNewer | src/sdl.c:99-104 | an interleaving in which event 1 uploads frame 3 |
| ImxFrames.Imx.FrameHandle | src/video/imx.c:62-117 | the handler clears all but the newest frame, queues that one and dequeues when more than two are queued |
| ImxFrames.Imx.DrainFrames | src/video/imx.c:62-69 | the read loop passes on every frame but the last |
| ImxFrames.Imx.SubmitDecodeUnit | src/video/imx.c:252-261 | the clear pipe is emptied into the VPU before it decodes, and a shown frame goes to the frame pipe |
| ImxFrames.RunConserves | src/video/imx.c:62-261 | no step of either thread loses or duplicates a frame |
| ImxFrames.EachFrameInOnePlace | src/video/imx.c:62-261 | in every interleaving each frame index is in exactly one of VPU, frame pipe, display queue, clear pipe or hands of a thread; queued_count is the queue length, at most 2 between handler runs; a frame being cleared is not queued |
| ImxFrames.PipesStayShort | src/video/imx.c:62-261 | the pipes together never hold more than all frames |
| MmalSubmit.Submit | src/video/mmal.c:229-286 | the loop over entries sends exactly the specified buffers and waits once for each, for every entry list and every library answer |
| MmalSubmit.SentIsBeginning | src/video/mmal.c:235-277 | a failing unit sent a proper beginning of the buffers, a successful one all of them |
| MmalSubmit.PayloadsInOrder | src/video/mmal.c:255-265 | the payloads joined are the entries' bytes in order |
| MmalSubmit.SentData | src/video/mmal.c:255-265 | a buffer of an SPS holds exactly what the fix-up makes of its data, one of another parameter set exactly that data, and a picture buffer the data of its entries joined; and so does each buffer that is sent |
| MmalSubmit.GoesThroughIff | src/video/mmal.c:235-277 | a unit goes through if and only if every one of its buffers is found, large enough and accepted; if not, what was sent ends before the first that is not |
| MmalSubmit.GroupShape | src/video/mmal.c:267-274 | a buffer is one parameter set or a run of picture entries that cannot be extended |
| MmalSubmit.BufferIsGroup | src/video/mmal.c:235-277 | buffer k holds exactly the k-th group of entries |
| MmalSubmit.RunsAreMaximal | src/video/mmal.c:248-274 | CONFIG is on exactly the buffers whose group starts with a parameter set, every buffer is marked as an end, and no two picture buffers follow each other |
| MmalSubmit.FirstPictureStarts | src/video/mmal.c:248-253 | FRAME_START is on exactly the first picture buffer |
| MmalSemaphore.RunKeepsBalance | src/video/mmal.c:57-272 | in every interleaving semaphore, outstanding buffers and lost tokens add up to one |
| MmalSemaphore.PoolNeverEmptyAfterWait | src/video/mmal.c:237-245 | after the wait the pool of five is full, so a buffer is always found |
| MmalSemaphore.TokenKeptIff | src/video/mmal.c:243-272 | semaphore plus outstanding buffers is one if and only if no unit was abandoned after its wait |
| MmalSemaphore.AbandonIsLast | src/video/mmal.c:237-272 | after such an exit no action of thread or callback is possible |
| MmalSemaphore.FirstUnitAbandoned | src/video/mmal.c:237-261 | a possible run that ends so: the first buffer is abandoned and no action is enabled any more |
| MmalSemaphore.TokenComesBack | src/video/mmal.c:57-62 | otherwise the pending callbacks alone re-enable the wait |
| BitstreamRing.WriteUnit | src/video/imx_vpu.c:175-189 | whenever its copies stay inside, the loop leaves the ring as writing the joined chunks byte by byte from the write position, modulo the size |
| BitstreamRing.ConcatJoins | src/video/imx_vpu.c:175-189 | the joined chunks are their bytes, chunk after chunk |
| BitstreamRing.CopiesInsideIff | src/video/imx_vpu.c:175-189 | the calls of memcpy stay inside the ring if and only if no chunk reaches past its end a second time |
| BitstreamRing.SmallUnitsStayInside | src/video/imx_vpu.c:171-189 | a unit no larger than the ring meets that condition from every position |
| BitstreamRing.PutAt | src/video/imx_vpu.c:177-189 | every byte within a turn is where it was put and every other byte is unchanged |
| BitstreamRing.RingRefinesQueue | src/video/imx_vpu.c:162-190 | a unit that fits is appended to the unread bytes, wherever the ring wraps |
| BitstreamRing.UnreadSurvivesIff | src/video/imx_vpu.c:171-190 | writing n bytes keeps the unread ones, for all contents, if and only if there are none or the bytes fit |

## Left out

- GL, EGL, X11 and SDL rendering, shader compilation, self-tests, benchmarks and counters; floating-point colour conversion.
- Tiling.ShadeShowsFrame: the scaling to the view is taken as exact arithmetic, without floating-point rounding; colour conversion comes after what is modelled.
- SurfaceImages.DrawsOwnSurface: each surface has one buffer for the whole run. A decoder that is opened anew may give an old surface number another buffer; since nothing empties the export cache, the descriptor found is then that of the old buffer. Tiled frames with pitch 0, by which the source divides, draw nothing here; frames that fall back to a download are not modelled.
- ExternalImages.DrawUsesOwnImage: importing is a parameter that succeeds or fails; that a driver reads what it was given is not modelled.
- FrameSlots.UploadsAreWhole: events are delivered once and in order, a failing receive leaves its slot alone, and the frame counters do not overflow.
- BitstreamRing.WriteUnit: a chunk that reaches past the end of the ring a second time is copied past it; the method is stated for all others.
- MmalSubmit.Submit: buffers from the pool come with length 0, and the SPS fix-up is an arbitrary function.
- AxisConversion.StickFits: limits are 0 <= 2*flat < max-min, the product does not overflow 32 bits; divisions by zero, undefined in C, are 0 here.
- AxisConversion.HalfAxisReadings: stated for all parameters, with the same reading of a division by zero.
- Calibration.Device.HandleAxis: hats are not modelled; the directional pad's flags are, as far as axes set them.
- Touch.MotionConserved: the narrowing of deltas to short in the streaming library and relative-motion events of the same device are not modelled.
- PollLoop.Dispatch: poll results are arbitrary; the `events` member, signals and the return value of poll are not modelled. Handlers' edits are a parameter; edits that take a slot out of an empty table, where the source's count becomes negative, are shut out by the condition of PassDoneIff.
- EvdevDevices.RunKeepsAgreement: opening a device gives a descriptor that is not open; memory exhaustion and read errors other than a device that is gone end the program and are not modelled.
- ConfigFile.SavedFileRestores: the members that files hold and the address; other options leave these alone. Nested `config` files, `input` and `mapping` lines, which can end the program, and text with null characters are not modelled.
- ConfigOptions.OtherKeys: a `config` key reads another file, which may set these members; nested files are not modelled.
- MappingFormat.Print: the 33 macro calls are a table that is walked in order.
- MappingFormat.Parse: numbers are within int; an option's messages on standard error are not modelled.
- XmlQuery.ApplistReverses: allocation does not fail; ID or AppTitle outside App elements is not covered by the theorem, though the handlers are modelled for it.
- `xml_modelist` and `xml_status`, mapping_load, and the option table on the command line: they would add only easy members.
- Mouse emulation, rumble, the quit combination, keyboard and mouse buttons, and the interactive mapping tool.
- Network, pairing, certificates, discovery and H.264 parameter rewriting: the work is in libraries and peers outside the repository.
- Audio back ends, the rk, pi and aml decoders, CEC, udev and the kernel module.
