# Verified models of MAVSDK's example and tooling algorithms

This project models, in Dafny 4.11, the self-contained algorithms and state machines that live
beside the MAVSDK core: the gimbal manager and device and their simulated axes, the sidebar
parser, the JNI contract validator, the reconnect example, the Doxygen-to-Markdown renderer, the
recursive FTP removal, the fuzzer's packetiser and watchdog, and the fake location provider. It
proves what each of them is for, over all inputs or all runs. `dafny verify dfyconfig.toml` checks
the whole project.

| file | models |
|---|---|
| `Options.dfy`, `Numbers.dfy`, `Sequences.dfy` | optional values, bytes, concatenation |
| `GimbalAxis.dfy`, `Angles.dfy` | one slew-limited axis over exact reals; heading wrap-around |
| `GimbalProtocol.dfy`, `GimbalManager.dfy`, `GimbalRuns.dfy` | what one message or tick does; the object whose handlers do it; what holds over runs |
| `GimbalLaws.dfy` | each message followed from its fields to where the axes stand any number of ticks later |
| `GimbalDevice.dfy` | the standalone gimbal device, which obeys any sender and moves the same two axes |
| `SidebarOutline.dfy`, `SidebarParser.dfy` | indented lists and forests as values; the parser over aliased, mutable entries |
| `JniNames.dfy`, `JniDescriptors.dfy` | name mangling and type descriptors, with decoders |
| `Reconnect.dfy` | error callbacks interleaving with the retry loop |
| `MarkdownTags.dfy`, `MarkdownFolds.dfy`, `MarkdownMeaning.dfy`, `MarkdownStrings.dfy`, `MarkdownLaws.dfy` | the renderer on output told apart by origin; how observations pass through it; what it keeps; the same routine on strings; what the strings look like |
| `FtpRemove.dfy` | recursive removal over a server that removes exactly empty directories |
| `FuzzPackets.dfy`, `Watchdog.dfy` | the chunking loop and its buffer; the stall detector in integer milliseconds |
| `LocationWalk.dfy` | the restartable walk round a square |

## How the models read the sources

- Angles and rates are exact reals, with a tick of 1/50 s. Trigonometric functions, unit conversion,
  quaternion conversion and the float-to-integer conversions that C++ leaves undefined are
  function-valued fields of `World`; every result holds for all of them. Sender ids are truncated to
  eight bits where the code truncates them.
- Where the flag NEUTRAL is set, `apply_flags` zeroes both setpoints, but each of its callers then
  overwrites them. Contrary to the flag's name it makes no difference to what a message does
  (`GimbalRuns.NeutralChangesNothing`, `GimbalDevice.NeutralChangesNothing`).
- The scalar fields of the manager and the device are grouped into records (`Setpoints`, `Pose`,
  `Vehicle`, `Owners`) that the handlers update one component at a time, in the code's order.
- The sidebar parser is modelled on every list of matched lines, including those on which
  JavaScript throws inside the `try`: the stack is then lost and the remaining lines are skipped.
- In the reconnect model a step is what one thread does atomically: the callback's removal takes no
  lock, its marking takes one, and the loop holds it for a whole pass. Assumed: the library returns
  fresh handles, and only existing connections report errors, any number each. What the callback's
  assertion depends on is that no reconnect overtakes a callback, writing a new handle over one that
  a callback still has in hand; that is so if every connection reports at most one error.
- A handler that throws is told apart by `Outcome.threw` and leaves the state as it was. What becomes
  of the program then is not modelled: a run may go on, or end there.
- The renderer's output is a sequence of document characters, layout characters, markup, and XML left
  as it is where the code serializes a child it does not handle, so that they can be told apart;
  `MarkdownStrings` proves that the routine on plain strings, with `str.strip`, returns exactly the
  string such an output stands for.

## Model

| member | source | states |
|---|---|---|
| GimbalAxis.UpdateAxis | cpp/examples/gimbal_manager/gimbal_manager.cpp:692-716 | the routine moves the axis as `NextAngle` says, and the rate it reports, integrated over the tick, is that motion |
| GimbalAxis.TicksCompose | cpp/examples/gimbal_device/gimbal_device.cpp:287-311 | any number of clamped ticks under one demand equals one clamped move of that many times the length, towards a setpoint or under a rate alone |
| GimbalAxis.ReachedExactlyWhenCovered | cpp/examples/gimbal_manager/gimbal_manager.cpp:703-714 | the axis stands on its clamped setpoint at tick n if and only if n moves cover the distance, so it arrives after the ceiling of distance over step and stays |
| GimbalAxis.TicksTravel | cpp/examples/gimbal_manager/gimbal_manager.cpp:703-714 | n ticks after a setpoint and a rate are given, the axis is at the point nearest to the limited setpoint that n fiftieths of a second at that rate, or at 60 degrees a second without one, can reach; with a rate alone, where that has taken it, limited |
| GimbalAxis.NeverOvershoots | cpp/examples/gimbal_manager/gimbal_manager.cpp:703-714 | later ticks lie between earlier ones and the clamped setpoint |
| GimbalAxis.RatesIntegrateToMotion | cpp/examples/gimbal_device/gimbal_device.cpp:265-311 | for any history of demands the integral of the reported rates is the total motion, and the limits are never left |
| Angles.WrapDegrees | cpp/examples/gimbal_manager/gimbal_manager.cpp:132-141 | the two loops end on every real angle with its representative |
| Angles.Wrap180 | cpp/examples/gimbal_manager/gimbal_manager.cpp:132-141 | the representative is within 180 degrees, a whole number of turns away, and the angle itself if that was within range |
| Angles.WrapIsUnique | cpp/examples/gimbal_manager/gimbal_manager.cpp:132-141 | no other angle meets that description, at plus and minus 180 either |
| GimbalManager.PointingAnglesToRoi | cpp/examples/gimbal_manager/gimbal_manager.cpp:146-161 | the flat-earth offsets, bearing less heading wrapped, and elevation, whatever the trigonometric functions |
| GimbalManager.ApplyConfigureId | cpp/examples/gimbal_manager/gimbal_manager.cpp:512-532 | one id after a configure parameter: unchanged, claimed, released if one's own, set, or out of range and ignored |
| GimbalManager.GimbalManager.constructor | cpp/examples/gimbal_manager/gimbal_manager.cpp:850-867 | the initial state: no setpoints, no region of interest, nobody in control |
| GimbalManager.GimbalManager.HandleCommand | cpp/examples/gimbal_manager/gimbal_manager.cpp:237-276 | dispatch: state and replies are those of `StepCommand`, for both command messages |
| GimbalManager.GimbalManager.HandleRequestMessage | cpp/examples/gimbal_manager/gimbal_manager.cpp:278-302 | which information is sent, and when the request is refused or left to others |
| GimbalManager.GimbalManager.HandleDoPitchyaw | cpp/examples/gimbal_manager/gimbal_manager.cpp:304-344 | refused unless for this gimbal and in control, else the four setpoints are replaced and the region of interest dropped, NEUTRAL or not |
| GimbalManager.GimbalManager.HandleDoConfigure | cpp/examples/gimbal_manager/gimbal_manager.cpp:346-375 | all four owner ids, each by its own parameter and sender id |
| GimbalManager.GimbalManager.HandleDoSetRoiLocation | cpp/examples/gimbal_manager/gimbal_manager.cpp:377-445 | order of the refusals, the location by message form and frame, rates unset |
| GimbalManager.GimbalManager.HandleDoSetRoiNone | cpp/examples/gimbal_manager/gimbal_manager.cpp:447-470 | back to zero setpoints without rates |
| GimbalManager.GimbalManager.HandleGlobalPositionInt | cpp/examples/gimbal_manager/gimbal_manager.cpp:472-491 | only the own autopilot's position is taken |
| GimbalManager.GimbalManager.HandleAttitude | cpp/examples/gimbal_manager/gimbal_manager.cpp:493-508 | only the own autopilot's heading is taken, and only if it has one |
| GimbalManager.GimbalManager.HandleSetAttitude | cpp/examples/gimbal_manager/gimbal_manager.cpp:534-587 | setpoints from the quaternion or none, earth-frame yaw converted, NEUTRAL or not |
| GimbalManager.GimbalManager.HandleSetPitchyaw | cpp/examples/gimbal_manager/gimbal_manager.cpp:589-637 | each setpoint from its own field, rates or none, earth-frame yaw converted, NEUTRAL or not; if the message is for this gimbal and in control but its pitch or yaw is null, it throws and nothing changes |
| GimbalManager.GimbalManager.ApplyFlags | cpp/examples/gimbal_manager/gimbal_manager.cpp:640-648 | the lock follows its bit; NEUTRAL zeroes both angle setpoints for the moment |
| GimbalManager.GimbalManager.EarthToVehicleYawIfNeeded | cpp/examples/gimbal_manager/gimbal_manager.cpp:654-661 | the vehicle-frame yaw meant under the earth-frame bit |
| GimbalManager.GimbalManager.UpdateSimulation | cpp/examples/gimbal_manager/gimbal_manager.cpp:663-690 | one tick: an active region of interest replaces the setpoints, then both axes move |
| GimbalRuns.RunsStaySound | cpp/examples/gimbal_manager/gimbal_manager.cpp:390-438 | in every reachable state both axes are in range, and an active region of interest means unset rates and a known vehicle position |
| GimbalRuns.OneAckOrNone | cpp/examples/gimbal_manager/gimbal_manager.cpp:237-276 | a command addressed here gets exactly one acknowledgement, to its sender and under its number, if understood or meant for this component by name, else no reply; without acceptance nothing changes |
| GimbalRuns.OnlyCountingEventsMatter | cpp/examples/gimbal_manager/gimbal_manager.cpp:210-637 | every run ends where the run ends that keeps only ticks, own telemetry, accepted commands and setpoint messages that are obeyed and do not throw, and nothing throws in that run |
| GimbalRuns.OnlyNullsThrow | cpp/examples/gimbal_manager/gimbal_manager.cpp:598-609 | exactly a SET_PITCHYAW for this gimbal by someone in control whose pitch or yaw is null throws, of all events, and it changes nothing |
| GimbalRuns.ControlIsExclusive | cpp/examples/gimbal_manager/gimbal_manager.cpp:228-235 | non-interference: until a configure command changes a primary id, deleting everything the non-owners say but configure commands changes nothing |
| GimbalRuns.ClaimTakesOver | cpp/examples/gimbal_manager/gimbal_manager.cpp:346-375 | after a claim by -2/-2, and until a primary id changes again, only the claimant's setpoints and commands matter, whoever was in control |
| GimbalRuns.IntMeansLong | cpp/examples/gimbal_manager/gimbal_manager.cpp:400-434 | a COMMAND_INT and its COMMAND_LONG translation have the same state and replies, unless it is a ROI in an unsupported frame, sent to this gimbal by someone in control with the vehicle position known; exactly then they differ |
| GimbalRuns.PitchyawFormsAgree | cpp/examples/gimbal_manager/gimbal_manager.cpp:589-631 | SET_PITCHYAW is obeyed as DO_PITCHYAW with flags is exactly when it is ignored, or pitch and yaw are numbers and the earth-frame bit does not turn the yaw |
| GimbalRuns.RatesOnlyThrows | cpp/examples/gimbal_manager/gimbal_manager.cpp:607-609 | a message with rates alone throws and sets nothing, where the command with the same contents sets the rates |
| GimbalRuns.EarthFrameYawIsKept | cpp/examples/gimbal_manager/gimbal_manager.cpp:621-626 | an earth-frame yaw that is obeyed is stored so that adding the heading gives the commanded direction modulo 360, for both setpoint messages |
| GimbalRuns.NeutralChangesNothing | cpp/examples/gimbal_manager/gimbal_manager.cpp:640-648 | for each of the three messages with flags, setting NEUTRAL leaves its effect as it is |
| GimbalRuns.TicksFollowOneAim | cpp/examples/gimbal_manager/gimbal_manager.cpp:663-690 | while only ticks arrive each axis is under one constant demand, region of interest or not, and nothing else changes |
| GimbalRuns.TicksAreARun | cpp/examples/gimbal_manager/gimbal_manager.cpp:189-207 | the state after n ticks is that of the run of n tick events |
| GimbalRuns.Settles | cpp/examples/gimbal_manager/gimbal_manager.cpp:663-716 | an aimed axis holds its limited aim at tick n if and only if n moves at its rate setpoint, or of 1.2 degrees without one, cover the distance; without rates 100 ticks always do for pitch, 267 for yaw |
| GimbalRuns.Approaches | cpp/examples/gimbal_manager/gimbal_manager.cpp:663-716 | while only ticks arrive, at any rates and with a region of interest or not, each aimed axis moves monotonically towards its limited aim and never past it |
| GimbalRuns.RunsAccount | cpp/examples/gimbal_manager/gimbal_manager.cpp:692-716 | over every run of messages and ticks the rates reported, integrated, are the whole motion of both axes |
| GimbalLaws.StartsAtRest | cpp/examples/gimbal_manager/gimbal_manager.cpp:850-867 | until a message arrives nobody is in control and the axes stay in the middle |
| GimbalLaws.PitchyawCommandTravels | cpp/examples/gimbal_manager/gimbal_manager.cpp:304-344 | whoever sends it while nobody is in control, or the one in control: params 1 to 4 become where the axes travel and how fast, and it is accepted; any other sender or another gimbal is denied, another component ignored |
| GimbalLaws.RoiNoneCentres | cpp/examples/gimbal_manager/gimbal_manager.cpp:447-470 | likewise back to zero at the default rate |
| GimbalLaws.RoiIsAnswered | cpp/examples/gimbal_manager/gimbal_manager.cpp:377-445 | denied, temporarily rejected without a position, denied in another frame, else accepted, in this order |
| GimbalLaws.RoiIsTracked | cpp/examples/gimbal_manager/gimbal_manager.cpp:146-161 | after position, heading and location are told, the axes travel to the elevation of that location and its bearing less the heading, from the latitudes, longitudes and altitudes of the messages |
| GimbalLaws.TelemetryIsTheAutopilots | cpp/examples/gimbal_manager/gimbal_manager.cpp:472-508 | position and heading are those of the own autopilot in its units, and nobody else is believed |
| GimbalLaws.SetAttitudeTravels | cpp/examples/gimbal_manager/gimbal_manager.cpp:534-587 | pitch, yaw, y and z rates of the message, each to where its own axis travels; earth-frame yaw less the heading; ignored from others |
| GimbalLaws.SetPitchyawTravels | cpp/examples/gimbal_manager/gimbal_manager.cpp:589-637 | likewise for its four fields, and the exception without pitch or yaw |
| GimbalLaws.ConfigureAssigns | cpp/examples/gimbal_manager/gimbal_manager.cpp:346-375 | each of the four ids after -1, -2, -3, an id or anything else in its own parameter |
| GimbalLaws.RequestsAreAnswered | cpp/examples/gimbal_manager/gimbal_manager.cpp:237-302 | which information follows the acknowledgement of which request, and what every other command gets |
| GimbalLaws.RoundingIsNearest | cpp/examples/gimbal_manager/gimbal_manager.cpp:518-520 | a parameter goes to the nearest id, halves away from zero |
| GimbalLaws.CastsCut | cpp/examples/gimbal_manager/gimbal_manager.cpp:281-282 | a float read as an id or flags is cut towards zero |
| GimbalDevice.GimbalDevice.HandleSetAttitude | cpp/examples/gimbal_device/gimbal_device.cpp:173-239 | from whoever is heard last: angles from the quaternion or none, rates from the velocities or none, NEUTRAL or not |
| GimbalDevice.GimbalDevice.ApplyFlags | cpp/examples/gimbal_device/gimbal_device.cpp:255-263 | the lock follows its bit; NEUTRAL zeroes both angle setpoints for the moment |
| GimbalDevice.GimbalDevice.UpdateSimulation | cpp/examples/gimbal_device/gimbal_device.cpp:265-285 | one tick moves both axes, each under its own setpoint, rate and limits, and nothing else |
| GimbalDevice.RunsAccount | cpp/examples/gimbal_device/gimbal_device.cpp:265-311 | for every run of messages and ticks both axes stay in range and the reported rates, integrated, are the whole motion |
| GimbalDevice.OrdersTravel | cpp/examples/gimbal_device/gimbal_device.cpp:173-239 | a message for this device, from anyone, sends each axis to its own angle at its own rate, and notes the sender; any other is ignored |
| GimbalDevice.RateOnlyDrifts | cpp/examples/gimbal_device/gimbal_device.cpp:287-311 | after a message without attitude, n ticks take each axis to one clamp of its start plus the whole drift, none where the message has no rate |
| GimbalDevice.NeutralChangesNothing | cpp/examples/gimbal_device/gimbal_device.cpp:255-263 | setting NEUTRAL leaves the effect of a setpoint message as it is |
| SidebarOutline.ListsAsWrittenIffOutline | docs/.vitepress/get_sidebar.js:63-245 | the parsed sidebar, read in preorder with depths, is the input exactly when its levels are whole, start at 0 and rise by at most one |
| SidebarOutline.ParseRebuilds | docs/.vitepress/get_sidebar.js:63-245 | parsing the preorder listing of any forest rebuilds the forest |
| SidebarOutline.EveryListIsPlaced | docs/.vitepress/get_sidebar.js:126-219 | for every list at all: the sidebar lists, in order and each once, the lines before the first that has no place, each beside, one below, or the level difference rounded up above the one before it |
| SidebarOutline.LevelsAreQuotients | docs/.vitepress/get_sidebar.js:118-124 | a level is the exact quotient of its indent and the first indent there is |
| SidebarOutline.PrintedReadsBack | docs/.vitepress/get_sidebar.js:118-124 | any forest written down as an indented list, with any unit of indentation, is read back as that forest |
| SidebarOutline.ListingIsInjective | docs/.vitepress/get_sidebar.js:63-245 | different forests list differently |
| SidebarOutline.ParseLists | docs/.vitepress/get_sidebar.js:141-219 | throughout a proper outline the stack is one higher than the last level and the listing is what was read |
| SidebarOutline.Advance | docs/.vitepress/get_sidebar.js:141-219 | after any line, thrown on or not, the stack follows last children and its top has a child |
| SidebarParser.Entry.GetEntryArray | docs/.vitepress/get_sidebar.js:7-27 | returns the children array, creating it if there is none |
| SidebarParser.Parser.TakeLevel | docs/.vitepress/get_sidebar.js:118-124 | the first non-zero indent becomes the unit; the level is the exact quotient |
| SidebarParser.Parser.PopAbove | docs/.vitepress/get_sidebar.js:200-210 | how many parents the decrementing loop pops, and what is left when they run out |
| SidebarParser.Parser.PushEntry | docs/.vitepress/get_sidebar.js:146-158 | pushing onto an array of one entry grows the tree under it there and only there, and the stack stays on the path of last children |
| SidebarParser.Parser.PushNested | docs/.vitepress/get_sidebar.js:161-199 | the entry becomes the first child of the last one, which is collapsed and joins the stack; it throws exactly if there is no last one |
| SidebarParser.Parser.AddEntry | docs/.vitepress/get_sidebar.js:126-219 | each branch puts the entry at the depth that levels and stack determine, or throws; every object still holds its own children |
| SidebarParser.Parser.ParseLine | docs/.vitepress/get_sidebar.js:63-234 | one line takes the objects from one forest to the next as the value parser does |
| SidebarParser.ParseSidebar | docs/.vitepress/get_sidebar.js:29-246 | the entries returned, each occurring once, collapsed and with items exactly if it has children, hold the value parser's forest |
| SidebarParser.TreeGrows | docs/.vitepress/get_sidebar.js:149-150 | a push on one aliased object of the path grows the whole tree and leaves all other objects as they were |
| JniNames.JniEncode | jni/jvm/validate_generated.py:34-49 | the loop returns the encoding |
| JniNames.DecodableIff | jni/jvm/validate_generated.py:34-49 | decoding an encoding gives the name back exactly when no slash is followed by 0 to 3 and every escaped character fits four hex digits |
| JniNames.SwallowedSlashCollides | jni/jvm/validate_generated.py:37-40 | outside that range two names share an encoding: a slash before 1 reads as an underscore |
| JniNames.WideCharacterCollides | jni/jvm/validate_generated.py:47-48 | a fifth hex digit reads as the next character: if a character of five digits or more and the character of its digits but the last are both escaped, as U+F0000 and U+F000 are, and the last digit is alphanumeric, a name beginning with the one and a name beginning with the other and that digit share their encoding |
| JniNames.SymbolIsEncodedPath | jni/jvm/validate_generated.py:59-61 | a symbol is the encoding of class path, slash, method |
| JniNames.SymbolsDiffer | jni/jvm/validate_generated.py:59-61 | declarable methods share a symbol exactly if they are the same |
| JniNames.NativeSymbols | jni/jvm/validate_generated.py:52-61 | the set collected for a class is the set of its methods' symbols |
| JniNames.SymbolsSpeakForNatives | jni/jvm/validate_generated.py:123-129 | for any set of exported strings: nothing missing means every declared method is exported; nothing extra, exactly that all of them are symbols of methods and no undeclared method is among them; both, that the counts agree |
| JniDescriptors.FieldReadsBack | jni/jvm/validate_generated.py:15-31 | a reader recovers any type name from its descriptor whatever follows: the descriptors are prefix-free |
| JniDescriptors.BuildCallbackDescriptor | jni/jvm/validate_generated.py:62-70 | the loop concatenates the parameters' descriptors |
| JniDescriptors.CallbacksAgreeIff | jni/jvm/validate_generated.py:62-70 | two callbacks of a contract have equal descriptors exactly when their parameter types are equal |
| JniDescriptors.PrefixIsSlashed | jni/jvm/validate_generated.py:31 | the package with a slash exactly for each dot, then slash, outer class, dollar |
| JniDescriptors.PrimitivesAreThese | jni/jvm/validate_generated.py:18-30 | the primitive descriptors and String |
| JniDescriptors.ReferencesAreThese | jni/jvm/validate_generated.py:15-31 | arrays of anything, and nested classes |
| JniDescriptors.CallbacksAreThese | jni/jvm/validate_generated.py:65-70 | the parameters in order between parentheses, then void |
| Reconnect.RunsStaySound | cpp/examples/reconnect/reconnect.cpp:57-96 | the invariant that relates entries, live connections and pending callbacks survives every interleaving in which no reconnect overtakes a callback, with any number of errors |
| Reconnect.EveryRunIsAccounted | cpp/examples/reconnect/reconnect.cpp:59-93 | in each of these runs the assertion never fails; a live connection whose add completed is that of exactly one entry, marked connected; a connected entry with a dead handle has its callback between remove and mark |
| Reconnect.SafeIffNeverOvertakes | cpp/examples/reconnect/reconnect.cpp:64-93 | a run is at every point safe from a failing assertion, however the pass and the callbacks under way are finished, if and only if no reconnect in it overtakes a callback |
| Reconnect.OvertakingFails | cpp/examples/reconnect/reconnect.cpp:64-89 | from any reachable state an overtaking reconnect can be continued to a failing assertion without a new connection or error |
| Reconnect.OneErrorEachIsAccounted | cpp/examples/reconnect/reconnect.cpp:59-93 | with at most one error per connection no reconnect overtakes, the same holds, and a marking callback finds its entry still connected |
| Reconnect.MarkFinds | cpp/examples/reconnect/reconnect.cpp:64-72 | a callback about to mark finds its entry, and if no connection reported twice finds it connected |
| Reconnect.QuietMeansExact | cpp/examples/reconnect/reconnect.cpp:59-93 | in such a run, with no callback pending and the lock free, the flags say exactly what is alive |
| Reconnect.PassVisitsAll | cpp/examples/reconnect/reconnect.cpp:76-93 | every pass of the loop comes to all entries once and in order, whatever errors arrive meanwhile: connected ones are passed over, others tried, and an entry has the new handle and is connected afterwards exactly if its add succeeded |
| Reconnect.UrlsStay | cpp/examples/reconnect/reconnect.cpp:49-55 | the entries are the given URLs in order, unconnected at first, and no run changes the URLs |
| Reconnect.CallbackSteps | cpp/examples/reconnect/reconnect.cpp:59-73 | a callback removes its own connection only, and marks its own entry only |
| Reconnect.SecondErrorFailsTheAssertion | cpp/examples/reconnect/reconnect.cpp:64-69 | the overtaking is reachable: two errors of one connection, the second told after the reconnect, fail the assertion |
| MarkdownMeaning.TextSurvives | cpp/tools/generate_markdown_from_doxygen_xml.py:79-237 | up to whitespace the output's own text is the document's lead, child and tail text in order, with the XML of unhandled children in its place, but for skipped children and the sections that render empty |
| MarkdownMeaning.MarkupNests | cpp/tools/generate_markdown_from_doxygen_xml.py:127-230 | every mark opened, HTML or Markdown, is closed, and they nest |
| MarkdownMeaning.HtmlIsPureIff | cpp/tools/generate_markdown_from_doxygen_xml.py:127-230 | HTML rendering emits no Markdown marker exactly if paragraphs are on or no note is shown |
| MarkdownMeaning.MarkdownIsPureIff | cpp/tools/generate_markdown_from_doxygen_xml.py:112-119 | Markdown rendering emits no HTML tag exactly if no list is shown below |
| MarkdownMeaning.ParagraphsIff | cpp/tools/generate_markdown_from_doxygen_xml.py:154-161 | no paragraph tag with paragraphs off; in HTML some exactly if they are on and a paragraph or note is shown |
| MarkdownMeaning.ListsAreHtml | cpp/tools/generate_markdown_from_doxygen_xml.py:112-119 | a list as a child, with all below it, is HTML whatever surrounds it, so it is free of Markdown exactly if paragraphs are on or it shows no note |
| MarkdownStrings.MarkdownAnyTag | cpp/tools/generate_markdown_from_doxygen_xml.py:57-237 | the recursive routine on strings returns what the rendering shows, or fails exactly if it comes upon a reference of unknown kind |
| MarkdownStrings.ChildText | cpp/tools/generate_markdown_from_doxygen_xml.py:93-119 | the loop over the children, when it fails, and when the parent's code markup is dropped |
| MarkdownStrings.OneChild | cpp/tools/generate_markdown_from_doxygen_xml.py:94-122 | what a child contributes: nothing, its rendering, as HTML for a list, its XML where the tag or kind is not handled, or a failure |
| MarkdownStrings.ShownStrip | cpp/tools/generate_markdown_from_doxygen_xml.py:161 | stripping the string strips layout and text only: no markup is ever cut |
| MarkdownLaws.LinksLead | cpp/tools/generate_markdown_from_doxygen_xml.py:170-204 | the link of a member reference, whose page is all before the last underscore of its id, of a compound reference and of a URL, in both forms |
| MarkdownLaws.CutAtTheLast | cpp/tools/generate_markdown_from_doxygen_xml.py:178 | the last underscore is where an id is cut, and without one it is not |
| MarkdownLaws.MarksAreThese | cpp/tools/generate_markdown_from_doxygen_xml.py:127-161 | which mark stands round which tag, letter for letter, and none round code that holds a reference |
| MarkdownLaws.ListsAreThese | cpp/tools/generate_markdown_from_doxygen_xml.py:158-169 | lists, items, what stands for itself and what for nothing |
| MarkdownLaws.NotesAreThese | cpp/tools/generate_markdown_from_doxygen_xml.py:215-227 | the three kinds of notes in their three forms |
| MarkdownLaws.ChildrenContribute | cpp/tools/generate_markdown_from_doxygen_xml.py:93-122 | what each child adds, by its tag |
| MarkdownLaws.StripIsTrim | cpp/tools/generate_markdown_from_doxygen_xml.py:161 | stripping takes all whitespace from both ends and nothing else |
| MarkdownLaws.EscapingIsUndone | cpp/tools/generate_markdown_from_doxygen_xml.py:122 | what follows a child left as XML can be read back from its escaped form |
| FtpRemove.RemoveDirectory | cpp/examples/ftp_client/ftp_client.cpp:93-118 | terminates; leaves the tree pruned of exactly the directories at or below the path without a file beneath; succeeds exactly if the path was a directory without files |
| FtpRemove.Server.RemoveDirectory | cpp/src/system_tests/ftp_remove_dir.cpp:91-94 | the server assumed: an empty directory goes, anything else is refused and stays |
| FtpRemove.ClearedIsEmptyIff | cpp/examples/ftp_client/ftp_client.cpp:104-117 | with the child directories pruned the directory is empty exactly if it had no file |
| FtpRemove.PrunedIsLeast | cpp/examples/ftp_client/ftp_client.cpp:93-118 | no sequence of removals at or below the path could leave less |
| FuzzPackets.ProcessFuzzData | cpp/src/fuzz_tests/mavlink_fuzzer.cpp:333-395 | writes the first messages back to back, nothing else and nothing past the buffer, and stops early only for want of room; the serializer may count its packets |
| FuzzPackets.FillMessage | cpp/src/fuzz_tests/mavlink_fuzzer.cpp:350-378 | which bytes of a chunk become sequence number, id and payload |
| FuzzPackets.ProcessFuzzInput | cpp/src/fuzz_tests/mavlink_fuzzer.cpp:397-434 | for 3 to 1024 bytes the 2048-byte buffer never runs short: all messages are passed on |
| FuzzPackets.MessagesHoldTheInput | cpp/src/fuzz_tests/mavlink_fuzzer.cpp:340-392 | the messages hold the input in order but for one byte a chunk and fewer than three at the end |
| FuzzPackets.HeadersAreOurs | cpp/src/fuzz_tests/mavlink_fuzzer.cpp:340-378 | every message is from system 1, component 1, with at most 252 bytes; there are as many as whole chunks, and one more for a rest of three or more |
| FuzzPackets.WiredOneByOne | cpp/src/fuzz_tests/mavlink_fuzzer.cpp:380-390 | each is serialized once, behind those before it |
| Watchdog.NeitherEarlyNorLate | cpp/src/fuzz_tests/mavlink_fuzzer.cpp:80-103 | it aborts only while running and more than a timeout after the last reset, and never lets more than a timeout and a half pass, but for the slack by which a poll is late |
| Watchdog.AbortsAreStalls | cpp/src/fuzz_tests/mavlink_fuzzer.cpp:69-103 | told from the events alone: an abort means no stop before it and more than a timeout since the last reset; without a stop no more than a timeout and a half and the slack ever passes since it |
| Watchdog.PollsDecide | cpp/src/fuzz_tests/mavlink_fuzzer.cpp:86-101 | a poll ends the thread after a stop, aborts after more than a timeout, and waits on otherwise |
| Watchdog.StoppedNeverAborts | cpp/src/fuzz_tests/mavlink_fuzzer.cpp:56-66 | once the flag is cleared no abort follows, however the waits end |
| Watchdog.StallAborts | cpp/src/fuzz_tests/mavlink_fuzzer.cpp:80-103 | left alone it does abort, within the bound, whatever the timeout, if only polls take time |
| LocationWalk.FakeLocationProvider.Report | cpp/examples/follow_me/fake_location_provider.cpp:43-60 | one pass of the loop body: a report and a step, or the end after the fortieth |
| LocationWalk.FakeLocationProvider.Stop | cpp/examples/follow_me/fake_location_provider.cpp:29-37 | the thread finishes what it is in the middle of, at most one more report, and is gone |
| LocationWalk.FakeLocationProvider.RequestLocationUpdates | cpp/examples/follow_me/fake_location_provider.cpp:16-27 | the walk resumes where it stopped |
| LocationWalk.FakeLocationProvider.RunUndisturbed | cpp/examples/follow_me/fake_location_provider.cpp:39-63 | left alone it reports the whole square, to its own callback, and stands at its start again |
| LocationWalk.AnyRun | cpp/examples/follow_me/fake_location_provider.cpp:16-63 | whatever the requests, stops and thread steps, all reports together are a prefix of one forty-point walk |
| LocationWalk.WalkCloses | cpp/examples/follow_me/fake_location_provider.cpp:41-55 | the walk ends at its start and its corners are a square's |
| LocationWalk.StepByStep | cpp/examples/follow_me/fake_location_provider.cpp:41-55 | every step is four metres along one side: ten south, ten east, ten north, ten west |

## Findings

Where the code does not do what its comments or names promise, each with a proof:

- cpp/examples/gimbal_manager/gimbal_manager.cpp:607-609: a GIMBAL_MANAGER_SET_PITCHYAW with a null pitch or yaw, which the lines below it provide for, ends in an exception of `json::value` while it is logged (`GimbalRuns.OnlyNullsThrow`, `GimbalRuns.RatesOnlyThrows`).
- cpp/examples/gimbal_manager/gimbal_manager.cpp:640-648: setting the flag NEUTRAL makes no difference to what a message does (`GimbalRuns.NeutralChangesNothing`).
- cpp/examples/gimbal_manager/gimbal_manager.cpp:304-344: where the earth-frame bit turns the yaw, DO_GIMBAL_MANAGER_PITCHYAW stores another yaw than the message form (`GimbalRuns.PitchyawFormsAgree`).
- cpp/examples/reconnect/reconnect.cpp:69: the assertion fails if a reconnect overtakes a callback (`Reconnect.SafeIffNeverOvertakes`, `Reconnect.SecondErrorFailsTheAssertion`).
- docs/.vitepress/get_sidebar.js:126-219: a list that does not start at level 0, or rises by more than one level, is not parsed as written (`SidebarOutline.ListsAsWrittenIffOutline`).
- jni/jvm/validate_generated.py:34-49: the encoding of a name with a slash before 0 to 3, or with an escaped character beyond four hex digits, cannot be undone (`JniNames.DecodableIff`), and such names can collide (`JniNames.SwallowedSlashCollides`, `JniNames.WideCharacterCollides`).
- cpp/tools/generate_markdown_from_doxygen_xml.py:215-226: with paragraphs off a note is Markdown even where HTML is asked for (`MarkdownMeaning.HtmlIsPureIff`).

## Left out

- The SDK core and plugins: their sources are not part of this model.
- JSON parsing, message sending, printing, sleeping and command-line handling: handlers start from decoded fields. The receiver sends every field and a NaN as null, so `None` stands for null; the log line that throws on one is modelled.
- Floating-point rounding and NaN; cosine, arc tangent, hypotenuse, quaternion and unit conversion are arbitrary functions.
- The gimbal device's command handler, which only acknowledges requests for its information, and the prints that announce a new manager or setpoint.
- GIMBAL_MANAGER_STATUS and GIMBAL_DEVICE_ATTITUDE_STATUS streaming: they read the state and change nothing.
- Regular-expression matching, title unescaping and URL rewriting of the sidebar: lines are triples of indent, title and link.
- Java source scanning by regular expressions, `nm` output and file walking of the validator: it starts from declarations; which characters are alphanumeric is a parameter.
- The XML of an unhandled element: a given string between angle brackets.
- MAVLink serialization and checksums: any function of the message and the number of packets before it that emits at most 280 bytes.
- ListDirectory: the FTP server is alone with this client, and lists every entry of a directory.
- Watchdog.StallAborts: by how much a poll is late is bounded by a given slack, since nothing in the code bounds it.
- LocationWalk.FakeLocationProvider.RequestLocationUpdates: which of two callbacks gets the report made while one replaces the other is not modelled, because the positions do not depend on it.
- C and JNI wrappers, the remaining examples, code generators and system tests: straight-line use of the interface.
