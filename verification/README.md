# AppleALC verification model

Dafny models of the four parts of AppleALC that keep state or transform data, with proofs about them.
`dafny verify dfyconfig.toml` checks everything.

| files | models |
|---|---|
| `AlcState.dfy`, `AlcEnabler.dfy`, `AlcRuns.dfy`, `AlcIds.dfy`, `AlcDevices.dfy` | the run-time state machine of `AppleALC/kern_alc.cpp`: device discovery, kext-load events, codec filter, NVIDIA id allocator, routing |
| `PinConfig.dfy`, `PinCodecs.dfy` | the pin configuration and power hooks of the same file, over shared mutable dictionaries, for one codec and for several |
| `PropertyLists.dfy`, `Declarations.dfy`, `ResourceConverter.dfy` | the compiler from property lists to C++ tables (`ResourceConverter/main.mm`) |
| `IndentParser.dfy`, `CodecGraph.dfy` | the parser and the widget graph of `hda-tools/codecgraph.py` |
| `ConvertVerbs.dfy`, `VerbDigits.dfy`, `Verbit.dfy`, `VerbRoundTrip.dfy`, `HexText.dfy` | the verb tools `hda-tools/convert.sh` and `hda-tools/verbit.sh`, alone and together |
| `Values.dfy` | types that several of them share |

## What is proved

**Run-time state machine.** `AlcEnabler.AlcEnabler` is the class with its fields updated in place. Each method is
specified by a function of `AlcState` on the whole state, and `AlcRuns` and `AlcIds` prove what these functions keep
over any sequence of events; `AlcRuns.SendAll` connects the two for any events sent to an object. Progress bits only
grow; codecs are loaded exactly if the codec list is not empty, and only after the controllers; at most one controller
can be scanned, so there is at most one codec. The codec filter keeps exactly the supported codecs in order. Of the
hooks, executeVerb and the controller start are requested at most once; the four AppleHDA callbacks are requested
exactly by the AppleHDA events after which a codec with files is in the list. Between any two states of a run, patches
change only from asking for an NVIDIA id to one that was free before, no two to the same, and ids of devices that are
present are never handed out. After a kext event, a patch in the NVIDIA entry of a controller is left asking only if
all sixteen ids are used. A kext event keeps the number of used ids and asking patches together; over a run this
number grows by exactly the ids that updates mark for the first time. A pass over the controllers applies exactly the
patches that the tables hold when it is over. `AlcDevices` says field by field which controllers are recorded for which
devices, which table entry each one gets, and which scan decides about the codec.

**Pin configuration.** The first initialisation of a codec replaces the device's list by one fresh copy of the first
matching entry that differs in the layout id only. If wake verbs are wanted the codec has a second, separate copy with
the data swapped. If the entry has both data as data, the boot copy can be rebuilt from it exactly if there was no
BootConfigData before; if it has wake data only, exactly if there was no ConfigData of another type; nothing else is
ever lost. No dictionary that existed before is changed. `PinConfig.WholeRun` performs any sequence of calls for one
codec: later calls for it change nothing but the sleep flag, and the original initialisation is forced exactly at the
wake-ups if there is a wake copy, and never otherwise. Which call is the first is a property of the codec, so codecs
that share a config device can rewrite its list one after another. `PinCodecs.FirstCallsFor` says exactly which of them
do: those with an audio layout, as long as the original list has a target and all earlier codecs with an audio layout
have the one that targets have; `PinCodecs.TwoCodecsOneDevice` is an input. The sleep flag and the forced calls of a
codec follow its own power changes alone, whatever calls for other codecs come in between (`PinCodecs.CallsForAll`).

**ResourceConverter.** The output is a list of declarations, and `Declarations.Eval` reads them in order. A program is
good if every array is declared once and mentioned only after its declaration, with the right count wherever the
generator does not depend on its input for that; it is clean if in addition there is no `#error` line, no kext index
"(null)", no wrong count at a patch array and no constant declared twice. An `#error` line is no element of its array,
while the count that the table is paired with still includes it. `ResourceConverter.Generate` always ends with a good
program whose tables and constants denote the property lists, with buffers shared by contents and numbered without
gaps. `PropertyLists.AsListed` states what they have to say key by key, defaults included, without any of the functions
that the generators use, and `Generate` ensures it. The program is clean if and only if no two kexts have the same normalised id and, in every codec of a listed vendor and in
every controller, each patch has Find and Replace of the same length and a known kext.

**codecgraph.** Reading the tree in preorder reads the file, the parent of a line is exactly the nearest preceding
line that is less indented, and parsing undoes printing exactly for the column layouts that follow the tree. The
outputs are the transpose of the inputs with multiplicity; every connection edge joins ids that the two nodes' own
dumps declare, and there are as many as inputs, between any two nodes and in all. No edge bypasses an amplifier: it
leaves a pin at its output half and any other node behind the output amplifier that is printed for it, and enters
before the input amplifier. Amplifier edges can dangle at pins; the exact condition is proved.

**Verb tools.** convert.sh conserves verbs if and only if the pin verbs have bits 27 to 31 clear and no byte of a node
is set twice. Its "other" output is stable when fed back, and neither separators nor upper and lower case matter. verbit.sh makes associations
unique if and only if there are at most 14 pins, or 15 of which one has nibble f, and exactly within that capacity
correcting twice changes nothing. The two scripts together print every pin default again, each once and nothing else.
`VerbRoundTrip.CorrectPinDefaults` goes from pin defaults through the three correction passes: exactly within the
capacity all verbs have eight digits, and then convert prints one entry per pin that differs from the pin default in
location, misc nibble and sequence, and has an association of its own, the original one for a first occurrence.

## Where the code differs from what is written about it

- `hda-tools/verbit.sh:137` asks for location 2 to become 1; lines 290-296 also turn every location other than 1 and
  2 into 0. `Verbit.CorrectLocation` follows the code, and `Verbit.OnlyTwoIsChangedIff` says for which verbs it does no
  more than the comment asks for.
- `hda-tools/verbit.sh:134` asks for unique associations; `Verbit.AssociationsUniqueIff` gives the capacity up to
  which they are. Beyond it the script emits verbs of seven digits; `Verbit.FifteenPinsAreTooMany` is an input.
- `ResourceConverter/main.mm:238` answers a patch of unequal lengths with an `#error` line and goes on, pairing the
  table with a count that is too large; `main.mm:78` names a constant after a shortened kext id, which two kexts can
  share. `ResourceConverter.DroppedPatch` and `ResourceConverter.IdsThatClash` are inputs.
- `AppleALC/kern_alc.cpp:694` passes the platform constant where the no-patch flag is expected and the flag where the
  platform is expected (`AppleALC/kern_alc.hpp:272`). `AlcState.AddAnalog` follows the code.

## Model

| member | source | states |
|---|---|---|
| `IndentParser.LineList.ParseItem` | hda-tools/codecgraph.py:36-40 | pops one line off the shared list, stripped, and gives it the items parsed from there on |
| `IndentParser.LineList.ParseItemList` | hda-tools/codecgraph.py:42-50 | items and number of lines popped are those of the reference parser on the whole file; terminates by the lines that remain |
| `IndentParser.ReadItems` | hda-tools/codecgraph.py:428-431 | the forest of a whole file; its preorder is the stripped file |
| `IndentParser.ParseConsumesInOrder` | hda-tools/codecgraph.py:42-50 | a call reads a stretch of lines once and in order, all deeper than its level, and stops at the end or at a line that is not deeper |
| `IndentParser.PreorderIsTheInput` | hda-tools/codecgraph.py:36-50 | every line is exactly one node and preorder is file order |
| `IndentParser.ParentIsNearestShallower` | hda-tools/codecgraph.py:42-50 | p is the parent of line i if and only if p is the nearest preceding line with strictly smaller indentation, or the root if there is none |
| `IndentParser.PrintedLine` | hda-tools/codecgraph.py:29-38 | a line printed at a column has that indentation and strips to its label |
| `IndentParser.ParseShown` | hda-tools/codecgraph.py:42-50 | a well laid forest followed by a line that is not deeper is read back, and the parser stops there |
| `IndentParser.LayoutWellLaid` | hda-tools/codecgraph.py:42-50 | whatever the file, the columns of the tree that is read follow the tree |
| `IndentParser.ParseUndoesPrintIff` | hda-tools/codecgraph.py:29-50 | parsing a printed forest returns it if and only if children are deeper than parents and no sibling is deeper than the one before |
| `CodecGraph.TextIdentifiesId` | hda-tools/codecgraph.py:213-281 | two printed graph ids are the same text only for the same place of the same node |
| `CodecGraph.TextOfPorts` | hda-tools/codecgraph.py:210-281 | the text of every id of a node below 256: two hex digits, and the suffix of the place |
| `CodecGraph.Node.NewOutput` | hda-tools/codecgraph.py:200-201 | appends to the output list |
| `CodecGraph.CodecInfo.GetNode` | hda-tools/codecgraph.py:462-469 | returns the node, or adds one fresh input-less fake node; a known id adds nothing |
| `CodecGraph.CodecInfo.AddOutputTo` | hda-tools/codecgraph.py:472-474 | adds one output to the looked-up node and changes nothing else |
| `CodecGraph.CodecInfo.AddOutputsOf` | hda-tools/codecgraph.py:473-474 | adds one output per input of a node |
| `CodecGraph.CodecInfo.ReverseEdges` | hda-tools/codecgraph.py:471-474 | visits exactly the nodes that were there, each once, whatever the order |
| `CodecGraph.CodecInfo.CreateOutLists` | hda-tools/codecgraph.py:471-474 | outputs are the transpose of the inputs, every referenced id has a node, exactly the missing nodes were added, no node object was replaced |
| `CodecGraph.OutListsAreTransposed` | hda-tools/codecgraph.py:471-474 | the same for every order of the nodes, with multiplicity |
| `CodecGraph.AddOutputsAt` | hda-tools/codecgraph.py:473-474 | how often an id occurs among a node's outputs after one node's inputs have been reversed |
| `CodecGraph.BuildOutputsAt` | hda-tools/codecgraph.py:471-474 | how often after the nodes visited so far, and which nodes exist then |
| `CodecGraph.CodecInfo.DumpConnsTo` | hda-tools/codecgraph.py:414-419 | prints one edge per input; get_node adds nothing |
| `CodecGraph.Node.DumpOutAmpsTo` | hda-tools/codecgraph.py:364-366 | the output amplifier, if the node has one and is connected |
| `CodecGraph.Node.DumpInAmpsTo` | hda-tools/codecgraph.py:368-379 | the input amplifiers, one for each input of a mixer, or one in all |
| `CodecGraph.Node.DumpDeclsTo` | hda-tools/codecgraph.py:392-412 | the declarations of one node, half by half for a pin |
| `CodecGraph.CodecInfo.DumpNodeTo` | hda-tools/codecgraph.py:392-419 | prints declarations and then edges of one node |
| `CodecGraph.CodecInfo.DumpNext` | hda-tools/codecgraph.py:488-489 | one turn of the loop over the nodes |
| `CodecGraph.CodecInfo.DumpGraph` | hda-tools/codecgraph.py:483-490 | prints every node once, in some order, and leaves the graph as it was |
| `CodecGraph.DeclaredIdIsOwn` | hda-tools/codecgraph.py:336-383 | a node's dump declares ids of that node only |
| `CodecGraph.OutIdDeclared` | hda-tools/codecgraph.py:222-229 | the output id of a node with outputs is declared by its own dump |
| `CodecGraph.InIdDeclared` | hda-tools/codecgraph.py:248-255 | the input id for each of a node's inputs is declared by its own dump |
| `CodecGraph.ConnEdgeAnchored` | hda-tools/codecgraph.py:414-419 | a connection edge of one node's dump joins ids declared by the dumps of origin and target |
| `CodecGraph.ConnectionEdgesAreAnchored` | hda-tools/codecgraph.py:392-419 | the same for every connection edge of the whole graph |
| `CodecGraph.LinesOfNode` | hda-tools/codecgraph.py:336-383 | exactly which nodes, amplifiers and amplifier edges the dump of a node has, by its type, capabilities and connections, and which way each amplifier edge runs |
| `CodecGraph.AmpsOfAll` | hda-tools/codecgraph.py:364-383 | an amplifier is printed in the whole graph if and only if its node has it |
| `CodecGraph.PortsOfEdge` | hda-tools/codecgraph.py:222-255 | at which place of its origin and of its target a connection edge ends, by their types and capabilities |
| `CodecGraph.NoAmpIsBypassed` | hda-tools/codecgraph.py:414-419 | every printed connection edge leaves a pin at its output half and any other node behind the output amplifier that is printed for it, or else at the node; it enters a pin at its input half, any other node before the input amplifier that is printed for this origin or for all, or else at the node |
| `CodecGraph.OutputThroughMixer` | hda-tools/codecgraph.py:414-419 | an audio output with an amplifier, a mixer and a pin: the two edges |
| `CodecGraph.PrintedEdgesAreTheInputs` | hda-tools/codecgraph.py:414-419 | between any two nodes as many edges are printed as the connection is listed |
| `CodecGraph.EdgesAreInputsInNumber` | hda-tools/codecgraph.py:414-419 | the number of all printed connection edges is the number of inputs of all printed nodes |
| `CodecGraph.AmpEdgesDeclaredIff` | hda-tools/codecgraph.py:364-383 | all amplifier edges of a node join declared ids if and only if it is not a pin whose amplifier hangs on its hidden half |
| `CodecGraph.OutputPinDangles` | hda-tools/codecgraph.py:364-376 | a pin with an output amplifier and no inputs: the amplifier's edge starts at an id that is not declared |
| `ConvertVerbs.Converter.AddToArray` | hda-tools/convert.sh:13-27 | ORs a payload into one byte of one pin and marks the byte; every other pin and the unknown list stay |
| `ConvertVerbs.Converter.AddToUnknown` | hda-tools/convert.sh:30-35 | appends to the unknown list |
| `ConvertVerbs.Converter.AddVerb` | hda-tools/convert.sh:53-70 | one verb goes to the byte its command names, or to the unknown list |
| `ConvertVerbs.Converter.AddDigit` | hda-tools/convert.sh:48-52 | every eighth digit completes a verb; the digits kept are those of the incomplete group |
| `ConvertVerbs.Converter.Tokenize` | hda-tools/convert.sh:43-73 | the arrays hold what the hex digits of the input, in groups of eight, decode to |
| `ConvertVerbs.Converter.ConfigEntries` | hda-tools/convert.sh:80-88 | one entry for each complete node below 256, in order |
| `ConvertVerbs.Converter.IncompleteText` | hda-tools/convert.sh:109-132 | the known bytes of incomplete nodes as verbs |
| `ConvertVerbs.Converter.OtherText` | hda-tools/convert.sh:107-139 | the text of the other verbs, which reads back as these verbs |
| `ConvertVerbs.AppendVerb` | hda-tools/convert.sh:136-137 | adds one verb to the list, separated by a blank if there is one before |
| `ConvertVerbs.PinOr` | hda-tools/convert.sh:23-26 | the byte is marked and the payload ORed in; the other three bytes and marks stay |
| `ConvertVerbs.CompleteIffAllMarks` | hda-tools/convert.sh:83 | fill is 0x01010101 if and only if all four bytes have been set |
| `ConvertVerbs.FeedAllKeepsOk` | hda-tools/convert.sh:13-35 | after any verbs: nodes below 128, only the four marks, bytes without a mark are zero, no pin verb among the unknown |
| `ConvertVerbs.HasIffSet` | hda-tools/convert.sh:56-67 | a byte is marked if and only if some verb of the input sets it |
| `ConvertVerbs.VerbForFields` | hda-tools/convert.sh:115-127 | a printed verb has the node, command and payload it was made from |
| `ConvertVerbs.JoinedReadsBack` | hda-tools/convert.sh:115-137 | the printed list of verbs is tokenized to the same verbs |
| `ConvertVerbs.SeparatorsDoNotMatter` | hda-tools/convert.sh:45-49 | inserting characters that are no hex digits anywhere never changes the decoded verbs |
| `VerbDigits.DigitValues` | hda-tools/convert.sh:47-51 | which characters are digits, and the value of each by its place among the digits, lower or upper case |
| `VerbDigits.DigitsPrinted` | hda-tools/convert.sh:115-136 | digits are printed in lower case |
| `VerbDigits.CaseDoesNotMatter` | hda-tools/convert.sh:43-73 | a text and the same text in lower case leave the same arrays |
| `VerbDigits.UpperCaseVerbs` | hda-tools/convert.sh:43-57 | two verbs in upper case, for nodes 0x1b and 0x1a |
| `ConvertVerbs.CleanAndDistinctIsKept` | hda-tools/convert.sh:13-73 | for clean verbs without repeats the arrays hold exactly the input verbs |
| `ConvertVerbs.KeptOnlyIfDistinct` | hda-tools/convert.sh:23-26 | the arrays never hold more verbs than were given, and as many only if no byte was set twice |
| `ConvertVerbs.VerbsAreConservedIff` | hda-tools/convert.sh:13-139 | config entries as four verbs each together with the other verbs are a permutation of the input if and only if pin verbs have bits 27 to 31 clear and no byte is set twice |
| `ConvertVerbs.OtherAddressIsLost` | hda-tools/convert.sh:53-57 | the verb 11271c10 of a codec with address 1 does not come out again |
| `ConvertVerbs.FeedPinVerbs` | hda-tools/convert.sh:114-129 | feeding a pin's printed bytes back stores the same pin |
| `ConvertVerbs.FeedIncomplete` | hda-tools/convert.sh:109-132 | feeding the printed bytes of incomplete nodes back stores exactly those nodes |
| `ConvertVerbs.OthersAreStable` | hda-tools/convert.sh:107-139 | the other verbs fed back as text give no config entry and the same list again |
| `ConvertVerbs.EntriesIff` | hda-tools/convert.sh:82-87 | an entry is printed if and only if its node is visited and complete, with the node's value |
| `ConvertVerbs.PrintedEntries` | hda-tools/convert.sh:80-88 | exactly the complete nodes below 256 are printed, each once |
| `Verbit.ReadAssociations` | hda-tools/verbit.sh:146-160 | the association nibbles, with 0 counted as 1 |
| `Verbit.FindUnused` | hda-tools/verbit.sh:162-177 | the values 1 to 14 that no pin uses, ascending |
| `Verbit.OtherAssociations` | hda-tools/verbit.sh:187-195 | all associations but one |
| `Verbit.CorrectAssociations` | hda-tools/verbit.sh:146-234 | the loop with its lists computes the closed form: first occurrences stay, the k-th repeat takes the k-th unused value |
| `Verbit.UnusedValues` | hda-tools/verbit.sh:164-177 | exactly the unused values from i to 14, strictly ascending |
| `Verbit.RepeatsAreExcess` | hda-tools/verbit.sh:201-214 | repeats are the pins in excess of the different values |
| `Verbit.EnoughUnusedIff` | hda-tools/verbit.sh:164-214 | there are enough unused values if and only if there are at most 14 pins, or 15 with value 15 present |
| `Verbit.NibblesDiffer` | hda-tools/verbit.sh:201-229 | with enough unused values no two pins end up with the same nibble |
| `Verbit.UniqueIffEnoughUnused` | hda-tools/verbit.sh:184-234 | emitted verbs are well formed, with sequence 0 and different nibbles, if and only if unused values cover the repeats |
| `Verbit.AssociationsUniqueIff` | hda-tools/verbit.sh:146-234 | the same in terms of the input: at most 14 pins, or 15 one of which has nibble f |
| `Verbit.EightDigitsIff` | hda-tools/verbit.sh:212-229 | all emitted verbs have eight digits exactly within the capacity |
| `Verbit.FifteenPinsAreTooMany` | hda-tools/verbit.sh:212-213 | fifteen pins with association 1: the last verb is emitted with seven digits |
| `Verbit.FirstOccurrencesAreKept` | hda-tools/verbit.sh:216-229 | a first occurrence keeps all but the sequence digit, a repeat keeps address, node and command, for any number of pins |
| `Verbit.CorrectingTwice71cIff` | hda-tools/verbit.sh:146-234 | the emitted verbs are verbs again and a second 71c pass changes nothing, if and only if there are at most 14 pins, or 15 one of which has nibble f |
| `Verbit.CorrectMisc` | hda-tools/verbit.sh:253-259 | clears the last digit of every 71d verb and keeps the rest |
| `Verbit.CorrectLocation` | hda-tools/verbit.sh:284-302 | the last digit of a 71f verb becomes 1 exactly for 1 and 2, otherwise 0; the rest stays |
| `Verbit.OnlyTwoIsChangedIff` | hda-tools/verbit.sh:287-298 | no location but 2 is changed if and only if all locations are 0, 1 or 2 |
| `Verbit.LocationThreeIsChanged` | hda-tools/verbit.sh:287-298 | the verb 01271f03 becomes 01271f00 |
| `Verbit.CorrectingTwice71d71f` | hda-tools/verbit.sh:253-302 | a second 71d or 71f pass changes nothing |
| `VerbRoundTrip.SplitPinIsQuad` | hda-tools/verbit.sh:76-86 | the four verbs of a pin default carry its node and commands 71c to 71f, and their payloads make up its value |
| `VerbRoundTrip.DecodeQuads` | hda-tools/convert.sh:43-73 | verbs of different nodes, printed on a line, decode to exactly one full pin each |
| `VerbRoundTrip.QuadsComeOut` | hda-tools/convert.sh:80-139 | convert prints exactly one entry for each, with its payloads, and no other verbs |
| `VerbRoundTrip.PinDefaultsRoundTrip` | hda-tools/verbit.sh:76-86 | for different nodes, splitting pin defaults and converting the verbs prints every pin default once and nothing else |
| `VerbRoundTrip.CorrectionIsQuad` | hda-tools/verbit.sh:213-298 | the correction passes keep node and command of every verb |
| `VerbRoundTrip.CorrectedPinsAreUnique` | hda-tools/verbit.sh:146-302 | within the capacity, the corrected verbs convert to exactly one printed entry per pin, with sequence 0 and pairwise different associations |
| `VerbRoundTrip.PassesOnOne` | hda-tools/verbit.sh:201-302 | what the three passes make of the verbs of one pin default, digit by digit |
| `VerbRoundTrip.CorrectPinDefaults` | hda-tools/verbit.sh:76-302 | from pin defaults over the three passes to what convert prints: eight digits exactly within the capacity; then exactly one entry per pin, the pin default with corrected location, misc and sequence and an association of its own |
| `Declarations.GoodPrograms` | ResourceConverter/main.mm:97-368 | a good program declares every array once and mentions it only after its declaration; if it is clean too, every constant once |
| `Declarations.HasIffDeclared` | ResourceConverter/main.mm:97-368 | in a good program an array or constant exists if and only if it has been declared |
| `Declarations.CleanIff` | ResourceConverter/main.mm:237-277 | a good program is clean if and only if no declaration has an error line, an unknown kext or a wrong patch count where it stands, or repeats a constant |
| `ResourceConverter.Converter.GenerateKexts` | ResourceConverter/main.mm:57-95 | the kext list denotes the kexts with their paths, the constants their numbers and the list's length, and the returned map sends every name to its place; clean exactly if no two normalised ids are the same |
| `ResourceConverter.Converter.WriteKextList` | ResourceConverter/main.mm:80-92 | the list and its length, after the path arrays |
| `ResourceConverter.Converter.FileLines` | ResourceConverter/main.mm:112-120 | rows of 24 bytes, only the last shorter, concatenate to the contents |
| `ResourceConverter.Converter.GenerateFile` | ResourceConverter/main.mm:97-129 | the returned reference denotes the file's contents with the right length, or null if there is none; a path is declared once |
| `ResourceConverter.Converter.GenerateRevisions` | ResourceConverter/main.mm:131-143 | the returned reference denotes the revision list, or null without one |
| `ResourceConverter.Converter.GenerateFileRows` | ResourceConverter/main.mm:152-159 | each row denotes its file, kernel bounds with defaults, and id |
| `ResourceConverter.Converter.GeneratePlatforms` | ResourceConverter/main.mm:145-168 | the returned reference denotes the platform files |
| `ResourceConverter.Converter.GenerateLayouts` | ResourceConverter/main.mm:170-193 | the returned reference denotes the layout files |
| `ResourceConverter.Converter.BufferIndex` | ResourceConverter/main.mm:207-257 | the index denotes the bytes; equal bytes share a buffer |
| `ResourceConverter.Converter.PatchRowFor` | ResourceConverter/main.mm:232-269 | a row denotes the source's find, replace, length, count, kext and kernel bounds; it is an error line exactly if the lengths differ |
| `ResourceConverter.Converter.GeneratePatches` | ResourceConverter/main.mm:224-281 | the reference denotes the patches of equal lengths, paired with the length of the whole list; the count is right if and only if no patch was dropped; clean exactly if all lengths match and all kexts are known |
| `ResourceConverter.CountIffLengths` | ResourceConverter/main.mm:237-277 | the paired count equals the number of elements if and only if all lengths match |
| `ResourceConverter.DroppedPatch` | ResourceConverter/main.mm:237-240 | a list with one patch of unequal lengths: no element, count 1 |
| `ResourceConverter.IdsThatClash` | ResourceConverter/main.mm:71-78 | the ids A.B and AB give the same constant |
| `ResourceConverter.Converter.GenerateCodecRow` | ResourceConverter/main.mm:300-309 | a codec row denotes its property list; its patch count is right exactly if all lengths match |
| `ResourceConverter.Converter.GenerateCodecs` | ResourceConverter/main.mm:283-319 | the vendor's table denotes its codecs in directory order, and their number is returned; clean exactly if their patches are |
| `ResourceConverter.Converter.GenerateVendors` | ResourceConverter/main.mm:353-368 | the vendor table denotes every vendor with its codecs, and its length constant is right |
| `ResourceConverter.Converter.WriteTable` | ResourceConverter/main.mm:365-367 | a table and its length constant |
| `ResourceConverter.Converter.GenerateControllerRow` | ResourceConverter/main.mm:327-345 | a controller row denotes its property list; its patch count is right exactly if all lengths match |
| `ResourceConverter.Converter.GenerateControllers` | ResourceConverter/main.mm:321-351 | the controller table denotes the controllers, and its length constant is right |
| `ResourceConverter.Generate` | ResourceConverter/main.mm:370-399 | the whole output is a good program whose tables and constants denote the three property lists and say what they say key by key, clean if and only if normalised ids differ and every patch has matching lengths and a known kext; no two buffers hold the same bytes, every file array belongs to exactly one path and holds its contents, and both are numbered without gaps |
| `ResourceConverter.TablesAreListed` | ResourceConverter/main.mm:57-399 | every row of the three tables says, key by key, what the property lists say: given values are taken over, missing kernels are "KernelPatcher::KernelAny", a missing count is "0", a missing platform "ControllerModInfo::PlatformAny"; ids are cut to 16 bits; patches and codecs are exactly those of matching lengths and of the vendor, in order |
| `ResourceConverter.PatchesAreListed` | ResourceConverter/main.mm:232-272 | the elements of a patch array are the patches of matching lengths, in order, each with its kext, bytes, size, count and kernels |
| `ResourceConverter.CodecsAreListed` | ResourceConverter/main.mm:292-319 | the codecs of a vendor are the directory entries that name it, in order, each with its revisions, files and patches |
| `ResourceConverter.ControllerIsListed` | ResourceConverter/main.mm:328-347 | the fields of a controller row, with the vendor's id by name, or 0 |
| `ResourceConverter.GivenKernelIsKept` | ResourceConverter/main.mm:258-267 | a patch with a minimal kernel and a count of its own, and one without |
| `ResourceConverter.WithoutFirst` | ResourceConverter/main.mm:71-74 | replacing a word by nothing: the first occurrence goes, and so on behind it; without an occurrence nothing changes |
| `ResourceConverter.IdsOfAppleKexts` | ResourceConverter/main.mm:71-78 | the constant of a kext below com.apple.driver or com.apple.iokit is called like the rest of its id |
| `ResourceConverter.FitsShares` | ResourceConverter/main.mm:97-258 | buffers are unique and numbered without gaps; file arrays too, each belonging to exactly one path and holding its contents |
| `ResourceConverter.TableRightIff` | ResourceConverter/main.mm:237-277 | a patch table has the right count and only known kexts if and only if lengths match and kexts are known |
| `ResourceConverter.CodecsRightIff` | ResourceConverter/main.mm:291-313 | the same for all codecs of a vendor |
| `ResourceConverter.TablesRightIff` | ResourceConverter/main.mm:237-277 | the same for all tables of the whole program |
| `AlcState.ListedKexts` | Resources/Kexts.plist:5-45 | the four kexts that the hooks are for are different places of the list |
| `AlcState.FirstFit` | AppleALC/kern_alc.cpp:777-809 | the first table entry that fits in vendor, device, platform, model and revision, or none |
| `AlcState.FirstVendor` | AppleALC/kern_alc.cpp:819-821 | the first vendor with this id |
| `AlcState.FirstCodec` | AppleALC/kern_alc.cpp:825-828 | the first codec with this id |
| `AlcState.NewCodec` | AppleALC/kern_alc.hpp:288-292 | the 32-bit id is split into two 16-bit halves that give it back |
| `AlcState.NextFree` | AppleALC/kern_alc.cpp:576-585 | the first unused id from the cursor on, all before it being used |
| `AlcState.FindKext` | AppleALC/kern_alc.cpp:532-541 | the first kext of the list with this load index |
| `AlcEnabler.AlcEnabler.constructor` | AppleALC/kern_alc.hpp:266-379 | the initial state |
| `AlcEnabler.AlcEnabler.InsertController` | AppleALC/kern_alc.hpp:272-282 | appends one controller |
| `AlcEnabler.AlcEnabler.DisableId` | AppleALC/kern_alc.cpp:167-169 | marks exactly the ids equal to the device |
| `AlcEnabler.AlcEnabler.UpdateGpu` | AppleALC/kern_alc.cpp:151-171 | one external GPU: a controller is added, its id marked if NVIDIA, or it is skipped |
| `AlcEnabler.AlcEnabler.UpdateProperties` | AppleALC/kern_alc.cpp:66-199 | controllers and marked ids after a whole update |
| `AlcEnabler.AlcEnabler.ValidateController` | AppleALC/kern_alc.cpp:776-808 | points a controller at the first entry that fits, the nested searches included |
| `AlcEnabler.AlcEnabler.ValidateControllers` | AppleALC/kern_alc.cpp:774-810 | the same for all, removing none |
| `AlcEnabler.AlcEnabler.GrabControllers` | AppleALC/kern_alc.cpp:680-708 | adds the analog controller if all its properties are there and validates all |
| `AlcEnabler.AlcEnabler.AppendCodec` | AppleALC/kern_alc.cpp:710-741 | goes on, stops, or stores a codec, depending on which properties are missing or no numbers |
| `AlcEnabler.AlcEnabler.BruteCodec` | AppleALC/kern_alc.cpp:751-768 | repeated scans of one controller until one stops |
| `AlcEnabler.AlcEnabler.GrabCodecs` | AppleALC/kern_alc.cpp:743-772 | the supported codecs below all controllers that can be scanned |
| `AlcEnabler.AlcEnabler.FindSupport` | AppleALC/kern_alc.cpp:818-842 | the three nested searches find the entry of a codec, if it is supported |
| `AlcEnabler.AlcEnabler.ValidateCodecs` | AppleALC/kern_alc.cpp:812-861 | erasing in place leaves the filtered list; terminates |
| `AlcEnabler.AlcEnabler.ChooseFreeId` | AppleALC/kern_alc.cpp:573-586 | a patch that asks gets the next free id, which is marked, and the cursor moves past it |
| `AlcEnabler.AlcEnabler.ApplyPatches` | AppleALC/kern_alc.cpp:872-885 | appends the patches for this kext and kernel |
| `AlcEnabler.AlcEnabler.EraseRedundantLogs` | AppleALC/kern_alc.cpp:511-529 | blanks log messages in the two kexts, three or two of them |
| `AlcEnabler.AlcEnabler.PatchController` | AppleALC/kern_alc.cpp:562-595 | one controller: ids for its entry, then patches unless it is not to be patched |
| `AlcEnabler.AlcEnabler.PatchControllers` | AppleALC/kern_alc.cpp:561-600 | all controllers, once they are loaded |
| `AlcEnabler.AlcEnabler.PatchCodec` | AppleALC/kern_alc.cpp:603-616 | one codec: routing is wanted if it has files, then patches |
| `AlcEnabler.AlcEnabler.PatchCodecs` | AppleALC/kern_alc.cpp:602-617 | all codecs, once they are loaded |
| `AlcEnabler.AlcEnabler.GrabDevices` | AppleALC/kern_alc.cpp:549-557 | controllers at the first event, codecs at later ones until some are found |
| `AlcEnabler.AlcEnabler.RouteHooks` | AppleALC/kern_alc.cpp:619-644 | the routing requests that depend on progress and kext |
| `AlcEnabler.AlcEnabler.ProcessKext` | AppleALC/kern_alc.cpp:531-648 | the whole state after one kext event |
| `AlcEnabler.AlcEnabler.UpdateResource` | AppleALC/kern_alc.cpp:650-678 | the request is answered if and only if some codec has a file for the controller's layout and this kernel; the answer is the first such file of the last such codec |
| `AlcDevices.UpdateRecords` | AppleALC/kern_alc.cpp:66-170 | an update adds at most one controller for built-in digital audio, with vendor 0x8086, the platform of the framebuffer and the ids of the HDAU, or of the graphics device if there is none, and then one for each card whose audio device may be injected, with its ids and flag, in order, and no others |
| `AlcDevices.GrabRecords` | AppleALC/kern_alc.cpp:680-708 | at the first kext event one controller for analog audio is added, if its four properties are there, with its ids and layout; then every controller points at the first suiting table entry |
| `AlcDevices.ValidatedIs` | AppleALC/kern_alc.cpp:774-810 | the first entry with the ids, platform or 0, a revision or none, and a common computer model |
| `AlcDevices.FirstDecisiveScan` | AppleALC/kern_alc.cpp:710-768 | the first scan that shows both properties decides: one codec with the halves of its id and its revision if both are numbers, or else none |
| `AlcRuns.UpdateKeeps` | AppleALC/kern_alc.cpp:66-199 | an update only appends controllers that cannot be scanned, and only marks ids |
| `AlcRuns.ScanAllOne` | AppleALC/kern_alc.cpp:743-769 | scanning finds at most one codec, and it belongs to the controller that can be scanned |
| `AlcRuns.SupportIsFirstEntry` | AppleALC/kern_alc.cpp:819-841 | a codec is given an entry if and only if that is the first codec entry of the first vendor entry and its revisions allow it |
| `AlcRuns.SupportedIsTheFilter` | AppleALC/kern_alc.cpp:812-861 | validation keeps exactly the supported codecs, in order, each pointing at its first entry |
| `AlcRuns.GrabKeepsProgress` | AppleALC/kern_alc.cpp:549-557 | grabbing keeps the invariant on bits, controllers and codecs |
| `AlcRuns.StepKeepsProgress` | AppleALC/kern_alc.cpp:531-648 | every event keeps the invariant and takes no progress bit back |
| `AlcRuns.ReachableStates` | AppleALC/kern_alc.cpp:549-617 | in every reachable state: codecs loaded iff the list is not empty, only after controllers; routing wanted only then; at most one scannable controller; at most one codec, supported and belonging to it |
| `AlcRuns.ProgressOnlyGrows` | AppleALC/kern_alc.cpp:549-642 | progress bits of any state of a run are still set at its end |
| `AlcRuns.SendOne` | AppleALC/kern_alc.cpp:35-46 | an event sent to an object takes its state one step |
| `AlcRuns.SendAll` | AppleALC/kern_alc.cpp:35-46 | any events sent to an object take its state through the run |
| `AlcRuns.SendFromStart` | AppleALC/kern_alc.cpp:33-46 | a new object that is sent any events ends in a reachable state |
| `AlcRuns.WantedIffFiles` | AppleALC/kern_alc.cpp:602-617 | after a kext event routing is wanted if and only if a codec with files is in the list |
| `AlcRuns.WhenDevicesAreGrabbed` | AppleALC/kern_alc.cpp:549-557 | every recognised event but AppleGFXHDA leaves controllers loaded; the codec list changes exactly at a detecting kext after an earlier such event while none are loaded |
| `AlcRuns.KextHooks` | AppleALC/kern_alc.cpp:543-644 | exactly which hooks one kext event requests, and how often |
| `AlcRuns.HooksAtMostOnce` | AppleALC/kern_alc.cpp:634-644 | in any run executeVerb and controller start are requested at most once, exactly when their bit is set |
| `AlcRuns.CallbacksIff` | AppleALC/kern_alc.cpp:619-627 | an event requests the four callbacks, once each, if and only if it is an AppleHDA event after which a codec with files is in the list |
| `AlcRuns.CodecsStay` | AppleALC/kern_alc.cpp:552-557 | loaded codecs are never replaced |
| `AlcRuns.LoadingEventRequests` | AppleALC/kern_alc.cpp:552-627 | an AppleHDA event after an earlier recognised kext that finds a supported codec with files requests the callbacks itself |
| `AlcRuns.LaterAppleHDARequests` | AppleALC/kern_alc.cpp:619-627 | after that, whatever happens in between, every AppleHDA event requests them again |
| `AlcIds.AllocPatchLater` | AppleALC/kern_alc.cpp:571-586 | one allocation changes no other patch, and the asking one to a free id; if it still asks the cursor is at the end |
| `AlcIds.PassHandsOutFreeIds` | AppleALC/kern_alc.cpp:562-588 | a pass over controllers that may share entries: only asking patches change, to different ids that were free; what still asks means no id is left |
| `AlcIds.StepLater` | AppleALC/kern_alc.cpp:531-648 | the same for a whole event of either kind |
| `AlcIds.IdsOverRuns` | AppleALC/kern_alc.cpp:562-588 | the same between any two states of a run |
| `AlcIds.RewrittenPatchesDiffer` | AppleALC/kern_alc.cpp:562-588 | over a run from the start: ids below the cursor are used, rewritten patches hold pairwise different ids, nothing else in the tables has changed |
| `AlcIds.RewrittenOnce` | AppleALC/kern_alc.cpp:574-582 | a rewritten patch is never rewritten again |
| `AlcIds.UsedIdsAreNotHandedOut` | AppleALC/kern_alc.cpp:577-580 | an id that is used in some state is not handed out later in the run |
| `AlcIds.MarkedIffPresent` | AppleALC/kern_alc.cpp:151-170 | an update marks an id of the list if and only if an NVIDIA device that may be injected has its device number, compared on the lower 16 bits |
| `AlcIds.PresentDevicesKeepTheirIds` | AppleALC/kern_alc.cpp:164-170 | the id of an NVIDIA device that has been seen is never given to a patch afterwards |
| `AlcIds.FirstIdIsPresent` | AppleALC/kern_alc.cpp:164-582 | with a device 0x0E0A present the first patch that asks gets the bytes DE 10 0B 0E |
| `AlcIds.HoldsIff` | AppleALC/kern_alc.cpp:577-578 | the four bytes that are written for an id: vendor 0x10DE and the device of the list, low bytes first |
| `AlcIds.AskingPatches` | AppleALC/kern_alc.cpp:574 | a patch asks if and only if its find value is the four bytes NVDA |
| `AlcIds.LeftOverMeansAllUsed` | AppleALC/kern_alc.cpp:576-585 | after a kext event a patch of a controller's NVIDIA entry that still asks means that all sixteen ids are used |
| `AlcIds.OneIdPerRewrittenPatch` | AppleALC/kern_alc.cpp:571-586 | used ids and asking patches add up to the same number before and after one pass over the controllers |
| `AlcIds.KextEventKeepsTotal` | AppleALC/kern_alc.cpp:531-648 | the same for a whole kext event |
| `AlcIds.TotalOverRuns` | AppleALC/kern_alc.cpp:164-170 | over a run the number grows by exactly the ids that updates mark for the first time |
| `AlcIds.AppliedIff` | AppleALC/kern_alc.cpp:872-885 | a patch of the list is applied if and only if it is for this kext and the kernel is compatible |
| `AlcIds.PassAppliesFinalPatches` | AppleALC/kern_alc.cpp:562-595 | a pass logs exactly the patches that entries of patchable controllers hold at its end, although shared entries are rewritten on the way |
| `AlcIds.CodecPatchesAreApplied` | AppleALC/kern_alc.cpp:602-616 | handling the codecs logs exactly the patches of their entries for this kext and kernel |
| `PinConfig.GetAudioLayout` | AppleALC/kern_alc.cpp:338-351 | the layout id found by walking up, 0 if there is none |
| `PinConfig.LayoutOfTheNearest` | AppleALC/kern_alc.cpp:341-349 | it is that of the nearest HDEF or HDAU, and of nothing above |
| `PinConfig.FindAnalog` | AppleALC/kern_alc.cpp:392-401 | id and layout of the first codec whose controller has a layout |
| `PinConfig.FindConfig` | AppleALC/kern_alc.cpp:413-428 | the first dictionary of the list for this codec and layout, other items skipped |
| `PinConfig.PinHooks.FindTarget` | AppleALC/kern_alc.cpp:395-428 | both together: the target entry if and only if there is one |
| `PinConfig.PinHooks.CopyForWake` | AppleALC/kern_alc.cpp:468-484 | a separate copy with wake data as config data and config data kept as boot data |
| `PinConfig.PinHooks.Replace` | AppleALC/kern_alc.cpp:430-493 | installs the boot copy, and the wake copy if wanted, also when codec and device are the same entry |
| `PinConfig.PinHooks.RewriteConfig` | AppleALC/kern_alc.cpp:392-500 | everything that a first call does to both property tables |
| `PinConfig.PinHooks.InitializePinConfig` | AppleALC/kern_alc.cpp:390-504 | only the first call for a codec rewrites; its status ends true, and its list is the wake copy, if and only if there is a target whose WakeVerbReinit is true; copies are fresh; existing dictionaries never change; the original is always called |
| `PinConfig.WakeCopyCanBeUndoneIff` | AppleALC/kern_alc.cpp:478-484 | with both data present, the boot copy can be rebuilt from the wake copy if and only if it had no BootConfigData, which is all that is lost |
| `PinConfig.WakeOnlyCanBeUndoneIff` | AppleALC/kern_alc.cpp:478-484 | without config data that is data, if and only if it had no ConfigData, which is all that is lost |
| `PinConfig.FirstCallSetsFlags` | AppleALC/kern_alc.cpp:407-489 | status true exactly with a wake copy, sleep flag false |
| `PinConfig.PinHooks.PerformPowerChange` | AppleALC/kern_alc.cpp:353-388 | what one power change does to the sleep flag, and whether it replays |
| `PinConfig.AsleepSnoc` | AppleALC/kern_alc.cpp:368-375 | when a run ends asleep: its last change to a known state is Sleep |
| `PinConfig.ReplaysAreWakeUps` | AppleALC/kern_alc.cpp:353-408 | over any calls of both hooks: without initialisation or with status false no replay and never asleep; with status true the replays are exactly the changes to Idle or Active whose last known predecessor is Sleep |
| `PinConfig.EarlyCalls` | AppleALC/kern_alc.cpp:353-391 | calls of the hooks before the first initialisation change no property table and force nothing |
| `PinConfig.FirstCalls` | AppleALC/kern_alc.cpp:353-504 | those calls and the first initialisation |
| `PinConfig.LaterCalls` | AppleALC/kern_alc.cpp:353-504 | any calls for one codec after its first initialisation change nothing but the sleep flag, and force the original initialisation exactly at the wake-ups if the status is true |
| `PinConfig.WholeRun` | AppleALC/kern_alc.cpp:353-504 | any sequence of calls for one codec: both config lists end as its first initialisation left them; forced calls are the wake-ups, or none without a wake copy |
| `PinCodecs.WakeVerbs` | AppleALC/kern_alc.cpp:338-504 | an entry with WakeVerbReinit true and one with it false, and changes to 0, 3, 1, 0, 2 and 2: a wake copy and two forced calls, or neither |
| `PinCodecs.CopyIsTargetIff` | AppleALC/kern_alc.cpp:420-450 | the boot copy can be a target again if and only if it has the layout that targets have |
| `PinCodecs.FirstCallFor` | AppleALC/kern_alc.cpp:390-504 | one codec's first call as seen from a separate device, and whether its new list has a target |
| `PinCodecs.SecondCodec` | AppleALC/kern_alc.cpp:391-457 | after a codec has rewritten a device's list, the first call for another one rewrites it again if and only if it has an audio layout and the first one's is the layout that targets have |
| `PinCodecs.TwoCodecsOneDevice` | AppleALC/kern_alc.cpp:391-457 | two codecs with layout id 7 and an entry with layout 7: the list is rewritten twice |
| `PinCodecs.NextFirstCall` | AppleALC/kern_alc.cpp:390-504 | one more codec's first call with a device that others may have rewritten |
| `PinCodecs.FirstCallsFor` | AppleALC/kern_alc.cpp:390-504 | the first calls for any number of codecs with one device: exactly which of them rewrite its list, and the list at the end: the original, or one copy of its target under the layout id of the last that rewrote it |
| `PinCodecs.CallsForAll` | AppleALC/kern_alc.cpp:353-504 | any calls for any codecs and devices: the status of an initialised codec stays, and its sleep flag and forced calls follow its own power changes alone |

## Left out

- The IOKit registry, Lilu's patcher, boot arguments, logging, renaming and sleeping: properties are parameters or
  maps, patching and routing requests are a log, and the test for compatible kernels is an arbitrary predicate.
- AlcEnabler.AlcEnabler.UpdateGpu: the property writes of `AppleALC/kern_alc.cpp:173-194` are not modelled.
- AlcEnabler.AlcEnabler.UpdateProperties: nor are its other property writes, see the next line.
- The property writes of `updateDeviceProperties`, the connector types, TCSEL and the termination of an unused HDAU
  (`AppleALC/kern_alc.cpp:86-135`, `173-275`): registry writes that no modelled decision reads.
- Allocation failures and reference counts, and `AlcEnabler::deinit`.
- The values of Lilu's constants for vendors and models and its number of scan attempts are not in this repository:
  0x8086 and 0x10DE are PCI vendor numbers, models are sets, and a controller has as many scans as attempts.
- AlcState.AddAnalog: follows the swapped arguments of `AppleALC/kern_alc.cpp:694`; nothing is claimed about the
  no-controller-patch property of the analog controller.
- PinConfig.PinHooks.InitializePinConfig: the ancestors of a codec are a list that the hook does not change, and a
  config entry holds values; collections nested in an entry are not followed.
- PinConfig.PinHooks.PerformPowerChange: the original method is only logged, its effects and result are not modelled.
- ResourceConverter.Generate: declarations are values, not text, so quoting, number formats and comments of the C++
  output are not modelled. A normalised id is taken to be fit for a name. The directory and its property lists are
  parameters, in the order in which they are listed.
- ResourceConverter.Converter.GeneratePatches: the optional header and count parameters, which no caller uses.
- Labels, attributes and colours of codecgraph, and reading a node's fields from its lines
  (`hda-tools/codecgraph.py:52-198`, `283-334`): text without structure.
- CodecGraph.AmpEdgesDeclaredIff: amplifier edges of one-sided pins may name an id that is not declared; closure is
  claimed for connection edges only.
- ConvertVerbs.Converter.OtherText: up to the shell variable; the formatting by xxd and the headings
  (`hda-tools/convert.sh:90-106`) are left out. Shell variables are taken to be empty at the start.
- ConvertVerbs.Verbs: shell numbers are 64 bits wide, of which a verb uses 32, so words are 32-bit vectors.
- Verbit.CorrectAssociations: verbs are eight lower-case hex digits with a codec address of one digit, as an ALSA
  dump gives them. Non-zero associations are not claimed: a kept first occurrence of 0 stays 0.
- The blacklist, the tables and the debug file of verbit.sh, and the reading of the dump around the pin defaults.
- ALCUserClient, alc-verb, entitlement, probe and start-delay hooks, the zlib tools and the other scripts: thin
  wrappers, data or shell input and output.
