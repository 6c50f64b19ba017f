# Verification of the DSE FMI library

A Dafny model of the stateful core of the FMI support library: the marshalling pipeline that connects
FMUs to the simulation bus (`dse/fmimcl`), the exchange of variables inside an FMU (`dse/fmu`), the
generator and the access path of the direct index, the CSV replay of the importer, the SignalGroup patch
tool, the gateway FMU and its generator. Loops of the source are loops here, structures that the source
updates in place are classes, and every such method is proved against a functional specification. The
lemmas beside them prove what the specification is for, for all inputs or over all runs.

`dafny verify dfyconfig.toml` checks the whole project (Dafny 4.11).

## Main results

**Marshalling** (`MarshalSignals`, `MarshalSort`, `MarshalTable`, `MclAdapter`). The bucket sort returns the
one list that is a stable permutation of its input and sorted by kind, type and position of the
direction. The marshal table tiles the source vector and is unique; on a sorted list all keys and all
`mg-k-d-t` names differ. Sending group by group leaves the FMU exactly as sending each signal on its own
would; when a call fails, the exact partial state is stated. Receiving fills exactly the slots whose
direction receives, and a failing getter leaves the whole source vector unchanged.

**Variable exchange** (`SignalVectors`, `FmuExchange`, `VarTable`). Over every run of SetString, GetString and
DoStep, a step sees in each binary signal exactly what was set since the previous step, in call and array
order. Outputs stay readable until the next SetString or DoStep. Every string handed out is released
exactly once. The NCodec stream is a machine of consumed and pending bytes that shares its buffer with
SetString and with resets; over every run the only bytes lost are those pending at a write. The variable table mirrors
exactly the registered variables, a step sees and a reading gives the value of the history of the run, and in any
run the counter FMU has counted its steps.

**Direct index** (`ChannelLookup`, `DirectIndexLayout`, `SignalAnnotation`, `DirectAccess`). Group blocks tile
the map and slots are disjoint; appending keeps offsets. Channel lookup returns the first selected channel
in stack order, whatever order maps are iterated in. Annotated signals share a value reference exactly
when channel and name are equal. The path `map + vr` agrees with the hashmaps over whole runs of settings that write a
cell of their own.

**Incremental algorithms** (`CsvReplay`, `SignalPatch`, `EnvBlock`, `VariableIndex`). Replaying step by step
equals one batch. In-place patching equals the filter and map over the original list. The environment block
is read back as the parent entries followed by the new ones. The fill pass never runs out of the slots of
the count pass.

**Gateway** (`GatewaySession`, `VrefAllocator`, `SimerRuntime`). Over every run `model_gw_exit` is called exactly once if an
init succeeded and never otherwise, and no `model_gw_sync` follows it. The generated value references are
pairwise distinct exactly when nothing is kept behind a binary signal.

## Where the code does not do what is expected of it

Each of these is a property that fails of the code as it is. For each, one lemma gives the exact condition under
which it holds, and another a concrete case in which it fails.

- The comment at dse/fmimcl/parser.c:20-25 lists direction before type, and TX before RXTX before RX; the code
  sorts by kind, type and its own order of directions, and the model follows the code. The result is in the
  documented order exactly when, within a kind, directions listed earlier only occur with smaller types:
  `MarshalSort.DocumentedOrderHolds`, `MarshalSort.DocumentedOrderFails`.
- Signals of kind NONE sort in front, so the measurement prefix of dse/fmimcl/model.c:74-83 then misses the
  primitive signals: `MarshalSort.MeasurementCountsAll`, `MarshalSort.PrefixMissesPrimitive`.
- Hashmap keys of value references are written with `%i` into eleven bytes: references from 2^31 on never match
  the attribute text, and some of them share a key: `Decimal.VrefKeyMatchesAttribute`, `Decimal.VrefKeysCollide`,
  `Decimal.NeighboursCollide`.
- The documentation of `fmu_register_var` promises the configured start value (dse/fmu/signal.c:100); the code
  always returns 0, which is right exactly when no other value is configured: `VarTable.FmuInstance.RegisterVar`,
  `VarTable.StartValueIgnored`.
- A relative stream seek back past the start wraps and lands at the end: `SignalVectors.RelativeSeekClamps`,
  `SignalVectors.SeekBackLandsAtEnd`.
- SetString is documented to append (dse/fmu/fmi2fmu.c:513-518); after a step it discards the outputs instead,
  even without entries: `FmuExchange.SetStringDiscardsOutputs`, `FmuExchange.EmptySetString`,
  `FmuExchange.OutputLost`.
- An output without encoder is handed out whole exactly when it has no NUL and the byte behind it is one:
  `FmuExchange.PlainOutputWhole`, `FmuExchange.PlainOutputCut`.
- The size guard of the direct path lets eight references through that do not have eight bytes of map behind
  them. A reading then depends on the map alone exactly when reference plus eight is within the size. A setting
  leaves the memory behind the map alone exactly when reference plus eight is within the size, or what it would
  store there is there already. Among multiples of eight only the size itself fails, which the allocator never
  hands out: `DirectAccess.GuardProtects`, `DirectAccess.GuardConfinesReads`,
  `DirectAccess.GuardOnMultiplesOfEight`, `DirectAccess.AllocatedIsNotSize`, `DirectAccess.SizeItselfOverruns`.
- The direct path has one place for each reference, the hashmap path a cell for each causality, and it only writes
  that of the input. The two agree after a setting exactly when it writes the one cell of its reference and no
  other reference reads that cell, or when nothing changes. They part at a reference that is only an output, and
  at one that is an input and an output with two cells, as a model description gives it:
  `DirectAccess.WriteKeepsAgreement`, `DirectAccess.OutputWriteDisagrees`, `DirectAccess.BothCausalitiesDisagree`.
- `strtok` skips empty CSV fields, so later columns shift: `CsvReplay.TokensOfLine`, `CsvReplay.EmptyFieldShifts`.
- A patch record with an empty target drops a signal that is itself called "inactive":
  `SignalPatch.EmptyTargetKeeps`, `SignalPatch.EmptyTargetDrops`. A patch with chains of renames is not idempotent:
  `SignalPatch.PatchedTwice`, `SignalPatch.PatchedTwiceNeedsStays`.
- A variable whose annotations come before its type element is counted but not indexed:
  `VariableIndex.SlotsSuffice`, `VariableIndex.AnnotationsFirstLeaveASlot`.
- Binary signals do not advance the reference counter of the gateway generator:
  `VrefAllocator.DistinctExactlyWhenBinaryLast`, `VrefAllocator.BinaryInFrontClashes`.
- The command parameter of the simer runtime has an effect exactly with reference 0 and the selector exactly
  with reference 1; the generator gives them 1 and 0, so neither has one: `SimerRuntime.CommandNeedsReference0`,
  `SimerRuntime.SelectorNeedsReference1`, `SimerRuntime.SimerReferencesSwapped`.
- Teardown is skipped for an initialised legacy gateway without a session, and when the shutdown command
  fails: `GatewaySession.TeardownRuns`, `GatewaySession.TeardownSkipped`. A second successful init after a step
  takes the state back: `GatewaySession.StateOnlyAdvances`, `GatewaySession.SecondInitFallsBack`.

## Model

| member | source | states |
|---|---|---|
| Decimal.RenderInjective | dse/fmimcl/engine.c:66-67 | different numbers have different decimal texts |
| Decimal.RenderLength | dse/fmu/fmi2fmu.c:291-292 | when a text is longer than the key buffer |
| Decimal.VrefKeyMatchesAttribute | dse/fmu/fmi2fmu.c:291-294 | the lookup key of a reference is its attribute text if and only if the reference is below 2^31 |
| Decimal.VrefKeysCollide | dse/fmu/fmi2fmu.c:291-294 | two references share a key if and only if they agree in what the key keeps: the whole reference below 2^31, and the distance to 2^32 without its tenth digit above |
| Decimal.NeighboursCollide | dse/fmu/fmi2fmu.c:291-294 | references 2147483648 and 2147483649 share a key, which is not the attribute text |
| MarshalSignals.DecodeSignal | dse/fmimcl/parser.c:64-131 | decoding yields a known direction and type, and a kind that follows from the type, whatever the annotations |
| MclAdapter.ParseVariables | dse/fmimcl/parser.c:64-131 | each variable keeps name and reference; "Real", "Integer", "Boolean" and "String" become double, int32, bool and string, every causality its direction, and all else the codes for none |
| MarshalSort.CollectBucket | dse/fmimcl/parser.c:43-50 | one bucket appends exactly the signals with its key, in list order |
| MarshalSort.SortByMarshalGroup | dse/fmimcl/parser.c:18-61 | the result is sorted, keeps for each key the subsequence with that key, and is a permutation when all codes are known |
| MarshalSort.StableIsPermutation | dse/fmimcl/parser.c:18-61 | agreeing on the subsequence of every key makes two lists permutations of each other |
| MarshalSort.SortedStableUnique | dse/fmimcl/parser.c:18-61 | only one list is sorted by (kind, type, direction position) and stable: the sort has a single correct result |
| MarshalSort.SortedMeans | dse/fmimcl/parser.c:26-53 | for any two signals of a sorted list kinds ascend, then types, and then directions come in the order none, local, received, both ways, sent, parameter |
| MarshalSort.DocumentedOrderHolds | dse/fmimcl/parser.c:20-53 | the sorted list is in the order of the comment if and only if, within each kind, directions listed earlier only occur with smaller types |
| MarshalSort.DocumentedOrderFails | dse/fmimcl/parser.c:20-53 | an output and an input of one type are sorted the other way round |
| MarshalSort.MeasurementCount | dse/fmimcl/model.c:74-83 | the count is the length of the longest prefix of primitive signals |
| MarshalSort.MeasurementCountsAll | dse/fmimcl/model.c:74-83 | on a sorted list the prefix counts all primitive signals if and only if no signal has kind NONE or there is no primitive signal |
| MarshalSort.PrefixMissesPrimitive | dse/fmimcl/model.c:74-83 | a signal of unknown type in front hides the primitive signal behind it |
| MarshalTable.GroupNameInjective | dse/fmimcl/engine.c:66-67 | equal names `mg-k-d-t` come from equal keys |
| MarshalTable.GroupNameParts | dse/fmimcl/engine.c:66-67 | the name is "mg-", kind, direction and type as decimal numbers joined by dashes |
| MarshalTable.EmitGroup | dse/fmimcl/engine.c:62-109 | one emitted group extends the tiling by the collected run and leaves the reference list empty |
| MarshalTable.GenerateMarshalTable | dse/fmimcl/engine.c:126-171 | the groups tile the source vector, each named after its key, with exactly the references of its slice and no encoder yet |
| MarshalTable.TableTilesSource | dse/fmimcl/engine.c:126-171 | the first offset is 0, each offset is the previous offset plus count, the last group ends at the number of signals, neighbours have different keys |
| MarshalTable.SlotHasOneEntry | dse/fmimcl/engine.c:126-171 | every source slot lies in exactly one group |
| MarshalTable.GroupsDistinct | dse/fmimcl/engine.c:126-171 | on a sorted list no two groups share a key or a name |
| MarshalTable.TableUnique | dse/fmimcl/engine.c:126-171 | two tables that tile the same list agree in name, key, extent and references |
| MarshalTable.LoadGroupEncoders | dse/fmimcl/engine.c:194-213 | entry i of a binary group has encoder functions if and only if signal offset+i is annotated with "ascii85" |
| MarshalTable.LoadEncoderFuncs | dse/fmimcl/engine.c:192-214 | loading changes nothing but the encoders, which are those of the slice of each group |
| MclAdapter.ParseAndGenerate | dse/fmimcl/parser.c:217-269 | for all decoded signals: the parsed list is the stable sort of the input, the table tiles it, encoder by encoder, and all keys and names differ |
| MclAdapter.CausalityDecidesTraffic | dse/fmimcl/parser.c:64-131 | inputs and parameters are only sent, outputs and locals only received, variables without causality go both ways; other causalities or types not at all; only "ascii85" strings have encoders |
| MclAdapter.SetPrefixIsPutEach | dse/fmimcl/adapter/fmi2mcl.c:286-383 | a successful bulk set over the first k entries of a group is the same as sending those signals one at a time |
| MclAdapter.SkippedGroup | dse/fmimcl/adapter/fmi2mcl.c:286-383 | sending the signals of a group that is not sent would change nothing |
| MclAdapter.SendRunIsPutEach | dse/fmimcl/adapter/fmi2mcl.c:286-383 | while the calls succeed, the bulk calls of the first groups leave the FMU as the single sends before the next offset |
| MclAdapter.SendRunFailed | dse/fmimcl/adapter/fmi2mcl.c:286-383 | at the first failing call the FMU holds the signals of the earlier groups and of that group as far as the call got |
| MclAdapter.PutEachOwn | dse/fmimcl/adapter/fmi2mcl.c:286-383 | with distinct variables, signal j alone decides its variable: the converted source value if its direction sends, else the old value |
| MclAdapter.PutEachElsewhere | dse/fmimcl/adapter/fmi2mcl.c:286-383 | a variable of no signal is not touched |
| MclAdapter.FmuModel.constructor | dse/fmimcl/engine.c:40-59 | a new model holds the sorted signals, their table and a zeroed source vector of the same length |
| MclAdapter.FmuModel.MarshalGroupOut | dse/fmimcl/adapter/fmi2mcl.c:286-291 | targets of sending groups hold the converted source values, all other targets are kept |
| MclAdapter.FmuModel.SendGroups | dse/fmimcl/adapter/fmi2mcl.c:293-382 | stops with EBADMSG at the first failing call and has made exactly the calls up to it |
| MclAdapter.FmuModel.MarshalOut | dse/fmimcl/adapter/fmi2mcl.c:286-383 | succeeds if and only if every sending call does; then the FMU is as if each signal had been sent on its own; otherwise the exact partial state |
| MclAdapter.FmuModel.ReceiveGroup | dse/fmimcl/adapter/fmi2mcl.c:280 | the slots of the group take the converted targets, all other slots are kept |
| MclAdapter.FmuModel.MarshalGroupIn | dse/fmimcl/adapter/fmi2mcl.c:280-282 | every group has received what was fetched for it, and no group disturbs another |
| MclAdapter.FmuModel.FetchGroups | dse/fmimcl/adapter/fmi2mcl.c:190-278 | on success the targets of receiving groups hold the FMU's values; on failure the first failing group is named, earlier targets are fetched, its own as far as its call got, later ones kept |
| MclAdapter.FmuModel.MarshalIn | dse/fmimcl/adapter/fmi2mcl.c:185-283 | succeeds if and only if every getter of a receiving group does; a failing getter leaves the source wholly unchanged |
| MclAdapter.EndToEndOut | dse/fmimcl/adapter/fmi2mcl.c:286-383 | for each signal of the unsorted list: its variable takes the converted value of the slot that carries the signal exactly when its direction sends |
| MclAdapter.PublishSignals | dse/fmimcl/adapter/fmi2mcl.c:286-383 | end to end from the parsed signals: if all calls succeed, the variable of every signal holds the converted value of that signal exactly when its direction sends, and every other variable is untouched |
| MclAdapter.PublishVariables | dse/fmimcl/adapter/fmi2mcl.c:286-383 | from the annotations on: a variable of each type is set through the functions of that type, at its own reference and with the value of its own name, exactly when its causality sends |
| MclAdapter.DistinctVariablesOfPermutation | dse/fmimcl/parser.c:18-61 | sorting keeps the distinctness of (type, reference) |
| MclAdapter.EndToEndIn | dse/fmimcl/adapter/fmi2mcl.c:185-283 | slot j takes the converted value of its own variable exactly when its direction receives, else it keeps its value |
| MclAdapter.CollectSignals | dse/fmimcl/adapter/fmi2mcl.c:185-283 | end to end from the parsed signals: if all getters succeed, exactly the slots of receiving signals take the values of their own variables; otherwise the source is unchanged |
| MclAdapter.CollectVariables | dse/fmimcl/adapter/fmi2mcl.c:185-283 | from the annotations on: the slot of each variable takes the value at its own type and reference, exactly when its causality receives |
| MclAdapter.OutThenInRestores | dse/fmimcl/adapter/fmi2mcl.c:185-383 | sending and then receiving restores every TXRX slot whose conversions invert each other |
| SignalVectors.RelativeSeekClamps | dse/fmu/ncodec.c:440-472 | a relative seek clamps to the signal if and only if it does not go back past the start or the signal is empty; otherwise it lands at the end |
| SignalVectors.SeekBackLandsAtEnd | dse/fmu/ncodec.c:453-459 | seven bytes back from position 3 of ten bytes lands at 10 |
| SignalVectors.SeekMeaning | dse/fmu/ncodec.c:440-472 | where each seek leaves the stream, never behind the end, with all bytes kept except by a reset |
| SignalVectors.NothingLost | dse/fmu/ncodec.c:390-472 | over every run of appends, reads, writes, seeks and resets: the bytes of the signal are those of the history, without writes all that arrived; without seeks the consumed bytes are what was handed out or written, in order |
| SignalVectors.SignalVector.constructor | dse/fmu/signal.c:221-239 | all signals start empty |
| SignalVectors.SignalVector.Append | dse/fmu/fmi2fmu.c:497-499 | the data follows the content, over stale bytes; it becomes pending on an open stream; position and other signals are kept |
| SignalVectors.SignalVector.Read | dse/fmu/ncodec.c:390-420 | hands out exactly the pending bytes, which become consumed if the position is updated |
| SignalVectors.SignalVector.Write | dse/fmu/ncodec.c:422-438 | replaces the pending bytes by the data, which is then consumed |
| SignalVectors.SignalVector.Seek | dse/fmu/ncodec.c:440-472 | the position moves to the clamped target within the signal, a reset empties it, an unknown operation fails |
| SignalVectors.SignalVector.Tell | dse/fmu/ncodec.c:474-482 | the number of consumed bytes |
| SignalVectors.SignalVector.Eof | dse/fmu/ncodec.c:484-494 | holds if and only if nothing is pending |
| SignalVectors.SignalVector.Reset | dse/fmu/signal.c:242-259 | every signal is empty afterwards, with its stream at the start; buffers are kept |
| FmuExchange.StepSeesWhatWasSet | dse/fmu/fmi2fmu.c:465-573 | in every run, a step sees in each signal exactly the contributions set since the previous step, in call and array order, with nothing left over |
| FmuExchange.StepSeesPlainTexts | dse/fmu/fmi2fmu.c:474-503 | in every run, when only references without decoder were set for a slot since the last step, the step sees exactly their texts, in call and array order |
| FmuExchange.OutputsStayReadable | dse/fmu/fmi2fmu.c:542-573 | what a step leaves stays there through any number of GetString calls |
| FmuExchange.SetStringDiscardsOutputs | dse/fmu/fmi2fmu.c:465-518 | slot by slot, SetString appends to the content if and only if one came since the last step or the slot is empty; otherwise only its contributions remain |
| FmuExchange.EmptySetString | dse/fmu/fmi2fmu.c:465-506 | a call without entries changes nothing if and only if a SetString came since the last step or all signals are empty |
| FmuExchange.OutputLost | dse/fmu/fmi2fmu.c:465-573 | a run that loses an output |
| FmuExchange.Loopback | dse/fmu/fmi2fmu.c:334-506 | in every run in which texts handed out for outputs of one FMU are forwarded to inputs of another, in any number of calls and entries, a step sees exactly what arrives of them since the previous one |
| FmuExchange.WhatArrives | dse/fmu/fmi2fmu.c:358-365 | between encoded ends the raw output arrives; between ends without encoder at least the output up to its first NUL, and no more when it has one |
| FmuExchange.BuiltIndexesFit | dse/fmu/fmi2variable.c:120-216 | the indexes built from any model description stay inside the signal vector allocated for it |
| FmuExchange.FmuInstance.SignalsReset | dse/fmu/signal.c:242-259 | clears all signals unless that happened already since the last step |
| FmuExchange.FmuInstance.SetEntry | dse/fmu/fmi2fmu.c:475-503 | one entry appends its decoded value to the one signal it is indexed to; without one it is kept as a plain string |
| FmuExchange.FmuInstance.SetStrings | dse/fmu/fmi2fmu.c:465-506 | the new contents are the lazily reset ones followed by the contributions in array order |
| FmuExchange.PlainStringIsLast | dse/fmu/fmi2fmu.c:483-487 | a reference without binary input keeps the last text set for its key |
| FmuExchange.FmuInstance.GetEntry | dse/fmu/fmi2fmu.c:344-373 | NULL if and only if there is no output or it is empty; the encoding of its bytes for an encoded reference; otherwise a copy up to the first NUL, which goes on behind the bytes if they have none |
| FmuExchange.PlainOutputWhole | dse/fmu/fmi2fmu.c:361-365 | without encoder the copy is the whole output if and only if it has no NUL and the byte behind it is one |
| FmuExchange.PlainOutputCut | dse/fmu/fmi2fmu.c:361-365 | an output with a NUL inside, of which only the first byte arrives |
| FmuExchange.FmuInstance.GetStrings | dse/fmu/fmi2fmu.c:334-375 | answers every reference, changes no signal, releases the strings of earlier calls and keeps all new ones live |
| FmuExchange.FmuInstance.Step | dse/fmu/fmi2fmu.c:542-573 | the model sees the lazily reset contents, its results stay, and the next SetString resets again |
| FmuExchange.FmuInstance.FreeInstance | dse/fmu/fmi2fmu.c:587-616 | every string ever handed out has been released exactly once |
| FmuExchange.FreeList.Clear | dse/fmu/fmi2fmu.c:340-341 | releases exactly the live strings |
| FmuExchange.FreeList.Record | dse/fmu/fmi2fmu.c:367-372 | the key is not in use, so no recorded string is lost |
| VarTable.StepSeesSignals | dse/fmu/fmi2fmu.c:553-557 | before the step, every table slot holds the value of its signal |
| VarTable.SignalsTakeResults | dse/fmu/fmi2fmu.c:563-567 | after the step, every signal holds what the model left in its table slot |
| VarTable.SetRealsKeepsLast | dse/fmu/fmi2fmu.c:421-431 | each address holds the last value set for it, or its old value |
| VarTable.LastSetPosition | dse/fmu/fmi2fmu.c:421-431 | the last value is that of the last entry whose reference is indexed to the address, or the old one without any |
| VarTable.StepSeesLastSet | dse/fmu/fmi2fmu.c:403-573 | over every run of settings, readings and steps, the signal of a registered variable and the table slot a step sees hold the value set last since the last step, else the one that step left, else the initial one |
| VarTable.ReadingGivesHeld | dse/fmu/fmi2fmu.c:271-573 | at any point of any run GetReal returns that value; directly after a step, what the step left |
| VarTable.FmuInstance.RegisterVar | dse/fmu/signal.c:102-128 | an indexed variable is added to the list with its signal, others are not; the result is always 0, the documented start value if and only if none other than 0 is configured |
| VarTable.StartValueIgnored | dse/fmu/signal.c:98-128 | registering a variable with start value 1 returns 0 |
| VarTable.FmuInstance.RegisterVarTable | dse/fmu/signal.c:186-196 | every registered variable, also one at offset 0, gets its table address, followed by the terminator |
| VarTable.RegisteredAreDistinct | dse/fmu/signal.c:102-196 | registrations with different offsets and different references make a list of pairwise different variables and signals, in storage and apart from each other |
| VarTable.RegisterAll | dse/fmu/signal.c:102-196 | the list of a created FMU holds exactly the registered variables, in order, with their table addresses |
| VarTable.RegisterAndStep | dse/fmu/fmi2fmu.c:542-573 | from registration through a step: every registered signal holds what the step left in its table variable |
| VarTable.FmuInstance.CreateCounter | dse/examples/fmu/counter/counter.c:11-19 | the counter's table mirrors exactly reference 1 at offset 0 |
| VarTable.FmuInstance.DoStep | dse/fmu/fmi2fmu.c:553-567 | mirrors exactly the registered variables to the table, steps, and mirrors them back; without a table it only steps |
| VarTable.FmuInstance.SetReal | dse/fmu/fmi2fmu.c:421-431 | only indexed inputs are written, in array order |
| VarTable.FmuInstance.GetReal | dse/fmu/fmi2fmu.c:289-305 | outputs are preferred to inputs, entries without either are left alone |
| VarTable.CounterAddsOne | dse/examples/fmu/counter/counter.c:27-36 | one step adds one to the output signal |
| VarTable.CounterCountsSteps | dse/examples/fmu/counter/counter.c:27-36 | after any run the output has grown by the number of steps in it |
| DirectIndexLayout.BlocksTile | extra/tools/fmi/internal/app/generate/directindex.go:61-78 | the blocks [24*offset, 24*(offset+length)) follow each other without gaps from 0 to 24 bytes per signal |
| DirectIndexLayout.SlotInsideBlock | extra/tools/fmi/internal/app/generate/directindex.go:61-78 | the eight bytes of a signal lie inside the block of its group and inside the map |
| DirectIndexLayout.SlotsDisjoint | extra/tools/fmi/internal/app/generate/directindex.go:61-78 | slots of different signals do not overlap |
| DirectIndexLayout.AppendingKeepsOffsets | extra/tools/fmi/internal/app/generate/directindex.go:61-78 | placing again after further groups were appended leaves every earlier offset as it was |
| DirectIndexLayout.OffsetsIdentifySignals | extra/tools/fmi/internal/app/generate/directindex.go:61-78 | two signals have equal offsets if and only if they are the same signal of the same group |
| DirectIndexLayout.DirectIndex.GetSignalGroup | extra/tools/fmi/internal/app/generate/directindex.go:39-48 | returns the group of that name, appending an empty one exactly if it is new; slice and map stay in agreement |
| DirectIndexLayout.DirectIndex.AddSignal | extra/tools/fmi/internal/app/generate/directindex.go:50-59 | afterwards exactly the earlier signals and this one are present, without duplicates |
| DirectIndexLayout.DirectIndex.PlaceSignals | extra/tools/fmi/internal/app/generate/directindex.go:68-75 | signal i of a group gets index i and the eighth byte multiple i behind the start of the block |
| DirectIndexLayout.DirectIndex.CalculateMapOffsets | extra/tools/fmi/internal/app/generate/directindex.go:61-78 | all groups and signals are placed; names, order and maps are kept |
| DirectIndexLayout.DirectIndex.GetSignalOffset | extra/tools/fmi/internal/app/generate/directindex.go:121-128 | finds a signal if and only if it is present, with the offset of the signal of that name in the group of that name |
| DirectIndexLayout.SitsByPosition | extra/tools/fmi/internal/app/generate/directindex.go:61-78 | that offset is 24 bytes for each signal of earlier groups and 8 for each earlier signal of its own |
| DirectAccess.LayoutIsAllocated | extra/tools/fmi/internal/app/generate/directindex.go:61-78 | a placed layout with 32-bit references is a set of separate eight-byte slots inside the map |
| DirectAccess.IndexedCells | dse/fmu/fmi2variable.c:107-117 | indexes built from any model description give different references different cells |
| DirectAccess.OwnCellOfInput | dse/fmu/fmi2fmu.c:421-430 | with such indexes a setting writes a cell of its own if and only if the reference is an input, with the same cell if it is an output too, and no other allocated reference has its key |
| DirectAccess.SmallKeysApart | dse/fmu/fmi2fmu.c:423-425 | in a map of at most 2^31 bytes no two allocated references share a key |
| DirectAccess.DirectFmu.SetReal | dse/fmu/fmi2fmu.c:403-420 | references beyond the size are skipped, all others written in order, even where that goes beyond the map |
| DirectAccess.DirectFmu.GetReal | dse/fmu/fmi2fmu.c:271-288 | references beyond the size leave the caller's value, all others are read, even where that goes beyond the map |
| DirectAccess.GuardProtects | dse/fmu/fmi2fmu.c:412-416 | a setting that passes the guard leaves the memory behind the map alone if and only if its eight bytes lie inside the map or store what is there already |
| DirectAccess.GuardConfinesReads | dse/fmu/fmi2fmu.c:280-284 | a reading that passes the guard depends on the map alone if and only if its eight bytes lie inside the map |
| DirectAccess.GuardOnMultiplesOfEight | dse/fmu/fmi2fmu.c:280-284 | for a multiple of eight that passes the guard in a map of 24 bytes per signal, a reading depends on the map alone if and only if the reference is not the size |
| DirectAccess.AllocatedIsNotSize | extra/tools/fmi/internal/app/generate/directindex.go:61-78 | allocated references are multiples of eight below the size |
| DirectAccess.SizeItselfOverruns | dse/fmu/fmi2fmu.c:412-416 | a setting at the size passes the guard and overwrites the eight bytes behind the map |
| DirectAccess.ReadsAgree | dse/fmu/fmi2fmu.c:271-306 | an allocated reference passes the size guard and reads the same on both paths |
| DirectAccess.WriteKeepsAgreement | dse/fmu/fmi2fmu.c:403-432 | for any indexes, writing an allocated reference keeps both paths in agreement if and only if the hashmap writes the one cell of that reference and no other reference reads it, or nothing changes |
| DirectAccess.OutputWriteDisagrees | dse/fmu/fmi2fmu.c:403-432 | a map with an input and an output in agreement: setting the input keeps it, setting the output makes the two paths read different values |
| DirectAccess.BothCausalitiesDisagree | dse/fmu/fmi2variable.c:107-117 | an input and an output with reference 0 get two cells, and setting the input makes the two paths read different values |
| DirectAccess.SharedCellAgrees | dse/fmimodelc/runtime.c:168-194 | a reference with one cell for both causalities stays in agreement under every setting |
| DirectAccess.SettingsAgree | dse/fmu/fmi2fmu.c:403-432 | a SetReal call whose references each write a cell of their own keeps both paths in agreement |
| DirectAccess.RunsAgree | dse/fmu/fmi2fmu.c:271-432 | both paths stay in agreement over every run of such settings and of readings |
| DirectAccess.RunsReadTheSame | dse/fmu/fmi2fmu.c:271-432 | after any such run a reading gives the same value on both paths |
| ChannelLookup.FirstInStackMeaning | extra/tools/fmi/internal/app/generate/modelcfmu.go:355-429 | the result is the first channel in stack order whose effective selectors are a subset of the labels; there is none if and only if the lookup fails |
| ChannelLookup.FallbackMeaning | extra/tools/fmi/internal/app/generate/modelcfmu.go:379-398 | the fallback is the last channel with the alias over all definitions of the model, even one without selectors |
| ChannelLookup.SelectedMeaning | extra/tools/fmi/internal/app/generate/modelcfmu.go:371-424 | own selectors decide alone; only without any the last aliased channel of the definitions does; "simbus" is never asked |
| ChannelLookup.ChannelOfMeaning | extra/tools/fmi/internal/app/generate/modelcfmu.go:355-429 | the lookup needs exactly one stack, with models and a selected channel; the error says what is missing |
| ChannelLookup.MatchSelectors | extra/tools/fmi/internal/app/generate/modelcfmu.go:402-424 | the count of matches decides the subset test, in whatever order the maps are iterated |
| ChannelLookup.MatchSelector | extra/tools/fmi/internal/app/generate/modelcfmu.go:404-419 | tells whether the label is absent, equal or different |
| ChannelLookup.SelectorsFromDefinitions | extra/tools/fmi/internal/app/generate/modelcfmu.go:379-398 | the last channel with the alias in the last matching definition decides |
| ChannelLookup.LookupSimBusChannelName | extra/tools/fmi/internal/app/generate/modelcfmu.go:355-429 | the search computes the specified channel or error |
| SignalAnnotation.DirectedSignalsAreAnnotated | extra/tools/fmi/internal/app/generate/modelcfmu.go:431-516 | a signal of a passing group is annotated if and only if it is an input or output and its group has a channel: the index never misses one |
| SignalAnnotation.EqualVrefsMeanSameSignal | extra/tools/fmi/internal/app/generate/modelcfmu.go:474-516 | annotated signals of any groups share a reference if and only if SimBus channel and name are equal |
| SignalAnnotation.DirectionDecides | extra/tools/fmi/internal/app/generate/modelcfmu.go:526-561 | with the built-in rules a signal becomes an input or output if and only if its direction says so or it was one before, and nothing but the causality changes |
| SignalAnnotation.GenerateDirectIndex | extra/tools/fmi/internal/app/generate/modelcfmu.go:431-472 | the index is placed and holds exactly the signals of the passing groups under their channels |
| SignalAnnotation.AddDocument | extra/tools/fmi/internal/app/generate/modelcfmu.go:441-460 | adds exactly what the document contributes |
| SignalAnnotation.ApplyRules | extra/tools/fmi/internal/app/generate/modelcfmu.go:541-561 | the rules apply in table order, each seeing what earlier ones wrote |
| SignalAnnotation.AnnotateSignalgroup | extra/tools/fmi/internal/app/generate/modelcfmu.go:474-516 | fails if and only if the group is binary; else every signal carries the reference of the index, or only the annotations of the rules |
| SignalAnnotation.AnnotationDescribes | extra/tools/fmi/internal/app/generate/modelcfmu.go:497-508 | what is written to an annotated signal: its name, the type Real, the offset of the signal of its name in the group of its channel, and nothing else |
| SignalAnnotation.AnnotateSignalGroups | extra/tools/fmi/internal/app/generate/modelcfmu.go:331-353 | annotates exactly the passing groups; fails if and only if a passing group is binary; without rules nothing changes |
| SignalAnnotation.IndexAndAnnotate | extra/tools/fmi/internal/app/generate/modelcfmu.go:331-516 | end to end: unless a chosen group is binary, every input or output of a chosen group with a channel carries its name, the type Real and the reference of its own slot of the layout, equal for equal channel and name, and without a common byte otherwise; documents that are not chosen stay as they are |
| CsvReplay.TokensOfLine | dse/importer/csv.c:33-65 | the fields read back from a line are the non-empty ones: all of them if and only if no field is empty |
| CsvReplay.EmptyFieldShifts | dse/importer/csv.c:33-65 | a line whose third value is read as its second |
| CsvReplay.DueIsLongest | dse/importer/importer.c:102-128 | the due lines are the longest prefix with timestamps up to the time |
| CsvReplay.LinesHold | dse/importer/importer.c:102-128 | every signal holds its last decodable value in the applied lines, else its value before |
| CsvReplay.LastSampleHeld | dse/importer/importer.c:102-128 | a signal holds the value of the last line and column that is indexed to it and decodable; without one, its value before |
| CsvReplay.ApplyTwice | dse/importer/importer.c:102-128 | applying up to t1 and then up to a later t2 is the same as applying up to t2 |
| CsvReplay.IncrementalIsBatch | dse/importer/importer.c:212-307 | at each point of a run the incremental application equals one batch at the current time |
| CsvReplay.CsvDesc.ReadLine | dse/importer/csv.c:67-90 | loads the next usable line, skipping unusable ones, and fails if and only if there is none |
| CsvReplay.CsvDesc.BuildIndex | dse/importer/csv.c:33-65 | succeeds if and only if every column has a signal; each column is then bound to the first one with its reference |
| CsvReplay.CsvDesc.ApplyLoadedLine | dse/importer/importer.c:108-124 | the decodable columns of the line are written to their signals |
| CsvReplay.CsvDesc.ApplySamples | dse/importer/importer.c:102-128 | consumes exactly the due lines and applies them in order |
| CsvReplay.ValuesOfRow | dse/importer/importer.c:111-113 | of a line of fields those behind the first, the timestamp, are read as values |
| CsvReplay.ReplayFile | dse/importer/csv.c:33-90 | a whole file by its fields: every signal holds the number of the last due row and column whose header has its reference, or its value before |
| CsvReplay.BindColumns | dse/importer/csv.c:43-61 | as for BuildIndex, on the tokens of the header |
| SignalPatch.LastRecordWins | extra/tools/fmi/pkg/patch/signalgroup.go:99-107 | the last record of a source decides its target; an empty target stands for the source |
| SignalPatch.OnlyRecordedSources | extra/tools/fmi/pkg/patch/signalgroup.go:99-107 | a name is patched if and only if it is the source of a record |
| SignalPatch.RecordDecides | extra/tools/fmi/pkg/patch/signalgroup.go:99-132 | the last record for a name renames its signal, or drops it when the target is "inactive"; without one the flag decides |
| SignalPatch.PatchedConcat | extra/tools/fmi/pkg/patch/signalgroup.go:109-132 | every signal is treated on its own and order is kept |
| SignalPatch.EmptyTargetKeeps | extra/tools/fmi/pkg/patch/signalgroup.go:99-120 | a record with an empty target keeps its signal if and only if that is not called "inactive" |
| SignalPatch.EmptyTargetDrops | extra/tools/fmi/pkg/patch/signalgroup.go:99-120 | an input for which it is dropped |
| SignalPatch.PatchedTwice | extra/tools/fmi/pkg/patch/signalgroup.go:109-132 | a patch whose targets stay is idempotent on every list |
| SignalPatch.PatchedTwiceNeedsStays | extra/tools/fmi/pkg/patch/signalgroup.go:109-132 | otherwise applying it twice differs from applying it once on some list |
| SignalPatch.BuildPatch | extra/tools/fmi/pkg/patch/signalgroup.go:99-107 | the map is that of the records |
| SignalPatch.PatchSignals | extra/tools/fmi/pkg/patch/signalgroup.go:76-135 | in-place compaction leaves exactly the filter and map of the original list; wrong columns fail and change nothing |
| EnvBlock.ParseBlock | dse/fmigateway/session_win32.c:238-281 | a block is read back exactly, whatever follows it in memory |
| EnvBlock.EntriesAreTexts | dse/fmigateway/session_win32.c:265-268 | a parameter's entry never ends the list early, even with empty name and value |
| EnvBlock.EntryDefines | dse/fmigateway/session_win32.c:265-268 | an entry is read back as name and value of its parameter if and only if the name has no '=' |
| EnvBlock.ParentSize | dse/fmigateway/session_win32.c:242-252 | the scan finds the size of the parent block with its final terminator |
| EnvBlock.EnvSize | dse/fmigateway/session_win32.c:254-260 | the size of the entries with terminators |
| EnvBlock.BuildEntries | dse/fmigateway/session_win32.c:262-271 | the block of the new entries; every write stays inside the buffer |
| EnvBlock.Combine | dse/fmigateway/session_win32.c:273-276 | the new entries overwrite the final terminator of the parent block |
| EnvBlock.BuildEnv | dse/fmigateway/session_win32.c:238-281 | the block parses as the parent entries followed by one entry for each parameter, in order; each is read back with its name and value, and found by a lookup when no earlier entry has the name |
| VariableIndex.VariableCount | dse/fmu/fmi2variable.c:75-104 | counts every wanted child of every variable |
| VariableIndex.SlotsSuffice | dse/fmu/fmi2variable.c:166-216 | the fill pass never needs more slots than were counted, and needs them all if and only if in every variable the wanted elements precede all others |
| VariableIndex.CountedElements | dse/fmu/fmi2variable.c:18-31 | which elements are counted as scalars and as binaries |
| VariableIndex.TakenIsPrefix | dse/fmu/fmi2variable.c:183-205 | the indexed children are the wanted ones in front of the first unwanted element |
| VariableIndex.AnnotationsFirstLeaveASlot | dse/fmu/fmi2variable.c:166-216 | a variable that is counted but not indexed |
| VariableIndex.ReferencesHaveOwnStorage | dse/fmu/fmi2variable.c:107-163 | different indexed references never share a slot, nor do an input and an output |
| VariableIndex.LookupFindsLast | dse/fmu/fmi2variable.c:107-216 | a lookup succeeds if and only if some indexed variable has that reference and causality, and finds a slot named after the last of them |
| VariableIndex.CodedReferences | dse/fmu/fmi2variable.c:140-150 | encoder functions are installed for exactly the references of indexed binary variables annotated with "ascii85", whatever their causality |
| VariableIndex.VariableIndexer.constructor | dse/fmu/signal.c:221-239 | one slot per counted variable |
| VariableIndex.VariableIndexer.IndexVariable | dse/fmu/fmi2variable.c:107-163 | one slot, one index entry by causality, and the encoder mark |
| VariableIndex.VariableIndexer.IndexChildren | dse/fmu/fmi2variable.c:183-205 | one slot per indexed child; the assertion on the slot never fails |
| VariableIndex.VariableIndexer.Fill | dse/fmu/fmi2variable.c:166-216 | fills a contiguous run of slots from the first and leaves the others |
| GatewaySession.InitedMeansSomeInit | dse/fmigateway/fmigateway.c:116-147 | a run counts as initialised if and only if some init in it succeeded |
| GatewaySession.BeforeRelease | dse/fmigateway/fmigateway.c:116-200 | before release there is no exit, and the state is CREATED if and only if no init succeeded |
| GatewaySession.EventsBeforeRelease | dse/fmigateway/fmigateway.c:116-200 | every step is one sync, every started init one start of the models and one setup, and nothing else happens |
| GatewaySession.SetupFollowsStart | dse/fmigateway/fmigateway.c:125-133 | the gateway is set up directly behind each start of the models, and only there |
| GatewaySession.ExitsOnceAfterInit | dse/fmigateway/session.c:117-162 | in every released run `model_gw_exit` is called exactly once after a successful init, never otherwise, and no sync follows it |
| GatewaySession.EventsOfRelease | dse/fmigateway/session.c:117-162 | what a release adds to any run, in order: teardown alone without an init; else the extra syncs in their number, the exit, and what follows it |
| GatewaySession.TeardownRuns | dse/fmigateway/session.c:117-162 | teardown runs if and only if no init succeeded, or the gateway has a session or the simer runtime and the shutdown command succeeds |
| GatewaySession.TeardownSkipped | dse/fmigateway/session.c:117-162 | two releases without teardown |
| GatewaySession.StateOnlyAdvances | dse/fmigateway/fmigateway.c:116-230 | the state only advances if and only if the run does not initialise again after a step |
| GatewaySession.SecondInitFallsBack | dse/fmigateway/fmigateway.c:116-147 | a run in which the state falls back |
| GatewaySession.FmiGateway.FmuInit | dse/fmigateway/fmigateway.c:116-147 | starts the session and sets the gateway up; only full success initialises |
| GatewaySession.FmiGateway.FmuStep | dse/fmigateway/fmigateway.c:174-200 | one sync; the step times are kept when the gateway is behind |
| GatewaySession.FmiGateway.ShutdownModels | dse/fmigateway/session_win32.c:541-614 | the extra syncs, and then the exit |
| GatewaySession.FmiGateway.EndSession | dse/fmigateway/session.c:117-162 | the sequence of effects for each state, runtime and session |
| GatewaySession.FmiGateway.FmuDestroy | dse/fmigateway/fmigateway.c:221-230 | ends the session and the life of the gateway |
| VrefAllocator.LeadingScalars | extra/tools/fmi/internal/app/generate/gatewayfmu.go:323-374 | scalars in front of everything else are numbered consecutively |
| VrefAllocator.BehindBinary | extra/tools/fmi/internal/app/generate/gatewayfmu.go:325-336 | what follows a binary signal takes over its input reference |
| VrefAllocator.DistinctExactlyWhenBinaryLast | extra/tools/fmi/internal/app/generate/gatewayfmu.go:323-374 | the references of the merged signals are pairwise distinct if and only if nothing is kept behind a binary signal |
| VrefAllocator.BinaryInFrontClashes | extra/tools/fmi/internal/app/generate/gatewayfmu.go:323-374 | a scalar or a second binary signal behind a binary one shares a reference with it |
| VrefAllocator.WholeFmuDistinct | extra/tools/fmi/internal/app/generate/gatewayfmu.go:283-417 | the same for the whole FMU: parameters never clash |
| VrefAllocator.KeptOnce | extra/tools/fmi/internal/app/generate/gatewayfmu.go:337-373 | a scalar name is kept, and then once, if and only if it is new and its first signal is not local |
| VrefAllocator.CausalityOrder | extra/tools/fmi/internal/app/generate/gatewayfmu.go:343-358 | an FMI causality decides before a direction, and that before the direction of a SoftECU |
| VrefAllocator.LocalIsDropped | extra/tools/fmi/internal/app/generate/gatewayfmu.go:343-361 | which annotations drop a new signal |
| VrefAllocator.KeptInOrder | extra/tools/fmi/internal/app/generate/gatewayfmu.go:337-373 | the kept scalars keep their order |
| VrefAllocator.KeptOnceOverall | extra/tools/fmi/internal/app/generate/gatewayfmu.go:376-417 | over all groups a scalar name is kept at most once |
| VrefAllocator.KeptAcrossGroups | extra/tools/fmi/internal/app/generate/gatewayfmu.go:376-417 | the scalars kept of all groups are those kept of one list of all signals of scalar groups |
| VrefAllocator.BinariesAreKept | extra/tools/fmi/internal/app/generate/gatewayfmu.go:325-336 | every signal of a binary group is kept |
| VrefAllocator.Generator.CreateRuntime | extra/tools/fmi/internal/app/generate/gatewayfmu.go:283-321 | the two built-in parameters of the simer runtime, none otherwise |
| VrefAllocator.Generator.GetEnvar | extra/tools/fmi/internal/app/generate/gatewayfmu.go:511-551 | exactly the named entries of the type become parameters, numbered on from the parameters before |
| VrefAllocator.EnvarBecomesParameter | extra/tools/fmi/internal/app/generate/gatewayfmu.go:512-526 | which entries become real and string parameters |
| VrefAllocator.Generator.ParseParametersCsv | extra/tools/fmi/internal/app/generate/gatewayfmu.go:556-608 | fails if and only if a record is short or has an unknown type; else all records but headers become parameters, numbered on |
| VrefAllocator.Generator.PatchScalars | extra/tools/fmi/internal/app/generate/gatewayfmu.go:337-373 | the kept scalars, the names used up and the counter after one scalar group |
| VrefAllocator.Generator.PatchBinary | extra/tools/fmi/internal/app/generate/gatewayfmu.go:325-336 | every binary signal takes the counter's reference and the next; the counter stays |
| VrefAllocator.Generator.MergeSignalGroups | extra/tools/fmi/internal/app/generate/gatewayfmu.go:376-417 | the merged signals get the specified references, distinct for the whole FMU if and only if nothing is kept behind a binary signal |
| SimerRuntime.CommandNeedsReference0 | dse/fmigateway/session_win32.c:823-834 | the command parameter has an effect if and only if its reference is 0; a non-empty command is then the one used |
| SimerRuntime.SelectorNeedsReference1 | dse/fmigateway/session_win32.c:825-834 | the selector parameter has an effect if and only if its reference is 1; without a command it is then the position of the one used |
| SimerRuntime.SimerDefaults | dse/fmigateway/session_win32.c:825-834 | without a command the first configured one is used when the selector is absent or negative, none when it points behind the last |
| SimerRuntime.SimerReferencesSwapped | extra/tools/fmi/internal/app/generate/gatewayfmu.go:289-315 | with the generated references neither parameter has any effect, for all values; with them exchanged both have one |

## Left out

- The marshal library, ascii85, hashlist, hashmap and vector are not part of this model. Conversions and the
  ascii85 pair are parameters; `marshal_group_in/out` copy as their tests pin it; containers are sequences and maps.
- Enumeration values of the marshal library that no test pins are only used as distinct numbers, and the number
  of marshal types is a parameter.
- FMI calls into a foreign FMU: a failing call is described by the set of positions it had handled, and an
  FMU ignores references it does not have.
- What a model's step does is a parameter; the counter FMU is the one step that is modelled.
- 32-bit wrap-around of buffer lengths, block sizes and offsets: these are unbounded numbers here, except for the
  seek, where the wrap matters.
- FmuExchange.FmuInstance.GetEntry: what memory holds behind the buffer of a signal is a parameter.
- SignalVectors.SignalVector.Append: the growth policy of the buffer and the 32-bit wrap of its length are not modelled. The stream object and the
  signal it is open on are one object, with the position as a field.
- DirectAccess.LayoutIsAllocated: maps of 2^32 bytes and more, which the 32-bit references of FMI do not reach.
- DirectAccess.DirectFmu: the bytes behind the map are somebody else's memory of at least eight bytes; a fault of the
  access itself is not modelled.
- VarTable.FmuInstance.DoStep: table and signals have storage. VarTable.FmuInstance and
  FmuExchange.FmuInstance are the scalar and the binary part of one structure.
- VarTable.FmuInstance.RegisterVar: its key length is defined outside the repository; the model uses the eleven bytes
  that dse/fmu/fmi2fmu.c:21 uses.
- EnvBlock.BuildEnv: a parameter with a NULL default value is not modelled.
- CsvReplay: signals of the FMI 3 importer; line lengths; `strtod` and `atoi` are parameters.
- SignalAnnotation: the counting mode without a direct index, and the order of signals without annotations; a missing
  annotation map is an empty one.
- ChannelLookup: YAML loading; a channel without a name or alias.
- GatewaySession: processes, environment variables and waiting; the answers of the environment are parameters.
- VrefAllocator.Generator: real and string parameters are two lists in the source and one list here, in order of
  allocation. Start values, channels and file output are not modelled.
- DirectIndexLayout.DirectIndex: groups are positions in a sequence instead of pointers.
- fmi3fmu.c, whose live code repeats fmi2fmu.c; the NCodec encoders and their trace; XML, YAML, files,
  processes and consoles; logging; the example network and CAN models; rounding of doubles.
