# PSim core, modelled in Dafny

This project models the core of PSim, the spacecraft simulation and
guidance/navigation support code of the Pathfinder for Autonomous Navigation
mission. It has one Dafny module per core source file:

- **AutocoderNames, AutocoderEntities, AutocoderModel** model the model
  autocoder (`tools/autocoder.py`). It reads a YAML description of a
  simulation model and generates the C++ header of its base class. The
  modules cover:
  - the regular expressions, with Python's `$` rule that a final newline may
    follow the match;
  - the `{arg}` placeholder syntax of field names, and the `member_name` and
    `string_name` renderings;
  - the argument, parameter and state-field entities with every error their
    constructors raise;
  - the generated code, built by an imperative emitter and cached by the
    `Model` class.
- **ConstantsGenerator** models `tools/constants_generator.py`. It turns the
  rows of a constants CSV into a header and a source file.
- **SimState** models the simulation state registry (`src/psim/core/state.cpp`).
  Readable and writable fields share one name space.
- **StateFieldLazyModel** models the lazily evaluated state field
  (`include/psim/core/state_field_lazy.hpp`): evaluate once, cache, reset.
- **SimConfiguration** models the line-based configuration file parser
  (`src/psim/core/configuration.cpp`).
- **OrbitSchedule** models the propagation schedule of `orb::Orbit`
  (`include/orb/Orbit.h`). It counts how many gravity calls a propagation
  needs, in long seven-stage steps and short steps, and tracks the time each
  call reaches.
- **GroundPropagatorModel** models the ground propagator
  (`include/orb/GroundPropagator.h`). It keeps three orbits (current,
  catching up, to catch up), sorted by the gravity calls each still needs
  and by the order they were uplinked. Ghost uplink numbers on the slots
  state that second order.
- **GncContainers** models the fixed-capacity circular buffer
  (`include/gnc_containers.hpp`).
- **PsimConfig** models the Python configuration-tree loader
  (`python/psim/config.py`). Each directory's JSON layers shared, leader and
  follower entries over its parents'. Paths are normalised as `abspath`
  does. The test that the requested directory lies inside the base compares
  texts, so a sibling whose name extends the base's (`/a/bc` for `/a/b`)
  passes it; the model keeps that behaviour.
- **PlotPlugin** and **StopPlugin** model the plotting and step-count stop
  plugins (`python/psim/plugins/`).

Where a source file changes state in place, the model is a Dafny class whose
methods are proved against a pure function that states their effect. Pure code is modelled
as functions and lemmas.

Where the documented intent and the code differ, the model follows the code.
The main case is the autocoder's type check. The code at
`tools/autocoder.py:81` reads `if not self._type and not _re_type.match(...)`,
so it only ever rejects the empty type. A lower-case type such as `real`
therefore passes the type grammar. It is then refused by the underlying-type
count at line 96 (`LowerCaseType`), not by the grammar.

## Model

| member | source | states |
|---|---|---|
| AutocoderNames.CommentTrailingNewline | tools/autocoder.py:13 | `_re_comment` accepts a valid comment followed by one newline (Python `$`), though the newline itself is not a comment character |
| AutocoderNames.Placeholder | tools/autocoder.py:14 | a recognised placeholder names an argument matching `[a-z][a-z_]*` and fits, with its two braces, in the text |
| AutocoderNames.PlaceholderShape | tools/autocoder.py:14 | a recognised placeholder `a` is the text's prefix `{a}`: `{`, the argument, then `}` |
| AutocoderNames.PlaceholderComplete | tools/autocoder.py:14 | conversely, every `{a}` with `a` matching `[a-z][a-z_]*` at the start of a text is recognised as the placeholder `a`, whatever follows it |
| AutocoderNames.Scan | tools/autocoder.py:110 | the matches of the left-to-right scan lie in the text from the starting position on, in increasing order and without overlapping |
| AutocoderNames.ScanSound | tools/autocoder.py:110 | every match of the scan occurs in the text as `{arg}` with a valid argument |
| AutocoderNames.FindAll | tools/autocoder.py:110 | `_re_replace.findall` yields one string per match of the scan, each the text of the name at that match |
| AutocoderNames.ScanComplete | tools/autocoder.py:110 | the scan from any position at or before a placeholder's occurrence lists it: no placeholder is skipped |
| AutocoderNames.FindAllComplete | tools/autocoder.py:110 | every occurrence of a placeholder in the name is among the scan's matches, so `findall` lists its text |
| AutocoderNames.FindAllRefs | tools/autocoder.py:110 | `findall` yields exactly the placeholders of the tokenized name, in order, each in braces |
| AutocoderNames.TokenizeDetokenize | tools/autocoder.py:10-14 | tokenizing the rendering of well-formed tokens gives the tokens back |
| AutocoderNames.DetokenizeTokenize | tools/autocoder.py:10 | splitting a name into literal characters and placeholders loses nothing: rendering the tokens gives the name back |
| AutocoderNames.ValidNameWellFormed | tools/autocoder.py:10 | every name matching `_re_variable` tokenizes into well-formed literal characters and placeholders |
| AutocoderNames.MemberName | tools/autocoder.py:99-104 | `member_name` contains no `.`, `{` or `}` and is no longer than the name |
| AutocoderNames.MemberNameDistributes | tools/autocoder.py:102 | the three replacements act character by character, so `member_name` of a concatenation is the concatenation of the parts' |
| AutocoderNames.PlaceholderMemberName | tools/autocoder.py:102 | a placeholder `{a}` becomes just `a` in the member name |
| AutocoderNames.MemberNameFromTokens | tools/autocoder.py:99-104 | for a valid name, `member_name` is the name with each placeholder replaced by its bare argument and `.` by `_` |
| AutocoderNames.ReplaceOneArgument | tools/autocoder.py:111 | replacing every `{a}` by `"+_a+"` turns exactly the `a` placeholders into member references and leaves the rest unchanged |
| AutocoderNames.ReplaceStep | tools/autocoder.py:110-111 | one pass of the replacement loop on the quoted name adds one argument to the set of substituted placeholders |
| AutocoderNames.ReplacePlaceholders | tools/autocoder.py:110-111 | the replacement loop over the `findall` matches yields the quoted name with every placeholder substituted |
| AutocoderNames.StripFront | tools/autocoder.py:113-114 | the expression starts with `""+` exactly when it begins with an empty literal followed by another term, and stripping removes only that literal |
| AutocoderNames.StripBack | tools/autocoder.py:115-116 | the expression ends with `+""` exactly when it ends with an empty literal after another term, and stripping removes only that literal |
| AutocoderNames.StripEmptyEnds | tools/autocoder.py:113-116 | the two prefix/suffix cuts compute the trimming function and never lengthen the text |
| AutocoderNames.StringName | tools/autocoder.py:106-118 | the imperative `string_name` equals the term-based reference definition: quoted literal runs and `_arg` members joined by `+`, with no empty literal at either end |
| AutocoderNames.StringNameMeaning | tools/autocoder.py:106-118 | once each `_arg` member holds its argument's value, the generated C++ expression evaluates to the field name with every placeholder filled in |
| AutocoderNames.QuotedRender | tools/autocoder.py:109-111 | the quoted, fully substituted name is the `+`-joined printing of its terms |
| AutocoderNames.PlainStringName | tools/autocoder.py:108-109 | a valid name without placeholders is rendered as the plain quoted string |
| AutocoderNames.NoPlaceholders | tools/autocoder.py:110 | a name without `{` has no placeholders and tokenizes into characters only |
| AutocoderEntities.NewArgument | tools/autocoder.py:20-30 | an argument is accepted exactly when its name matches `_re_arg`, and is otherwise refused with its name |
| AutocoderEntities.CheckCommented | tools/autocoder.py:54-62 | a comment element is accepted exactly when the comment is absent, empty or matches `_re_comment` and no extra keys remain; a bad comment is reported before extra keys |
| AutocoderEntities.MatchesIn | tools/autocoder.py:91-94 | the underlying-type scan keeps exactly the listed types that occur in the type string |
| AutocoderEntities.CountUnderlying | tools/autocoder.py:88-97 | the counting loop's count is the number of underlying types contained in the type, and the type it remembers is the last one found |
| AutocoderEntities.NewVariable | tools/autocoder.py:73-97 | a variable is built exactly when the comment and keys are valid, the name matches `_re_variable`, and the type contains exactly one underlying type, which is the one recorded |
| AutocoderEntities.OneUnderlying | tools/autocoder.py:96-97 | when exactly one underlying type matches, it occurs in the type and no other listed type does |
| AutocoderEntities.TypeFormatOnlyRejectsEmpty | tools/autocoder.py:80-82 | the type-format check only ever refuses the empty type |
| AutocoderEntities.TypeGrammarRejectsWords | tools/autocoder.py:11 | `_re_type` refuses ordinary type words such as `Real`, `Integer` and `Real Lazy`, so it could not have been meant as written |
| AutocoderEntities.LowerCaseType | tools/autocoder.py:80-97 | the type `real` passes the format check and is refused by the underlying-type count |
| AutocoderEntities.ShortTypeHasNoUnderlying | tools/autocoder.py:91-97 | a type shorter than four characters contains no underlying type |
| AutocoderEntities.ModifierTokens | tools/autocoder.py:12 | every token `_re_modifier.findall` returns is an upper-case letter followed by lower-case letters or digits |
| AutocoderEntities.NewAdds | tools/autocoder.py:169-194 | an added field is built exactly when the variable is valid, its modifiers include the underlying type and are otherwise only Initialized/Lazy/Writable, and Lazy is not combined with the other two; a missing underlying token is a KeyError |
| AutocoderEntities.NewGets | tools/autocoder.py:241-256 | a fetched field is built exactly when the variable is valid and its modifiers are the underlying type plus optionally Writable; a missing underlying token is a KeyError |
| AutocoderEntities.SuffixedTypeRaisesKeyError | tools/autocoder.py:180-182 | the type `Reals` has underlying type Real but modifier `Reals`, so both field kinds fail with the KeyError of `set.remove('Real')` |
| AutocoderEntities.RealsMissing | tools/autocoder.py:91-94 | substring matching finds Real in `Reals` while the modifier scan does not produce the token Real |
| AutocoderModel.MapAll | tools/autocoder.py:300-303 | building a list of entities succeeds exactly when every element builds; then element i of the result is what its own constructor builds, and otherwise the error is the first failing element's, all before it having built |
| AutocoderModel.NewModel | tools/autocoder.py:289-306 | a model is built exactly when the comment check passes, the name is a non-empty match of `_re_model`, the type is `Model` and every argument, parameter, adds and gets entry builds; the built model keeps the name and one entity per description, each what its own constructor builds; otherwise the error is the comment error, then the invalid name, then the invalid type, then the first failing entity of the first failing list |
| AutocoderModel.NewModelValid | tools/autocoder.py:289-306 | every built model is valid (its name matches, its entities are valid) and its type is `Model` |
| AutocoderModel.Upper | tools/autocoder.py:316-317 | `upper()` maps exactly the lower-case ASCII letters to upper case and keeps the length |
| AutocoderModel.LazyAdds | tools/autocoder.py:417-420 | the lazy added fields are exactly the added fields marked Lazy |
| AutocoderModel.StepResetsLazyFields | tools/autocoder.py:417-420 | the generated `step()` resets each lazy field once, in declaration order, and nothing else |
| AutocoderModel.AppendEach | tools/autocoder.py:336-337 | the append loop adds one rendered line per entity, in order |
| AutocoderModel.AppendGroup | tools/autocoder.py:352-355 | an entity group is emitted with its trailing blank line only when it is non-empty |
| AutocoderModel.EmitDeclarations | tools/autocoder.py:313-367 | the emitted preamble and member declarations equal the declaration section of the reference text |
| AutocoderModel.EmitConstructor | tools/autocoder.py:369-389 | the emitted constructor lists the arguments' parameters and then every initializer in chain order |
| AutocoderModel.EmitFields | tools/autocoder.py:388-408 | the emitted `add_fields` and `get_fields` register every added field and fetch every fetched field |
| AutocoderModel.EmitStep | tools/autocoder.py:410-427 | the emitted `step()` and closing lines equal the reference text |
| AutocoderModel.EmitCode | tools/autocoder.py:308-429 | the imperative code generator produces exactly the reference text of the model |
| AutocoderModel.Model.constructor | tools/autocoder.py:305-306 | a new model holds its definition and no cached code |
| AutocoderModel.Model.Code | tools/autocoder.py:308-429 | `code` returns the reference text, caches it, and returns the cached text unchanged on later calls |
| AutocoderModel.CodeNonEmpty | tools/autocoder.py:310-311 | the generated code is never empty, so the `if not self.__code` cache test regenerates only on the first call |
| AutocoderModel.PlainName | tools/autocoder.py:99-118 | a lower-case one-word field name is valid, is its own member name, and is rendered as a plain quoted string |
| AutocoderModel.TokenThenRest | tools/autocoder.py:12 | a modifier word followed by the end or a blank is scanned as one token and the scan continues after it |
| AutocoderModel.WordsTokens | tools/autocoder.py:156 | the modifiers of `W rest` are `W` followed by the modifiers of `rest` |
| AutocoderModel.WordModifiers | tools/autocoder.py:156 | a type that is a single modifier word has exactly that word as its set of modifiers |
| AutocoderModel.OnlyReal | tools/autocoder.py:88-97 | a type starting with `Real` that contains no `I` and no `V` has Real as its only underlying type |
| ConstantsGenerator.Generate | tools/constants_generator.py:54-97 | the two outputs are header + the rows' header text + footer and source header + the rows' source text + footer |
| ConstantsGenerator.EmitRow | tools/constants_generator.py:75-94 | handling one CSV row appends exactly that row's header text and source text |
| ConstantsGenerator.AppendTracked | tools/constants_generator.py:84-87 | a `GNC_TRACKED_CONSTANT(...)` line is appended with the type, the name and all the values |
| ConstantsGenerator.AppendValues | tools/constants_generator.py:85-86 | the loop over the extra values appends `, v` for each, in order |
| ConstantsGenerator.ValuesJoined | tools/constants_generator.py:84-87 | the first value followed by the `, v` suffixes is the comma-joined value list |
| ConstantsGenerator.EmittedConcatenates | tools/constants_generator.py:75 | the text emitted for two row sequences is the concatenation of their texts |
| ConstantsGenerator.BodiesConcatenate | tools/constants_generator.py:75-94 | the header and source bodies of concatenated CSV files are the concatenations of the bodies |
| ConstantsGenerator.RowClassification | tools/constants_generator.py:76-94 | short rows and rows whose flag is neither true nor false emit nothing; the source gets text exactly for editable rows; editable rows give an `extern` declaration and fixed rows a `constexpr static` constant |
| ConstantsGenerator.EditableIgnoresCase | tools/constants_generator.py:82-90 | a complete row is editable exactly when its flag spells `true` in any mix of cases, and fixed exactly when it spells `false` |
| ConstantsGenerator.LowerSpells | tools/constants_generator.py:82-90 | `lower()` of a text equals a lower-case word exactly when the text spells that word in any mix of cases |
| ConstantsGenerator.Lower | tools/constants_generator.py:82 | `lower()` keeps the length and maps each ASCII capital to its lower-case letter, leaving every other character alone |
| SimState.Register | src/psim/core/state.cpp:43-97 | registration succeeds exactly when the name is in neither map, and then adds the field to the map of its access kind only |
| SimState.RegisterKeepsConsistent | src/psim/core/state.cpp:43-97 | registration keeps the two maps disjoint and name-keyed, makes the new field findable, and leaves every other name's lookup unchanged |
| SimState.SecondRegistrationFails | src/psim/core/state.cpp:44-65 | registering a name a second time fails with the message naming the first registration, whatever the access kinds |
| SimState.State.Has | src/psim/core/state.cpp:35-37 | `has` is true exactly when the name is registered in either map |
| SimState.State.HasWritable | src/psim/core/state.cpp:39-41 | `has_writable` is true exactly when the name is a writable field |
| SimState.State.AddWritable | src/psim/core/state.cpp:43-69 | adding a writable field follows the registration rule: on a collision it raises and changes nothing |
| SimState.State.Add | src/psim/core/state.cpp:71-97 | adding a readable field follows the registration rule: on a collision it raises and changes nothing |
| SimState.State.GetWritable | src/psim/core/state.cpp:99-102 | `get_writable` returns the writable field of that name, or null when there is none |
| SimState.State.Get | src/psim/core/state.cpp:104-117 | `get` returns the field of that name from either map, or null |
| SimState.State.At | src/psim/core/state.cpp:119-125 | `operator[]` returns the field or raises "State field not found" |
| StateFieldLazyModel.Read | include/psim/core/state_field_lazy.hpp:85-91 | a read leaves the field evaluated and returns the cached value, calling the function only when the field was not evaluated |
| StateFieldLazyModel.Cleared | include/psim/core/state_field_lazy.hpp:95-97 | `reset` clears only the evaluated flag |
| StateFieldLazyModel.ReadIsCached | include/psim/core/state_field_lazy.hpp:80-91 | a second read returns the first read's value even if the environment has changed |
| StateFieldLazyModel.ReadAfterReset | include/psim/core/state_field_lazy.hpp:93-97 | after a reset the next read re-evaluates the function |
| StateFieldLazyModel.StateFieldLazy.constructor | include/psim/core/state_field_lazy.hpp:72-76 | a new lazy field holds its function and is not evaluated |
| StateFieldLazyModel.StateFieldLazy.Get | include/psim/core/state_field_lazy.hpp:85-91 | the conversion operator reads the field, counting one evaluation exactly when it was not evaluated |
| StateFieldLazyModel.StateFieldLazy.Reset | include/psim/core/state_field_lazy.hpp:95-97 | `reset` clears the flag and evaluates nothing |
| StateFieldLazyModel.ReadResetRead | include/psim/core/state_field_lazy.hpp:80-97 | read, read and reset-then-read return f(first), f(first) and f(third) |
| SimConfiguration.WordLength | src/psim/core/configuration.cpp:75-79 | the first word is the longest run of non-whitespace characters |
| SimConfiguration.Tokens | src/psim/core/configuration.cpp:75-79 | stream tokenization yields only non-empty whitespace-free words |
| SimConfiguration.TokensUnwords | src/psim/core/configuration.cpp:75-79 | tokenizing words joined by blanks gives the words back |
| SimConfiguration.RealsOf | src/psim/core/configuration.cpp:116-138 | vector components are converted with `stod` and succeed exactly when every component does |
| SimConfiguration.ValueOf | src/psim/core/configuration.cpp:109-138 | one value without `.` is an integer by `stol`, one with `.` is a real by `stod`, and two to four values are a vector of their `stod`s; a failed conversion is an error |
| SimConfiguration.LineRules | src/psim/core/configuration.cpp:71-148 | comment and blank lines define nothing; a bad name, a single token or more than five tokens is the matching error; a defining line has 2 to 5 tokens and its first token names it |
| SimConfiguration.IndentedHashIsAnError | src/psim/core/configuration.cpp:71-96 | only a `#` in the first column starts a comment: an indented `#` line is an invalid name |
| SimConfiguration.ParsedExtends | src/psim/core/configuration.cpp:40-53 | parsing never changes or removes a parameter that was already defined |
| SimConfiguration.ErrorIsFinal | src/psim/core/configuration.cpp:68-156 | once a line fails, the rest of the file changes neither the parameters nor the error |
| SimConfiguration.PrefixSucceeds | src/psim/core/configuration.cpp:68-156 | if the whole file parses, so does every prefix of it |
| SimConfiguration.DefinedLinesStored | src/psim/core/configuration.cpp:40-53 | after a successful parse, every defining line's value is stored under its name |
| SimConfiguration.NoRepeatedNames | src/psim/core/configuration.cpp:43-49 | in a successful parse no name is defined twice, neither within the file nor over an earlier file |
| SimConfiguration.Configuration.Add | src/psim/core/configuration.cpp:40-53 | `_add` raises on a duplicate name and leaves the parameters unchanged, and otherwise stores the value |
| SimConfiguration.Configuration.Parse | src/psim/core/configuration.cpp:55-157 | an unopenable file is an error; otherwise the parameters and the error are those of the line-by-line function `Parsed` |
| SimConfiguration.Configuration.Get | src/psim/core/configuration.cpp:180-183 | `get` returns the parameter of that name, or null |
| SimConfiguration.Configuration.At | src/psim/core/configuration.cpp:172-178 | `operator[]` returns the parameter or raises "Parameter not found" |
| SimConfiguration.Make | src/psim/core/configuration.cpp:185-189 | a configuration made from one file holds that file's parameters, or the file's error |
| SimConfiguration.MakeAll | src/psim/core/configuration.cpp:191-196 | files are parsed in order into one configuration, and the first error is the result |
| SimConfiguration.FilesErrorIsFinal | src/psim/core/configuration.cpp:191-196 | once a file fails, the later files are not parsed |
| OrbitSchedule.Made | include/orb/Orbit.h:127-140 | a constructed orbit is not propagating; it is valid exactly when its position is in the radius window, and then it keeps its time |
| OrbitSchedule.Advanced | include/orb/Orbit.h:500-527 | a step moves the time toward the target by at most the step size, never past it |
| OrbitSchedule.ShortCallsBelow | include/orb/Orbit.h:442 | a remaining distance of up to six short steps needs ceil(distance / short step) calls, between 0 and 6 |
| OrbitSchedule.ShortCallsStep | include/orb/Orbit.h:442 | one full short step of distance costs exactly one call |
| OrbitSchedule.LongDistanceCalls | include/orb/Orbit.h:432-442 | a distance beyond six short steps needs at least seven calls, and exactly seven when it is shorter than one long step |
| OrbitSchedule.LongStepCalls | include/orb/Orbit.h:432-437 | each full long step adds seven calls |
| OrbitSchedule.CallsForZero | include/orb/Orbit.h:439-442 | no calls are needed exactly when there is no distance to cover |
| OrbitSchedule.CallCounts | include/orb/Orbit.h:431-442 | the call count at the step-size boundaries: 1 call up to one short step, 7 for a long step, 8 just beyond it, 77 just beyond ten long steps and six short ones |
| OrbitSchedule.StartKeepsConsistent | include/orb/Orbit.h:418-443 | `startpropagating` keeps the call counter equal to the calls needed for the remaining distance plus the unfinished long-step stages |
| OrbitSchedule.StepKeepsConsistent | include/orb/Orbit.h:463-542 | `onegravcall` keeps that same counter invariant |
| OrbitSchedule.LongStepKeepsConsistent | include/orb/Orbit.h:503-515 | a long step keeps the invariant |
| OrbitSchedule.ShortStepKeepsConsistent | include/orb/Orbit.h:516-527 | a short step keeps the invariant |
| OrbitSchedule.SubStepKeepsConsistent | include/orb/Orbit.h:528-533 | a stage inside a long step keeps the invariant |
| OrbitSchedule.StepSpendsOne | include/orb/Orbit.h:463-542 | an invalid or finished orbit is unchanged; otherwise a call spends exactly one of the remaining calls, keeps the target, and moves the time toward it |
| OrbitSchedule.LongStepPhases | include/orb/Orbit.h:486-533 | a long step opens stage 1; the later stages keep the time and advance the stage modulo 7 |
| OrbitSchedule.LastCallReachesTarget | include/orb/Orbit.h:500-537 | the call that brings the counter to zero leaves the orbit exactly at the target time |
| OrbitSchedule.FinishReachesTarget | include/orb/Orbit.h:549-553 | `finishpropagating` ends with no calls left and, if it was propagating, at the target time |
| OrbitSchedule.RetargetMidLongStep | include/orb/Orbit.h:418-443 | retargeting in the middle of a long step keeps the unfinished stages in the counter |
| OrbitSchedule.CountCalls | include/orb/Orbit.h:431-442 | the counting code returns the unfinished stages plus the calls needed for the distance |
| OrbitSchedule.Orbit.constructor | include/orb/Orbit.h:165 | the default orbit is invalid |
| OrbitSchedule.Orbit.FromState | include/orb/Orbit.h:176-181 | the constructed orbit is the validity-checked state |
| OrbitSchedule.Orbit.NumGravCallsLeft | include/orb/Orbit.h:451-453 | it returns the call counter, which is zero exactly when there is nothing left to finish |
| OrbitSchedule.Orbit.StartPropagating | include/orb/Orbit.h:418-443 | the fields become the `Start` state and the invariant holds |
| OrbitSchedule.Orbit.OneGravCall | include/orb/Orbit.h:463-542 | the fields become the `Step` state and the invariant holds |
| OrbitSchedule.Orbit.FinishPropagating | include/orb/Orbit.h:549-553 | the loop ends in the `Finish` state with no calls left, at the target time if any calls were pending |
| GroundPropagatorModel.PresortedIsSorted | include/orb/GroundPropagator.h:100-109 | the presorting promotions keep the call order and the input order, and keep every held orbit older than the next uplink |
| GroundPropagatorModel.InputKeepsSorted | include/orb/GroundPropagator.h:67-123 | `input` keeps the documented invariants: a valid slot's predecessors are valid, need fewer calls and were input earlier; the new orbit is numbered as the newest uplink |
| GroundPropagatorModel.InputPlacesNewest | include/orb/GroundPropagator.h:110-122 | a valid uplinked orbit is kept, as the last valid slot: alone in `current` when it finishes no later than the current one (or none is valid), otherwise behind `current`, replacing a slower `catching_up` or queued as `to_catch_up` |
| GroundPropagatorModel.InputInvalidUnchanged | include/orb/GroundPropagator.h:95-123 | an invalid uplink into slots already aimed at the time changes nothing |
| GroundPropagatorModel.StartSettled | include/orb/GroundPropagator.h:97-99 | restarting an orbit already aimed at the same time changes nothing |
| GroundPropagatorModel.StartSettles | include/orb/GroundPropagator.h:97-99 | after `startpropagating`, an orbit is aimed at the given time |
| GroundPropagatorModel.InputSettles | include/orb/GroundPropagator.h:95-123 | after `input` every slot aims at the new time, and a repeated invalid input is idempotent |
| GroundPropagatorModel.OneGravCallKeepsSorted | include/orb/GroundPropagator.h:130-142 | `one_grav_call` keeps the call order and the input order |
| GroundPropagatorModel.OneGravCallSpendsOne | include/orb/GroundPropagator.h:125-142 | one call reduces the total outstanding calls by exactly one, and does nothing when none remain |
| GroundPropagatorModel.EmptyIsSorted | include/orb/GroundPropagator.h:86 | the empty propagator satisfies the invariants, needs no calls, has no estimate and is left alone by a gravity call |
| GroundPropagatorModel.GroundPropagator.constructor | include/orb/GroundPropagator.h:86 | a new propagator holds three invalid orbits |
| GroundPropagatorModel.GroundPropagator.Input | include/orb/GroundPropagator.h:95-123 | `input` moves the three orbit objects to the `AfterInput` state, numbers the new orbit as the next uplink and keeps the invariants |
| GroundPropagatorModel.GroundPropagator.StartAll | include/orb/GroundPropagator.h:97-99 | the three `startpropagating` calls retarget each slot in place |
| GroundPropagatorModel.GroundPropagator.OvertakeStep | include/orb/GroundPropagator.h:101-104 | a valid `to_catch_up` needing no more calls than `catching_up` takes its place |
| GroundPropagatorModel.GroundPropagator.PromoteStep | include/orb/GroundPropagator.h:105-109 | a valid `catching_up` needing no more calls than `current` takes its place, and the queue moves up |
| GroundPropagatorModel.GroundPropagator.EnqueueStep | include/orb/GroundPropagator.h:112-121 | the uplinked orbit enters the queue at the place its call count gives it |
| GroundPropagatorModel.GroundPropagator.OneGravCall | include/orb/GroundPropagator.h:130-142 | `one_grav_call` moves them to the `AfterGravCall` state and keeps them sorted |
| GroundPropagatorModel.GroundPropagator.TotalNumGravCallsLeft | include/orb/GroundPropagator.h:148-150 | the total is the sum of the three counters, and is zero exactly when all three are |
| GroundPropagatorModel.GroundPropagator.BestEstimate | include/orb/GroundPropagator.h:156-158 | the estimate is the current orbit; if it is invalid, so are the other two |
| GroundPropagatorModel.GroundPropagator.ResetOrbits | include/orb/GroundPropagator.h:164-169 | all three orbits become invalid |
| GncContainers.CircularBuffer.constructor | include/gnc_containers.hpp:29 | a new buffer of capacity N is empty |
| GncContainers.CircularBuffer.Full | include/gnc_containers.hpp:34-35 | `full` is true exactly when the buffer holds N elements |
| GncContainers.CircularBuffer.Empty | include/gnc_containers.hpp:36-37 | `empty` is true exactly when the buffer holds no elements |
| GncContainers.CircularBuffer.Size | include/gnc_containers.hpp:38-39 | `size` is the number of elements, at most N |
| GncContainers.CircularBuffer.MaxSize | include/gnc_containers.hpp:40-41 | `max_size` is N |
| GncContainers.CircularBuffer.Get | include/gnc_containers.hpp:42-43 | element i is the i-th oldest element held |
| GncContainers.CircularBuffer.Set | include/gnc_containers.hpp:44-45 | writing element i replaces only that element |
| GncContainers.CircularBuffer.Push | include/gnc_containers.hpp:46-47 | `push` appends the element and, when the buffer is full, drops the oldest |
| GncContainers.CircularBuffer.Clear | include/gnc_containers.hpp:48-49 | `clear` empties the buffer |
| GncContainers.Slot | include/gnc_containers.hpp:52-54 | the backing index of element i is the start offset plus i, wrapped once modulo N |
| GncContainers.PushScenario | test/test_all/containers_test.cpp:18-47 | on a capacity-3 buffer, pushing 0, 1, 2 holds [0, 1, 2], and pushing 3 then holds [1, 2, 3] |
| GncContainers.ReadAll | include/gnc_containers.hpp:42-43 | reading indices 0 to size-1 gives the contents, oldest first |
| PsimConfig.SubDictionary | python/psim/config.py:82-89 | a missing entry gives an empty dictionary, an object entry gives that object, and anything else raises |
| PsimConfig.LoadedFailsAtFirstBadFile | python/psim/config.py:91-108 | loading succeeds exactly when every file's shared/leader/follower entries are dictionaries, and otherwise fails with the first bad file's error |
| PsimConfig.LoadedSnoc | python/psim/config.py:100-106 | each file updates the leader with shared then leader entries, and the follower with shared then follower entries |
| PsimConfig.LastWriterWins | python/psim/config.py:100-106 | each key of a role's dictionary comes from the deepest file that sets it, with the role's own entry beating shared in that file |
| PsimConfig.RolesAreIndependent | python/psim/config.py:95-106 | a role's dictionary does not depend on the other role's entries |
| PsimConfig.LayerWithout | python/psim/config.py:95-98 | removing the other role's entry from a file leaves this role's layers unchanged |
| PsimConfig.Normalised | python/psim/config.py:15-24 | `abspath` drops empty and `.` pieces and climbs on `..` (staying at the root), so a normal start gives a normal path |
| PsimConfig.NormalisedPlain | python/psim/config.py:24 | normal components are appended unchanged |
| PsimConfig.NormalisedIdempotent | python/psim/config.py:24 | normalising a normal path changes nothing |
| PsimConfig.ConfigDirectories | python/psim/config.py:27-54 | the walk up from the normalised requested directory, reversed, is the list of directories from the normalised base down to it, or the error for an invalid base or directory |
| PsimConfig.DirectoriesDecided | python/psim/config.py:43-54 | once both directories exist, the textual prefix test alone decides between the walk from the base and the `Invalid configuration directory` error |
| PsimConfig.EscapeDecided | python/psim/config.py:43-46 | with both directories present, a request at or below the base is walked and one above it gets the `Invalid configuration directory` error with its full path |
| PsimConfig.ParentDirectoryRejected | python/psim/config.py:44-46 | the request `..` is refused with the base's parent in the message |
| PsimConfig.DotIsBase | python/psim/config.py:44-54 | the requests `.` and `` are the base itself, walked alone |
| PsimConfig.DirectoriesBelowBase | python/psim/config.py:44-54 | a relative request of normal components d1/…/dk lists base, base/d1, …, base/d1/…/dk |
| PsimConfig.SiblingPassesCheck | python/psim/config.py:43-54 | the containment test is textual: with base `/a/b` the sibling `/a/bc`, though not below the base, is accepted and walked alone |
| PsimConfig.InsideBasePasses | python/psim/config.py:45-49 | a path at or below the base passes the prefix test |
| PsimConfig.AboveBaseFails | python/psim/config.py:45-49 | a proper ancestor of the base fails the prefix test |
| PsimConfig.AncestryFromBase | python/psim/config.py:48-54 | for a directory below the base, the walk lists base, base/d1, base/d1/d2, … down to the directory itself |
| PsimConfig.AncestryOfBase | python/psim/config.py:48-54 | the walk from the base itself lists only the base |
| PsimConfig.RootIsOutside | python/psim/config.py:49 | the walk stops: the root is never inside a non-root base |
| PsimConfig.Found | python/psim/config.py:57-70 | at most one JSON file is read per directory |
| PsimConfig.FoundPrefix | python/psim/config.py:66-70 | the files found in a prefix of the directories are a prefix of those found in all of them, in order |
| PsimConfig.LoadErrorIsFinal | python/psim/config.py:91-108 | once a file fails, the deeper files do not change the outcome |
| PsimConfig.LoadModuleLayers | python/psim/config.py:73-108 | the loader equals `ModuleLayers` over the package's own base directory, whatever base directory it is given |
| PsimConfig.Reversed | python/psim/config.py:53 | `reverse()` puts element i at position n-1-i |
| PsimConfig.LoadModules | python/psim/config.py:111-114 | `load_modules` answers an empty dictionary whatever it is asked |
| PsimConfig.LoadAllModules | python/psim/config.py:117-120 | `load_all_modules` returns nothing |
| PsimConfig.LoadModule | python/psim/config.py:123-126 | `load_module` is `load_modules` on a single module, so it is empty too |
| PlotPlugin.ComponentOf | python/psim/plugins/plot.py:19-20 | an array names a component exactly when it ends in `.x`, `.y`, `.z` or `.w`, and the component index is that letter's position |
| PlotPlugin.MangleField | python/psim/plugins/plot.py:16-23 | a component array's field is the array name without its `.c` suffix; any other array is its own field |
| PlotPlugin.Items | python/psim/plugins/plot.py:61-63 | a single axis name or a list of names contributes exactly those names |
| PlotPlugin.CachedArrays | python/psim/plugins/plot.py:54-65 | a plot's arrays are x, the y names, and the z names when z is set |
| PlotPlugin.MangleAll | python/psim/plugins/plot.py:47-50 | the fields loop maps every array to its field |
| PlotPlugin.FieldsAreMangledArrays | python/psim/plugins/plot.py:42-52 | a field is needed exactly when it is the mangled name of one of the plot's arrays |
| PlotPlugin.Plot.Init | python/psim/plugins/plot.py:39-40 | a new plot keeps its axes and has no cached arrays or fields |
| PlotPlugin.NewPlot | python/psim/plugins/plot.py:29-40 | a plot is built exactly when z is set or y is given; z, or else y, is turned into a list; without either the constructor fails |
| PlotPlugin.AsListKeepsItems | python/psim/plugins/plot.py:35-37 | wrapping an axis into a list does not change the names it contributes |
| PlotPlugin.Plot.Arrays | python/psim/plugins/plot.py:54-65 | `arrays` computes and caches the plot's arrays, and returns the cache on later calls |
| PlotPlugin.Plot.Fields | python/psim/plugins/plot.py:42-52 | `fields` computes and caches the mangled arrays, and returns the cache on later calls |
| PlotPlugin.AfterPoststep | python/psim/plugins/plot.py:158-168 | every `step`-th poststep appends the simulation value of each logged field and restarts the count; the others only count |
| PlotPlugin.SamplesEveryStep | python/psim/plugins/plot.py:158-168 | over any run with a positive step, each field's log holds exactly the values at steps step, 2·step, … |
| PlotPlugin.NoSamplesWithoutStep | python/psim/plugins/plot.py:165 | with a step of zero or less nothing is ever logged |
| PlotPlugin.Selected | python/psim/plugins/plot.py:184-194 | a component array reads that component of every logged vector of its field; another array is its field's log; a missing field or component is an error |
| PlotPlugin.UnionMembers | python/psim/plugins/plot.py:146-153 | a field is logged exactly when some plot needs it |
| PlotPlugin.AddFields | python/psim/plugins/plot.py:148-152 | adding a plot's fields gives each new field an empty log and keeps the existing ones |
| PlotPlugin.EmptyLogs | python/psim/plugins/plot.py:146-155 | initialization logs exactly the union of the plots' fields, each with an empty log |
| PlotPlugin.SampleAll | python/psim/plugins/plot.py:167-168 | sampling appends the simulation value to every field's log |
| PlotPlugin.Plotter.constructor | python/psim/plugins/plot.py:96-101 | a new plotter has its step, a zero count and no logs |
| PlotPlugin.Plotter.Initialize | python/psim/plugins/plot.py:146-156 | the logged fields become the union of the plots' fields, each with an empty log |
| PlotPlugin.Plotter.Poststep | python/psim/plugins/plot.py:158-168 | the count and logs follow `AfterPoststep` |
| PlotPlugin.Plotter.Cleanup | python/psim/plugins/plot.py:170-194 | with a non-positive step nothing is drawn; otherwise every plot array is selected from the logs |
| StopPlugin.ReachedExactly | python/psim/plugins/stop.py:44 | the progress test `steps / n >= percent / 100` holds exactly when 100·steps ≥ percent·n |
| StopPlugin.Initialized | python/psim/plugins/stop.py:31-38 | a non-zero step count from the command line overrides the budget; zero keeps the default |
| StopPlugin.AfterStep | python/psim/plugins/stop.py:40-51 | each poststep counts one step; with a zero budget it fails with division by zero; the reported percentage rises by 10 when reached; the simulation stops exactly when the budget is positive and reached |
| StopPlugin.StepKeepsTracking | python/psim/plugins/stop.py:40-51 | the threshold stays a multiple of 10, every lower threshold has been reached, and (for a budget of at least 10) the current one has not |
| StopPlugin.RunStopsAtBudget | python/psim/plugins/stop.py:40-51 | with a positive budget n, the k-th poststep asks to stop exactly when k ≥ n |
| StopPlugin.DefaultBudgetDividesByZero | python/psim/plugins/stop.py:14-44 | with the default budget of 0 and no override, the first poststep divides by zero |
| StopPlugin.StopOnSteps.constructor | python/psim/plugins/stop.py:14-19 | a new plugin has the given budget, no steps and a 10 % threshold |
| StopPlugin.StopOnSteps.Initialize | python/psim/plugins/stop.py:31-38 | the counters follow `Initialized` |
| StopPlugin.StopOnSteps.Poststep | python/psim/plugins/stop.py:40-51 | the counters and the answer follow `AfterStep` |

## Left out

- Floating point and orbit dynamics: the gravity model, the symplectic integrator, the ECEF conversions and the radius window of `_check_validity` (`include/orb/Orbit.h:127-140`). The radius test is a boolean input, and an orbit is modelled by its time, target, call counter and long-step stage.
- OrbitSchedule.Start: GPS times are unbounded naturals, so the uint64-to-int64 wrap of the time difference (`include/orb/Orbit.h:424`) and int32 overflow of the call counter are not modelled.
- I/O: reading YAML, JSON and CSV files and writing the generated files are not modelled (the autocoder's `main`, `generate`'s file handles, `_stream_plots`). The parsed contents are inputs, and file existence and directory tests are function parameters.
- Logging, the CSV error `print` in the constants generator, matplotlib drawing (`Plot.plot`) and the final `input()` of the plotter are left out: they produce no state the model tracks.
- The `arguments` methods of the plugins (argparse registration) are left out. Their parsed values are parameters of `Initialize`.
- PlotPlugin.Plotter.constructor: the `plots` argument and its list normalisation are left out. The plot files feed only the file loading, which is not modelled.
- AutocoderEntities.NewVariable: YAML record values are strings; non-string values (numbers, lists) are not modelled.
- The conversions `std::stol` and `std::stod` are parameters of the configuration parser. Whether a token converts, and to what, is not modelled.
- PsimConfig.ConfigDirectories: requires a base that does not normalise to the root. With base `/` the loop at `python/psim/config.py:49-51` never ends, because the parent of `/` is `/`.
- PsimConfig.Normalised: `os.path.expanduser` (a leading `~`) is not modelled, and neither is POSIX `normpath` keeping exactly two leading slashes; a path is either absolute from one root or relative.
- PsimConfig.ConfigDirectories: the requested directory is given already split at `/` (`DirArg`), and the base as its pieces; symbolic links are not resolved, as `abspath` does not resolve them either.
- PsimConfig.SubDictionary: a JSON file whose top-level value is not an object is not modelled; each file is taken to hold a dictionary.
- StopPlugin.ReachedExactly: the floating-point division of `stop.py:44` is modelled as exact rational comparison; rounding is not modelled.
- include/inl/gnc_containers.inl is not part of this model. The circular buffer's behaviour comes from the interface comments in `include/gnc_containers.hpp` and from `test/test_all/containers_test.cpp`. Its contents are stored in a Dafny array with a start offset and a count, as the header's fields are.
- GncContainers.CircularBuffer.constructor: requires a capacity of at least one, since the member `T array[N]` cannot have zero length in C++.
- Concurrency does not arise: the modelled code is single-threaded.
