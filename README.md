# profile_converter, modelled in Dafny

`profile_converter` rewrites a JSON document of profiles, each a named list
of parameters, from one coding scheme into another. Each parameter's short
name is translated in two hops. The source translation table maps the short
name to a code (`edi` in the program's identifiers). The target translation
table maps that code to a short name of the other scheme. Every parameter is
also stamped with a provider number read from a small file. Each failed
lookup is printed, and the walk goes on.

This project models the non-I/O logic of `src/main.rs`:

- `profile_model.dfy` (module `ProfileModel`) holds the document:
  - the structs `Profiles`, `Profile` and `Parameter` are classes, because the tool changes them in place;
  - the setters are methods with `modifies` clauses;
  - each class has a ghost `Value()` that gives its content as a datatype;
  - `Profiles.Valid()` states Rust's ownership: no parameter object sits at two places in the tree.
- `translation.dfy` (module `Translation`) holds `update_profiles`:
  - the nested loops are methods with loop invariants;
  - they are proved against the specification functions `UpdatedParameter`, `UpdatedProfile` and `UpdatedDocument`;
  - the printed miss messages are returned, in order, as a sequence of `Diagnostic` records specified by `ProfilesDiagnostics`.
- `parameter_maps.dfy` (module `ParameterMaps`) holds `load_parameter_maps`:
  - `str::split` on `,`;
  - the loop that fills both maps, proved against `BuildTables`;
  - its panics on a line without a comma or on a file that cannot be opened.
- `provider.dfy` (module `Provider`) holds `parse_provider` and `load_provider`:
  - Rust's `str::parse::<i8>` is written out digit by digit, with its four error kinds;
  - it is proved equal to a reference definition of the accepted literals;
  - the "0" fallback for an unreadable file.
- `pipeline.dfy` (module `Pipeline`) holds the part of `main` that is not menus. It loads both tables and the provider, stops at the first panic, and passes the source table's name→code map and the target table's code→name map to `update_profiles`.
- `wrappers.dfy` and `primitives.dfy` hold `Option`/`Result` and the `i8`/`u16` ranges.

Where the code and the tool's documented intent differ, the model follows the code:

- The fallback code "-1" is an ordinary key. When the source table has no entry for a name, the target table is still queried with "-1", and a "-1" entry there renames the parameter (`Translation.SentinelCanMatch`).
- The provider text is not trimmed. A file holding "7" and a line break is a parse error, and main then panics at `unwrap` (`Provider.NoTrimming`).
- Every line of a translation file must contain a comma. An empty line panics at `tokens[1]` (`ParameterMaps.EmptyLineFails`). Tokens after the second are ignored, not rejected (`ParameterMaps.FirstTwoTokens`).
- The join key is always `shortName`. `edifactNo` is carried through unchanged, and this file has no edifactNo-keyed mode.

## Model

| member | source | states |
|---|---|---|
| ProfileModel.Parameter.constructor | src/main.rs:30-35 | a parameter holds exactly the provider number, short name and optional EDIFACT number it is built with |
| ProfileModel.Profile.constructor | src/main.rs:18-22 | a profile holds exactly the name and parameter sequence it is built with |
| ProfileModel.Profiles.constructor | src/main.rs:11-16 | the document root holds exactly the document name, ME address and profile sequence it is built with, and, given profiles that share no parameter object, it owns its parameters (`Valid()`), as a Rust value tree does |
| ProfileModel.Parameter.SetProvider | src/main.rs:38-40 | only the provider number changes, and it becomes the given id |
| ProfileModel.Parameter.SetShortName | src/main.rs:42-44 | only the short name changes, and it becomes the given name |
| ProfileModel.Profile.AppendName | src/main.rs:25-27 | the name becomes the old name followed by the suffix; the parameters are untouched |
| Translation.UpdateParameter | src/main.rs:142-158 | the parameter becomes its translation: provider stamped, renamed only when the code (or "-1") is in the target table; the misses reported are those of the two lookups, in order |
| Translation.UpdateProfile | src/main.rs:142-159 | every parameter of the profile, at every position, is translated once; the messages are those of its parameters in order |
| Translation.UpdateProfileAt | src/main.rs:140-159 | translating one profile changes that profile's parameters and no parameter of any other profile |
| Translation.UpdateProfiles | src/main.rs:138-161 | the document after the call is the translated document, and the messages are those of every parameter of every profile in traversal order |
| Translation.UpdatePreservesStructure | src/main.rs:140-158 | document name, ME address, the number and order of profiles, their names, the number and order of parameters, and each EDIFACT number are unchanged; only provider number and short name can differ |
| Translation.ProviderStamped | src/main.rs:142-143 | every parameter carries the chosen provider afterwards, whatever it held before |
| Translation.NameTranslation | src/main.rs:144-157 | both lookups hit: the name becomes target[source[name]]; the code is missing from the target: unchanged; the name is missing from the source: target["-1"] if present, else unchanged |
| Translation.SentinelCanMatch | src/main.rs:145-156 | a name unknown to the source is renamed through a "-1" target entry, and the source miss is still reported |
| Translation.ParameterSilentIffResolves | src/main.rs:146-154 | a parameter produces no message exactly when both of its lookups hit |
| Translation.ParametersSilentIffResolve | src/main.rs:142-159 | a profile produces no message exactly when all of its parameters resolve |
| Translation.NoDiagnosticsIffAllResolved | src/main.rs:140-160 | the whole run prints nothing exactly when every parameter of every profile resolves |
| ParameterMaps.Split | src/main.rs:188 | splitting yields at least one token, none of which contains the separator, and two or more exactly when the separator occurs |
| ParameterMaps.JoinSplit | src/main.rs:188 | joining the tokens with the separator gives back the line |
| ParameterMaps.SplitJoin | src/main.rs:188 | splitting a join of separator-free tokens gives back the tokens |
| ParameterMaps.SplitWithoutSeparator | src/main.rs:188 | a line without the separator is a single token |
| ParameterMaps.SplitAtFirstSeparator | src/main.rs:188 | the first token ends at the first separator, and the rest is split alone |
| ParameterMaps.LoadParameterMaps | src/main.rs:177-193 | a file that cannot be opened fails; otherwise the result is the line-by-line table build, including its failure on the first bad line |
| ParameterMaps.FailureIsFinal | src/main.rs:184-191 | once a line has panicked, later lines do not matter |
| ParameterMaps.FailsOnFirstLineWithoutComma | src/main.rs:184-190 | loading fails exactly when some line has no comma, and the fault names the first such line |
| ParameterMaps.EmptyLineFails | src/main.rs:188-189 | an empty line stops the load |
| ParameterMaps.FirstTwoTokens | src/main.rs:188-190 | on "a,b" or "a,b,…" the code is a and the name is b; later tokens are ignored |
| ParameterMaps.InsertAllLastWins | src/main.rs:189-190 | inserting pairs in order gives a map whose keys are the first components, each bound to its last pair's value |
| ParameterMaps.InsertAllDistinctSize | src/main.rs:189-190 | pairs with distinct keys give one entry per pair |
| ParameterMaps.InsertAllInverse | src/main.rs:189-190 | pairs distinct on both sides and their swaps give mutually inverse maps |
| ParameterMaps.WellFormedFileLoads | src/main.rs:184-191 | a file whose every line has a comma loads, into the code→name pairs and the name→code pairs inserted in order |
| ParameterMaps.LastWriteWinsByCode | src/main.rs:184-189 | code→name has exactly the codes of the file, each bound to the name on the last line with that code |
| ParameterMaps.LastWriteWinsByName | src/main.rs:184-190 | name→code has exactly the names of the file, each bound to the code on the last line with that name |
| ParameterMaps.DistinctLinesGiveInverseTables | src/main.rs:189-190 | with distinct codes and distinct names, both maps have one entry per line and are inverse to each other |
| Provider.LoadProvider | src/main.rs:195-198 | an unreadable file gives provider 0; otherwise the file's text is parsed as it stands |
| Provider.ParseI8 | src/main.rs:200-202 | `parse_provider` as `str::parse::<i8>`; its own contract: the Empty error exactly on empty text; its full meaning is given by `Provider.ParseI8Meaning` (accepted texts and their values, error kinds) and `Provider.FormatParseRoundTrip` |
| Provider.AccumulateNeverEmpty | src/main.rs:200-202 | the digit loop never reports Empty, whatever text and accumulator it is given |
| Provider.AccumulateDigits | src/main.rs:200-202 | on all-digit text the digit loop yields the signed value when it fits in an i8, else the overflow kind of its sign |
| Provider.AccumulateNonDigit | src/main.rs:200-202 | a non-digit anywhere in the loop's text gives an error other than Empty |
| Provider.ParseI8Meaning | src/main.rs:200-202 | parsing succeeds exactly on an optional sign plus digits denoting -128..127, with that value; Empty exactly on empty text; overflow kinds follow the sign |
| Provider.FormatParseRoundTrip | src/main.rs:200-202 | every i8 written in decimal parses back to itself |
| Provider.NoTrimming | src/main.rs:195-202 | "7" gives 7, "7" plus a line break and " 7" are invalid digits, and an unreadable file gives 0 |
| Provider.RangeEdges | src/main.rs:200-202 | 127 and -128 parse; 128 and -129 overflow; a lone sign is an invalid digit; "+5" and "-0" parse |
| Pipeline.Convert | src/main.rs:79-118 | the run fails with the first fault in main's order (source table, target table, provider); otherwise the document becomes its translation with source name→code, target code→name and the provider |
| Pipeline.ConfigureSucceedsIff | src/main.rs:79-117 | a run reaches the translation exactly when both files open with a comma on every line and the provider text parses |
| Pipeline.SameTableKeepsKnownNames | src/main.rs:144-156 | using one file with distinct codes and names as both source and target keeps every name the file knows |
| Pipeline.AppendLine | src/main.rs:184-191 | one more line with a comma inserts its code→name and name→code entries |
| Pipeline.TwoLineTables | src/main.rs:184-191 | a two-line file "a,b", "c,d" gives the maps a→b, c→d and b→a, d→c, the second line last |
| Pipeline.ExampleSettings | src/main.rs:79-117 | source "1,FOO", "2,BAR", target "1,BAZ" and provider "7" give FOO→1, BAR→2, 1→BAZ and provider 7 |
| Pipeline.ExampleTranslation | src/main.rs:142-158 | in that run FOO becomes BAZ; BAR keeps its name and its code 2 is reported as missing from the target |

## Left out

- The interactive menus, the "Quit" choices and the file-name filters of `main` (src/main.rs:47-112) are terminal UI. The model takes the chosen files as inputs.
- `get_files_in_dir` (src/main.rs:125-132) lists a directory, which is I/O.
- `deserialize_profiles` and `serialize_profiles` (src/main.rs:134-136, 163-175) call serde_json and write a file.
  - The model starts from the parsed document, built with the constructors.
  - When the document does not parse, main prints the error and never unwraps the provider. That path is outside `Pipeline.Convert`, which starts from a parsed document.
- Opening and reading files (`File::open`, `BufReader::lines`, `fs::read_to_string`) is I/O.
  - A file is an already-read sequence of lines or text, and `None` stands for a file that cannot be opened or read.
  - An I/O error in the middle of the file (`line.unwrap()`, src/main.rs:185-186) is not modelled, and neither is the removal of line terminators.
- The text of the `println!` messages is not modelled. Each message is a `Diagnostic` record carrying what it names.
- Panics and `process::exit` are modelled as `Failure` results.
- Pipeline.Convert: on a fault it states that the document is unchanged, where the program ends the process instead.
- Rust strings are UTF-8 bytes, and the model works on characters. Splitting on an ASCII comma and parsing ASCII digits give the same results either way.
- The `ParseIntError` message texts are not modelled, only its kind.
- `Translation.UpdateProfiles` requires `Profiles.Valid()`, meaning no parameter object is shared. Rust's ownership of the value tree guarantees this, so the requirement only states what the source already has.
