# coolpack command layer

coolpack detects the kind of application in a directory, builds a plan for
it (language, package manager, install, build and start commands and
metadata) and turns that plan into a Dockerfile and a container image. This
project models the command layer in `cmd/coolpack`. It sits between the
detector, which produces the plan, and the generator and the container
engine, which consume it. The model covers:

- **build-env parsing** (`EnvArgs`): each `--build-env` argument is split at
  its first `=`. A bare `KEY` takes its value from the environment and
  contributes nothing when the variable is unset. Later keys overwrite
  earlier ones.
- **plan overrides** (`Overrides`): install, build and start commands,
  `static_server`, `is_spa` and `output_dir_override`, each following its
  rule of flag, then environment variable, then detected value. The build
  environment is replaced only by a non-empty parsed map. The plan is a
  class whose fields the override methods update in place. A nil metadata
  map is modelled by `HasMetadata == false` with an empty map. The fields
  the command layer never writes (provider, language, framework, package
  manager, their versions and the detected files) are constants of the
  class, so no command can change them.
- **custom packages** (`Packages`): the `--packages` flags, then the
  comma-separated, trimmed, non-blank pieces of `COOLPACK_PACKAGES`,
  de-duplicated in order of first occurrence.
- **docker arguments** (`Docker`): path selection, the default image name,
  `name:tag`, the port and output type from `output_type`, and the
  `docker build` and `docker run` argument lists.
- **commands** (`Commands`): `prepare`, `build`, `plan` and `run` from path
  selection up to the hand-over to the generator or the container engine.

`GoStrings` models the parts of Go's `strings` package that the layer uses:
`Index`, `Split`, `TrimSpace` (with `unicode.IsSpace`), `ToLower` and
`ReplaceAll`. `PlanModel` holds the plan, the metadata values and the
environment. The environment is a map parameter, read through `Getenv` and
`LookupEnv`, which, like Go's, treat the empty name as unset.

The three copies of the env-var parser (`parseEnvVars`,
`prepareParseEnvVars` and `planParseEnvVars`) are identical. So are the
`apply*` functions of `build.go` and their `prepareApply*` copies in
`prepare.go`. Each is modelled once, and its row below cites the `build.go`
lines.

The override rules are often summed up as "flag, then environment variable,
then detected value". The model follows the code where two rules differ from
that summary:

- **SPA.** Any disabling signal, including `COOLPACK_NO_SPA`, beats an
  explicit `--spa`. The key `is_spa` is then deleted. `false` is never
  written, so after the overrides `is_spa` is absent, the detected value, or
  `true`.
- **Custom packages.** The flag and the environment variable are
  concatenated, not ranked. A non-empty collection replaces the detected
  `custom_packages` entry.

## Model

| member | source | states |
|---|---|---|
| EnvArgs.ParseEnvVars | cmd/coolpack/build.go:231-247 | the loop yields the map of the arguments applied left to right; this member also stands for prepare.go:134-148 and plan.go:124-140 |
| EnvArgs.EntrySplitsAtFirstEq | cmd/coolpack/build.go:234-238 | an argument with `=` gives key and value such that `arg == key + "=" + value`; the key holds no `=` (it may be empty) and the value may hold `=`; the environment is not consulted |
| EnvArgs.EntryOfBareName | cmd/coolpack/build.go:239-243 | a bare name gives its environment value when set and nothing otherwise; the empty argument is never set, so it gives nothing |
| EnvArgs.ParsedEnvKeysHaveNoEq | cmd/coolpack/build.go:234-242 | no key of the parsed map contains `=` |
| EnvArgs.ParsedEnvHasKey | cmd/coolpack/prepare.go:136-146 | a key is in the parsed map if and only if some argument sets it |
| EnvArgs.ParsedEnvLastWins | cmd/coolpack/prepare.go:137-140 | the value of a key is the one given by the last argument that sets it |
| EnvArgs.UnsetBareNameSkipped | cmd/coolpack/plan.go:133-136 | a bare name that is not in the environment, or the empty argument, leaves the map unchanged |
| PlanModel.LookupEnv | cmd/coolpack/build.go:241 | reports a value exactly when the name is non-empty and set, and then it is the environment's value; also prepare.go:142 and plan.go:134 |
| PlanModel.Getenv | cmd/coolpack/build.go:255 | the environment's value for a non-empty set name, "" otherwise; every `os.Getenv` call of build.go, prepare.go and plan.go |
| PlanModel.GetenvIsLookupEnv | cmd/coolpack/build.go:241-255 | `os.Getenv` is `os.LookupEnv` with an unset name read as "" |
| GoStrings.Index | cmd/coolpack/build.go:234 | -1 exactly when the character is absent, otherwise the position of its first occurrence |
| GoStrings.Split | cmd/coolpack/plan.go:158 | at least one piece, none containing the separator |
| GoStrings.SplitThenJoin | cmd/coolpack/plan.go:158 | joining the pieces with the separator gives back the string |
| GoStrings.JoinThenSplit | cmd/coolpack/plan.go:158 | splitting a join of separator-free pieces gives back the pieces |
| GoStrings.TrimSpace | cmd/coolpack/plan.go:159 | no longer than the input; empty, or starts and ends with a non-space |
| GoStrings.TrimSpaceContents | cmd/coolpack/plan.go:159-160 | every kept character comes from the input, and the result is empty exactly when the input is all white space |
| GoStrings.TrimSpaceCutsOnlySpace | cmd/coolpack/plan.go:159 | the result is a slice of the input with only white space cut from either end |
| GoStrings.LowerChar | cmd/coolpack/build.go:97 | an upper-case ASCII letter becomes the lower-case letter at the same place in the alphabet, any other character is kept, and the result is never upper-case |
| GoStrings.ToLower | cmd/coolpack/build.go:97 | same length, each character folded by `LowerChar` in place, no upper-case letter left; also run.go:84 |
| GoStrings.ReplaceAll | cmd/coolpack/build.go:98 | same length, every occurrence of the old character replaced by the new one, every other character kept; also run.go:85 |
| GoStrings.TrimSpaceOfTrimmed | cmd/coolpack/plan.go:159 | a string without surrounding white space is left as it is |
| Overrides.Resolve | cmd/coolpack/build.go:252-271 | flag if non-empty, else environment value if non-empty, else detected; empty only if all three are |
| Overrides.ApplyCommandOverrides | cmd/coolpack/build.go:251-272 | each of install, build and start is resolved independently; no other field is in the frame |
| PlanModel.Plan.EnsureMetadata | cmd/coolpack/build.go:277-279 | afterwards the metadata map exists and its entries are unchanged |
| Overrides.OverlayString | cmd/coolpack/build.go:281-285 | writes the key from the flag, else from the environment; leaves the map unchanged when both are empty; no other key changes |
| Overrides.ApplyStaticServerSetting | cmd/coolpack/build.go:276-287 | the metadata becomes non-nil and `static_server` is overlaid; no other key changes |
| Overrides.SpaMetadata | cmd/coolpack/build.go:296-311 | disabling removes `is_spa` whatever enables it; otherwise enabling sets it to true; otherwise the map is unchanged; a changed `is_spa` is absent or true; no other key changes |
| Overrides.ApplySPASetting | cmd/coolpack/build.go:291-312 | the metadata becomes non-nil and the SPA rule is applied with its early returns; `--no-spa` always leaves `is_spa` absent; `false` is never written |
| Overrides.ApplyOutputDirSetting | cmd/coolpack/build.go:316-326 | the metadata becomes non-nil and `output_dir_override` is overlaid; no other key changes |
| Overrides.OverlaidMetadataByKey | cmd/coolpack/prepare.go:93-100 | after the three metadata rules, each of their keys depends only on its own rule and detected value, and every other key keeps its detected value |
| Overrides.OverlayOrderIrrelevant | cmd/coolpack/prepare.go:93-100 | applying the rules in the opposite order (output directory, SPA, static server) gives the same metadata |
| Overrides.OverlaidMetadataIdempotent | cmd/coolpack/prepare.go:93-100 | applying the metadata overrides twice equals applying them once |
| Overrides.ApplyMetadataOverrides | cmd/coolpack/prepare.go:93-100 | the metadata becomes non-nil and the static-server, SPA and output-directory calls in that order produce the overlay whose keys `OverlaidMetadataByKey` describes |
| Overrides.ApplyPlanOverrides | cmd/coolpack/prepare.go:90-106 | commands resolved, metadata overlaid, build environment replaced only by a non-empty parsed map; the parsed map is returned; no other field is written |
| Packages.AppendTrimmedPieces | cmd/coolpack/plan.go:157-163 | the loop over the comma-separated pieces appends exactly the trimmed, non-blank pieces, in order, to what was collected before |
| Packages.CollectPackages | cmd/coolpack/plan.go:148-164 | the CLI packages unchanged and in order, followed by the trimmed non-blank pieces of `COOLPACK_PACKAGES` in order |
| Packages.EnvPackagesWellFormed | cmd/coolpack/plan.go:157-163 | every package taken from the environment is non-empty, comma-free and without surrounding white space |
| Packages.TrimmedPiecesOfTrimmed | cmd/coolpack/plan.go:158-162 | pieces that are non-empty and already trimmed all pass through unchanged |
| Packages.EnvPackagesOfJoin | cmd/coolpack/plan.go:157-163 | a list of such names written comma-separated is read back unchanged |
| Packages.Dedup | cmd/coolpack/plan.go:170-178 | no duplicates, exactly the elements of the input, never longer |
| Packages.DedupKeepsFirstOccurrenceOrder | cmd/coolpack/plan.go:171-178 | the kept packages appear in the order of their first occurrence in the input |
| Packages.DedupOfDistinct | cmd/coolpack/plan.go:171-178 | a list without duplicates is left unchanged |
| Packages.DedupIdempotent | cmd/coolpack/plan.go:171-178 | de-duplicating twice is de-duplicating once |
| Packages.Deduplicate | cmd/coolpack/plan.go:170-178 | the loop with its `seen` set computes `Dedup`: no duplicates, same elements |
| Packages.WithCustomPackages | cmd/coolpack/plan.go:166-180 | nothing collected leaves the map unchanged; otherwise `custom_packages` lists every collected package once and nothing else; no other key changes |
| Packages.ApplyCustomPackages | cmd/coolpack/plan.go:143-181 | the metadata becomes non-nil and the collected, de-duplicated packages are stored as above |
| Docker.SelectPath | cmd/coolpack/prepare.go:60-66 | `--path` if non-empty, else the positional argument, else `.`; identical at build.go:73-79, plan.go:47-53 and run.go:61-67 |
| Docker.ImageName | cmd/coolpack/build.go:93-99 | a non-empty `--name` verbatim; otherwise a name of the base name's length in which every space became `-`, every upper-case ASCII letter became its lower-case letter, and every other character is kept in place |
| Docker.SanitizeImageNameIdempotent | cmd/coolpack/run.go:83-85 | a default image name is already sanitized |
| Docker.OutputShape | cmd/coolpack/build.go:209-214 | port "80" and type "static" exactly when `output_type` is the string "static"; "3000" and "server" otherwise, including when absent or not a string |
| Docker.AppendBuildArgs | cmd/coolpack/build.go:189-193 | the loop over the map appends one `--build-arg KEY=value` pair per entry, each key exactly once, in some order |
| Docker.DockerBuildArgs | cmd/coolpack/build.go:180-195 | `build -t name:tag -f dockerfile`, then `--no-cache` only when asked, then one `--build-arg KEY=value` per map entry in some order, then the context path; length is prefix + 2·entries + 1 |
| Docker.BuildArgParsesBack | cmd/coolpack/build.go:192 | a `KEY=value` text with `=`-free key parses back to that key and value |
| Docker.BuildArgInjective | cmd/coolpack/build.go:191-193 | different keys give different `--build-arg` texts |
| Docker.BuildArgExactlyOnce | cmd/coolpack/build.go:191-193 | every entry of the build environment is passed, and no text is passed twice |
| Docker.BuildArgValuesParseBack | cmd/coolpack/build.go:191-193 | the build-argument texts parse back to exactly the listed keys with their values |
| Docker.BuildArgsReproduceBuildEnv | cmd/coolpack/build.go:153-193 | parsing the build-argument texts again reproduces the parsed build environment |
| Docker.DockerRunArgs | cmd/coolpack/run.go:107-115 | `run --rm -it -p port:port`, then `-e value` per `--env` flag in order, then the image; length 6 + 2·envs |
| Docker.RunArgsDetermined | cmd/coolpack/run.go:107-115 | that description fixes the list: two lists that meet it are equal |
| Commands.OverridesKeepOutputShape | cmd/coolpack/build.go:208-214 | the overrides never change the port and output type `build` reports |
| Commands.SpaModeAfterOverrides | cmd/coolpack/build.go:217-221 | SPA mode is reported if and only if not disabled and either enabled or detected |
| Commands.ResolveImageName | cmd/coolpack/build.go:92-101 | `--name` if non-empty, else the sanitized base name, then `:` and the tag; identical at run.go:79-87 |
| Commands.RunPrepare | cmd/coolpack/prepare.go:58-106 | the path is selected; a null plan gives "no supported application detected"; otherwise the override sequence holds and the parsed build environment is returned |
| Commands.BuildImage | cmd/coolpack/build.go:117-214 | `ImageBuilt`: the override sequence holds; the docker arguments use only the parsed `--build-env` map, never a detected build environment; the port comes from the detected `output_type` |
| Commands.RunBuild | cmd/coolpack/build.go:71-214 | path and `name:tag` selected; a null plan gives the error; otherwise `ImageBuilt`, as for BuildImage |
| Commands.RunPlan | cmd/coolpack/plan.go:45-87 | a null plan is not an error; otherwise packages stored and the build environment replaced only by a non-empty parsed map; the commands unchanged |
| Commands.RunRun | cmd/coolpack/run.go:51-115 | path and `name:tag` selected; a null plan gives the error; otherwise the run arguments with the port from `output_type`; the plan is not modified |

## Left out

- Cobra wiring (flag registration in each `init`, `Execute` in `cmd/coolpack/root.go`) and the `version` command with its network update check: framework plumbing. Flag values are fields of the `*Flags` datatypes.
- `filepath.Abs`, `os.Stat`, `os.MkdirAll`, `os.WriteFile`, `os.Create` and running `docker`: filesystem and process I/O. The absolute path, its base name and the Dockerfile path are inputs. Each command's error for a failed resolve, a missing path, a failed detection, a failed creation of the `.coolpack` directory (build.go:160-162, prepare.go:110-112), a failed Dockerfile generation (build.go:167-170, prepare.go:116-119), a failed write or a failed docker run is not modelled: `Commands.RunPrepare` and `Commands.RunBuild` return `Success` in those cases.
- The detector and the generator are not part of this model. The detected plan is an input, `null` when nothing was detected, and a Dockerfile is not produced.
- All printing: the detection summary, the "Output:" and "Run with:" lines, the warning banner of `run`, `printPlan`, and the JSON encoding and `--out` file of `plan`. `Commands.SpaMode` and `Docker.OutputShape` model the facts these lines report.
- Docker.DockerBuildArgs: Go's map iteration order is unspecified, so the contract fixes the build arguments only up to the order of the keys (some enumeration of the map's keys).
- Docker.ImageName: `strings.ToLower` is modelled on ASCII letters only. Other characters are kept, so Unicode case folding is not captured.
- Docker.ImageName: `filepath.Base` is not modelled. The base name is an input.
- Commands.RunBuild: `Success` stands for reaching the `docker build` invocation. What the container engine then does is not modelled.
