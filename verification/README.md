# tram, modelled in Dafny

tram is a starter kit for command-line applications written in Rust. This
project models the deterministic decision procedures inside it and proves
properties about them:

- the layered configuration of the `tram-config` crate:
  - built-in defaults;
  - a first-match search over eight candidate file names;
  - format dispatch on the file extension;
  - field-wise merge;
  - a lenient environment overlay;
  - strict validation.
- how the binary and the configuration example pick a configuration source
  and apply command-line overrides (log level, output format, colour).
- template-generation planning in `tram-core`:
  - input checks in their fixed order;
  - the output path;
  - the rendering context;
  - PascalCase conversion.
- project scaffolding in `tram-core`: the ordered plan of directories and
  files that `create_project` writes for each project type.
- workspace-root detection in `tram-workspace`: the walk up the directory
  tree, the marker predicates, project-type detection by priority, and
  ignore patterns.
- the total string-to-enum parsers and display names of the binary.
- the pure helpers of two demo programs:
  - from the file-operations demo:
    - the snapshot diff of the polling watcher;
    - the flat directory listing;
    - the file-signature classifier;
    - the glob and content-search rules.
  - from the interactive-prompts demo: the input validators.

## Modules

| File | What it holds |
|---|---|
| `errors.dfy` | `TramError`, `Option`, `Result` |
| `text.dfy` | ASCII case mapping, prefix and substring tests, `split`, trimming, `lines()`, lexicographic order |
| `paths.dfy` | `Path = seq<string>` and `FileSystem = set<Path>` |
| `config.dfy` | the `tram-config` crate |
| `cli_overrides.dfy` | override blocks of `src/main.rs` and `examples/config_usage.rs` |
| `utils.dfy` | `src/utils.rs` |
| `template_gen.dfy` | template generation |
| `project_init.dfy` | project scaffolding |
| `workspace.dfy` | workspace detection |
| `file_ops.dfy` | helpers of `examples/file_operations.rs` |
| `prompts.dfy` | validators of `examples/interactive_prompts.rs` |

## Modelling choices

- **Paths.** A path is its sequence of components. The parent drops the
  last component, and the root `[]` has no parent.
- **File system.** It is the set of paths that exist. For configuration
  loading, there is also a map from each readable file to its contents.
- **Environment.** It is a `map<string, string>`.
- **Foreign parsers and rendering.** The serde parsers (JSON, YAML, TOML)
  and Handlebars rendering are function-valued parameters that may fail
  with a message.
- **Writing files.** Operations that write produce a plan, an ordered
  sequence of actions, instead of performing I/O. A write action of project
  scaffolding names what the file holds (`ProjectInit.Content`, for example
  the Cargo manifest of a given name and description); `Body()` gives the
  exact text written.
- **The typed configuration.** The typed `TramConfig` that the binary uses
  is a record with a `LogLevel`, an `OutputFormat` and `color`. Its loaders
  are a parameter.
- **Case mapping.** It is ASCII-only.
- **Rust's `str::parse`.**
  - For unsigned integers, it accepts one optional `+` (not on its own)
    followed by at least one decimal digit, with a value below 2^bits.
  - For `bool`, it accepts exactly `true` or `false`.
- **Duplicate parsers.** `src/main.rs:221-263` repeats the four parsers and
  display functions of `src/utils.rs` textually. The `Utils` module models
  that one definition.

## Model

| member | source | states |
|---|---|---|
| Errors.Describe | crates/tram-core/src/error.rs:11-29 | every error message is non-empty and ends with the path or message it carries |
| Errors.DescribeInjective | crates/tram-core/src/error.rs:12-23 | distinct errors are shown with distinct texts |
| Text.Lower | crates/tram-core/src/template_gen.rs:258 | lower-casing keeps the length and maps each character by the ASCII rule |
| Text.LowerIdempotent | src/utils.rs:10 | lower-casing twice equals lower-casing once |
| Text.Split | crates/tram-core/src/template_gen.rs:252 | `split` yields at least one piece and no piece contains a separator |
| Text.SplitRoundTrip | crates/tram-core/src/template_gen.rs:252 | `split` yields one more piece than there are separators in the text, and the pieces joined back with those separators, in order, are the text |
| Text.TrimStart | examples/interactive_prompts.rs:331 | the result is a suffix of the input, the dropped prefix is all whitespace, and the result does not start with whitespace |
| Text.TrimEnd | examples/interactive_prompts.rs:331 | the result is a prefix of the input, the dropped suffix is all whitespace, and the result does not end with whitespace |
| Text.TrimEmptyIffBlank | examples/interactive_prompts.rs:331 | trimming gives the empty string exactly when every character is whitespace |
| Text.Lines | examples/file_operations.rs:427 | `lines()` gives no line for empty text and never a line containing a newline |
| Text.LinesRoundTrip | examples/file_operations.rs:427 | `lines()` loses only line structure: the lines joined with line feeds, plus the final line feed if the text had one, are the text without the carriage return of each CRLF pair |
| Text.LessEqTotal | examples/file_operations.rs:296 | the name order used for sorting is total |
| Text.LessEqTransitive | examples/file_operations.rs:302 | the name order used for sorting is transitive |
| Text.LessEqAntisymmetric | examples/file_operations.rs:296 | the name order used for sorting is antisymmetric |
| Paths.Parent | crates/tram-workspace/src/lib.rs:37-38 | the root has no parent, and any other path's parent is the path with its last component dropped |
| Config.Extension | crates/tram-config/src/lib.rs:97 | the extension is the text after the last dot, which is not the first character; it contains no dot; ".." and names without a dot have none |
| Config.FormatOf | crates/tram-config/src/lib.rs:97-111 | json selects JSON, yaml or yml selects YAML, and toml selects TOML, compared case-sensitively; any other extension selects nothing |
| Config.LoadConfigFile | crates/tram-config/src/lib.rs:92-120 | an unreadable file is ConfigNotFound, checked before the extension; an unknown extension is InvalidConfig; with a supported extension, the contents the parser for that extension accepts are the result, and a parse error becomes InvalidConfig "Failed to parse ⟨JSON, YAML or TOML⟩ config file ⟨path⟩: ⟨error⟩"; success means that parser accepted the contents |
| Config.UnsupportedExtensions | crates/tram-config/src/lib.rs:111-116 | "tram.JSON" and "settings.txt" are rejected as unsupported formats without being parsed |
| Config.FirstExisting | crates/tram-config/src/lib.rs:82-86 | the index found is the first candidate that exists, and none means no candidate exists |
| Config.LoadFirstIsFirstMatch | crates/tram-config/src/lib.rs:69-89 | the scan loads exactly the first existing candidate and returns its error unchanged; when nothing exists the result is Ok(None) |
| Config.CandidateHasExtension | crates/tram-config/src/lib.rs:71-80 | each of the eight candidate names has the json, yaml, yml or toml extension |
| Config.CandidateFormats | crates/tram-config/src/lib.rs:71-80 | every candidate name selects a supported format |
| Config.Merge | crates/tram-config/src/lib.rs:143-166 | non-empty override strings win, present override options win, colour always comes from the override, and nothing else changes |
| Config.MergeFullOverride | crates/tram-config/src/lib.rs:143-166 | an override with every field set replaces the base completely |
| Config.MergeAssociative | crates/tram-config/src/lib.rs:143-166 | merging is associative |
| Config.MergeIdempotent | crates/tram-config/src/lib.rs:143-166 | merging the same override twice equals merging it once |
| Config.ParseBool | crates/tram-config/src/lib.rs:133 | exactly "true" and "false" parse as booleans |
| Config.LoadFromEnv | crates/tram-config/src/lib.rs:122-141 | each TRAM_ variable sets only its own field; log level and format are copied verbatim; colour changes only for a valid boolean; the config file is never touched |
| Config.EnvOverlayIdentity | crates/tram-config/src/lib.rs:122-141 | with no TRAM_ variable set, the overlay changes nothing |
| Config.EnvOverlayIdempotent | crates/tram-config/src/lib.rs:122-141 | applying the overlay twice equals applying it once |
| Config.EnvColorLenient | crates/tram-config/src/lib.rs:132-134 | a TRAM_COLOR value that is not a boolean has the same effect as leaving the variable unset |
| Config.Validate | crates/tram-config/src/lib.rs:168-199 | success exactly when the log level and the format are among the allowed, case-sensitive values; the log level is checked first, and each failure has its own message |
| Config.DefaultIsValid | crates/tram-config/src/lib.rs:32-42 | the defaults are "info", "table", colour on and no paths, and they pass validation |
| Config.ValidateCaseSensitive | crates/tram-config/src/lib.rs:171-172 | "INFO" is not an accepted log level |
| Config.LoadFromArgsPrecedence | crates/tram-config/src/lib.rs:46-66 | the result is the environment overlay on the merge of defaults and the first file found; a file error aborts with that error |
| Config.LoadFromArgsIgnoresCli | crates/tram-config/src/lib.rs:46 | the command-line argument has no influence on the result |
| Config.LoadFromArgsDefaults | crates/tram-config/src/lib.rs:46-66 | with no candidate file and no TRAM_ variable the result is the defaults |
| CliOverrides.ParseLogLevel | src/main.rs:670-681 | a level is recognised exactly when the lower-cased text is its keyword |
| CliOverrides.ParseFormat | src/main.rs:684-696 | a format is recognised exactly when the lower-cased text is its keyword |
| CliOverrides.KeywordsParse | examples/config_usage.rs:345-360 | every level and format keyword parses back to its value |
| CliOverrides.SelectSource | src/main.rs:659-664 | an explicit config path is loaded directly; otherwise the searching loader runs |
| CliOverrides.LoadBase | examples/config_usage.rs:336-341 | a loader failure becomes a configuration error that carries the loader's message |
| CliOverrides.ApplySentinelOverrides | src/main.rs:669-700 | the override step as written; log level and format that equal "info" and "table" are ignored; the log level is checked first; no_color only switches colour off; options that are sentinels or parse always succeed |
| CliOverrides.RunBinary | src/main.rs:659-700 | a load error aborts; otherwise the sentinel overrides apply to the loaded configuration |
| CliOverrides.SentinelIgnoresExplicitInfo | src/main.rs:669 | an explicit "info" leaves a loaded Debug level in place, while "INFO" overrides it |
| CliOverrides.SentinelIgnoresExplicitTable | src/main.rs:684 | an explicit "table" leaves a loaded Json format in place |
| CliOverrides.ApplyOptionalOverrides | examples/config_usage.rs:343-365 | a given level or format always decides its field and an absent one keeps the loaded value; invalid text is an error, and the log level is checked first; options that are absent or parse always succeed |
| CliOverrides.RunExample | examples/config_usage.rs:335-365 | a load error aborts; otherwise the optional overrides apply to the loaded configuration |
| CliOverrides.OptionalOverridesWin | examples/config_usage.rs:344-361 | a named level and format win whatever was loaded |
| CliOverrides.OptionalOverridesIdentity | examples/config_usage.rs:343-365 | with no overrides the loaded configuration passes through unchanged |
| CliOverrides.OptionalOverridesIdempotent | examples/config_usage.rs:343-365 | applying the same overrides twice equals applying them once |
| CliOverrides.SentinelAgreesAwayFromDefaults | src/main.rs:669-700 | away from the texts "info" and "table" the binary's overrides and the example's overrides agree |
| CliOverrides.TestSelection | examples/config_usage.rs:319-323 | no flag selects all three checks, otherwise exactly the flagged ones; at least one always runs |
| Utils.ParseProjectTypeCaseInsensitive | src/utils.rs:9-18 | project-type parsing ignores ASCII case |
| Utils.ParseProjectTypeFallback | src/utils.rs:16 | Generic is returned exactly for text outside the known aliases |
| Utils.ParseProjectTypeAliases | src/utils.rs:12-13 | "node" and "js" give Node.js, and "py" gives Python |
| Utils.ProjectTypeKeywordRoundTrip | src/utils.rs:9-18 | parsing each type's canonical keyword gives the type back |
| Utils.ProjectTypeDisplayInjective | src/utils.rs:21-30 | display names are distinct, and Node.js is shown as "Node.js" |
| Utils.ParseTemplateTypeCaseInsensitive | src/utils.rs:33-41 | template-type parsing ignores ASCII case |
| Utils.ParseTemplateTypeFallback | src/utils.rs:35-39 | Command is returned exactly for text outside the other types' aliases |
| Utils.ParseTemplateTypeAliases | src/utils.rs:35-38 | "cmd", "config", "error" and "session" select their types |
| Utils.TemplateTypeKeywordRoundTrip | src/utils.rs:33-41 | parsing each template type's canonical keyword gives the type back |
| Utils.TemplateTypeDisplayInjective | src/utils.rs:44-51 | display names are distinct, and Command is shown as "Command" |
| TemplateGen.ToPascalCase | crates/tram-core/src/template_gen.rs:250-263 | the result contains no separator |
| TemplateGen.ToPascalCaseIsSplitCapitalizeJoin | crates/tram-core/src/template_gen.rs:251-263 | the one-pass conversion equals splitting on '-' and '_', capitalising each word, and concatenating |
| TemplateGen.PascalFromSplit | crates/tram-core/src/template_gen.rs:252-262 | the character-by-character conversion equals capitalising the split pieces |
| TemplateGen.PascalFromJoin | crates/tram-core/src/template_gen.rs:252 | text joined at a separator converts to the concatenation of its parts' conversions |
| TemplateGen.PascalFromLowerWord | crates/tram-core/src/template_gen.rs:258 | the tail of a lower-case word is kept as is |
| TemplateGen.ToPascalCaseWord | crates/tram-core/src/template_gen.rs:379-383 | "" gives "" and "hello" gives "Hello" |
| TemplateGen.ToPascalCaseSeparated | crates/tram-core/src/template_gen.rs:380-381 | "hello-world" and "hello_world" give "HelloWorld" |
| TemplateGen.TemplateNameInjective | crates/tram-core/src/template_gen.rs:174-182 | the four template types have four distinct template names |
| TemplateGen.BuildContext | crates/tram-core/src/template_gen.rs:184-202 | the description parameter wins, else "⟨name⟩ functionality"; the name and parameters pass through; the Pascal name is `ToPascalCase` of the name and has no separator; the upper-case name has the name's letters and no lower-case letter |
| TemplateGen.FilePath | crates/tram-core/src/template_gen.rs:204-228 | the output path lies under target_dir and is three components longer: "src", the template type's subdirectory, then ⟨name⟩.rs |
| TemplateGen.FilePathDistinctTypes | crates/tram-core/src/template_gen.rs:204-228 | distinct template types give distinct output paths |
| TemplateGen.GenerateTemplate | crates/tram-core/src/template_gen.rs:57-95 | an empty name fails first, then a missing target directory; success means the file does not exist yet and the result carries the rendered content, the path, the type and the name |
| ProjectInit.PythonModule | crates/tram-core/src/project_init.rs:166 | the module name is the project name with every '-' replaced by '_' and every other character kept, so it contains no '-' and a dash-free name is unchanged |
| ProjectInit.Skeleton | crates/tram-core/src/project_init.rs:61-70 | each type's skeleton entries have non-empty, pairwise distinct relative paths |
| ProjectInit.ProjectFiles | crates/tram-core/src/project_init.rs:61-70 | there is one action per skeleton entry, placed under the project directory |
| ProjectInit.CreateProject | crates/tram-core/src/project_init.rs:41-58 | an existing directory is an error and nothing is planned; otherwise the plan is the directory followed by the skeleton actions of the chosen type, and every later action targets a distinct path strictly inside the directory |
| ProjectInit.SkeletonFiles | crates/tram-core/src/project_init.rs:72-240 | Rust writes Cargo.toml and src/main.rs; Node.js writes package.json and index.js; Python writes pyproject.toml and the module file; Go writes go.mod and main.go; Java writes nothing; Generic writes README.md |
| ProjectInit.CargoDescriptionInserted | crates/tram-core/src/project_init.rs:74-89 | with a description, Cargo.toml is the text without it plus exactly the description line after the edition line |
| ProjectInit.GoModRoundTrip | crates/tram-core/src/project_init.rs:195 | the first line of go.mod is "module " followed by the project name |
| ProjectInit.ReadmeTitle | crates/tram-core/src/project_init.rs:228-232 | the first line of README.md is "# " followed by the project name |
| Workspace.AnyExistsIff | crates/tram-workspace/src/lib.rs:66 | the `any` test holds exactly when some listed name exists in the directory |
| Workspace.IsWorkspaceRootIff | crates/tram-workspace/src/lib.rs:46-67 | a directory is a workspace root exactly when one of the three VCS directories or ten project files exists in it |
| Workspace.DetectRoot | crates/tram-workspace/src/lib.rs:29-43 | success returns the nearest ancestor-or-self that is a workspace root; failure is WorkspaceNotFound with no qualifying ancestor |
| Workspace.DetectRootNotFoundIff | crates/tram-workspace/src/lib.rs:37-41 | WorkspaceNotFound is returned exactly when no ancestor-or-self qualifies |
| Workspace.Detect | crates/tram-workspace/src/lib.rs:89-103 | detection always yields a project type |
| Workspace.DetectGenericIff | crates/tram-workspace/src/lib.rs:100-102 | Generic is detected exactly when none of the seven detection markers exists |
| Workspace.DetectSpecificIsWorkspaceRoot | crates/tram-workspace/src/lib.rs:90-99 | a specific detected type implies a workspace root |
| Workspace.DetectPriority | crates/tram-workspace/src/lib.rs:90-99 | each type is detected exactly when one of its markers exists and no marker of an earlier type does, in the order Rust, Node.js, Python, Go, Java |
| Workspace.IgnorePatterns | crates/tram-workspace/src/lib.rs:106-122 | every type has one to six non-empty patterns |
| Workspace.IgnoreBuildOutput | crates/tram-workspace/src/lib.rs:106-122 | "build/" is ignored for every type except Rust and Go; Rust ignores exactly target/ and Cargo.lock |
| FileOps.Select | examples/file_operations.rs:283-293 | the selected entries are exactly the shown entries of the requested kind |
| FileOps.Insert | examples/file_operations.rs:296 | inserting adds exactly one element and loses none |
| FileOps.InsertSorted | examples/file_operations.rs:296 | inserting into a name-sorted sequence keeps it sorted |
| FileOps.SortByName | examples/file_operations.rs:296-302 | the result is sorted by name and is a permutation of the input |
| FileOps.FlatListing | examples/file_operations.rs:274-305 | directories and files are listed separately, each sorted by name, and each holds exactly the shown entries of its kind |
| FileOps.FlatListingKeepsEntries | examples/file_operations.rs:296-305 | sorting neither drops nor duplicates entries |
| FileOps.ShowHiddenListsEverything | examples/file_operations.rs:283 | with hidden entries shown, every entry is listed |
| FileOps.Classify | examples/file_operations.rs:612-622 | "#!/" means script, then "<?xml" means XML, then "{" or "[" means JSON, then all-ASCII means text, else binary |
| FileOps.ClassifyBinaryIff | examples/file_operations.rs:612-622 | binary is reported exactly when no signature matches and some byte is not ASCII |
| FileOps.GlobPattern | examples/file_operations.rs:348-352 | the bare pattern in ".", otherwise "⟨dir⟩/⟨pattern⟩"; the pattern always ends the glob |
| FileOps.MatchesSound | examples/file_operations.rs:430-440 | every reported line number is 1-based and names a matching line, with that line's reported text |
| FileOps.MatchesComplete | examples/file_operations.rs:430-440 | every matching line is reported |
| FileOps.MatchesOrdered | examples/file_operations.rs:430 | hits come in strictly increasing line order |
| FileOps.SearchFile | examples/file_operations.rs:393-440 | a file is searched only for wildcard-free patterns and allow-listed extensions, and only when its folded content contains the folded pattern; the result is the matching lines |
| FileOps.ContainsLower | examples/file_operations.rs:415-424 | lower-casing both sides keeps an occurrence |
| FileOps.IgnoreCaseFindsMore | examples/file_operations.rs:430-437 | a case-insensitive search reports every line a case-sensitive one does |
| FileOps.ChangeReportComplete | examples/file_operations.rs:727-758 | a report of exactly the modified, created and deleted paths is empty exactly when the snapshots are equal |
| FileOps.ScanChanges | examples/file_operations.rs:724-766 | Modified exactly for paths in both snapshots with a different state, Created exactly for new paths, Deleted exactly for vanished paths; a change is detected exactly when the snapshots differ; the new snapshot is the scan |
| Prompts.ParseUnsigned | examples/interactive_prompts.rs:131 | parsing succeeds exactly for an optional '+' and digits whose value fits in the bit width, and the value is that of the digits |
| Prompts.ShowNatValue | examples/interactive_prompts.rs:140 | the digits printed for a number have that number as their value |
| Prompts.ParseShowRoundTrip | examples/interactive_prompts.rs:140 | parsing a printed number that fits gives it back |
| Prompts.ParsePlusSign | examples/interactive_prompts.rs:131 | a leading '+' on digits changes nothing |
| Prompts.ValidateAge | examples/interactive_prompts.rs:130-136 | accepted exactly when the input parses as u32 and lies in 1..149; a non-number and an out-of-range value get different messages; acceptance makes the later parse succeed |
| Prompts.AgeAcceptsRealistic | examples/interactive_prompts.rs:130-136 | every age from 1 to 149 typed as a number is accepted |
| Prompts.ValidateProjectName | examples/interactive_prompts.rs:327-335 | accepted exactly when the input is not blank and has no space; blankness is reported first |
| Prompts.ValidateEmail | examples/interactive_prompts.rs:435-441 | accepted exactly when the input contains an '@' and a '.' |
| Prompts.EmailDotMayPrecedeAt | examples/interactive_prompts.rs:436 | ".@" is accepted, because the order of the two characters is not checked |
| Prompts.ValidateUrl | examples/interactive_prompts.rs:494-500 | the input is accepted exactly when it starts with "http://" or "https://"; a rejection has its fixed message |
| Prompts.UrlAcceptsSchemes | examples/interactive_prompts.rs:494-500 | anything after "http://" or "https://" is accepted |
| Prompts.ValidatePort | examples/interactive_prompts.rs:509-515 | accepted exactly when the input parses as u16 and is at least 1024; the two failures get different messages |
| Prompts.PortRange | examples/interactive_prompts.rs:509-519 | a printed port is accepted exactly when it lies in 1024..65535 |

## Left out

- ConfigWatcher, ConfigChangeHandler and the internals of the typed configuration: they are not part of this model, and they are built on watch events, locks and async tasks. Their loaders are a parameter of `CliOverrides.LoadBase`.
- serde and Handlebars: they are foreign libraries, and the templates are not part of this model. They are parameters that may fail.
- `write_template`, and every failure of `fs::write`, `create_dir` and `create_dir_all`: these are I/O. `ProjectInit.CreateProject` returns the plan of actions, and a write failing midway is not modelled.
- The recursive listing, backup, cleanup and MD5 parts of the file-operations demo: they depend on time and hashing.
- clap parsing, logging initialisation, the starbase session and the remaining demo programs: they are glue, printing or concurrency.
- Text.Lower: models ASCII case mapping only, because Unicode case tables are out of scope. `to_lowercase` and `to_uppercase` also change non-ASCII letters.
- Config.Extension: takes the whole string as the file name. A name containing '/' is treated as one component, while Rust looks at the last path component only.
- FileOps.ScanChanges: takes the directory walk as an input with distinct paths, as walkdir yields them. Entries whose metadata cannot be read are assumed already absent from it.
- FileOps.FlatListing: does not model the read errors of `read_dir`, or the size defaulting to 0 when metadata fails.
- FileOps.SearchFile: treats the file list and the file contents as inputs, not as a walk of the directory, and does not model the glob matching itself.
- Config.LoadFromEnv: TRAM_LOG_LEVEL and TRAM_OUTPUT_FORMAT are copied verbatim, whatever their value; only a TRAM_COLOR that does not parse as a bool is ignored.
- TemplateGen.FilePath: assumes the template name is a single relative path component, with no '/', not absolute and not "..". Rust's `join` splits such a name into several components, and an absolute name replaces the whole path; `Paths.Display` also cannot show a leading '/'.
- ProjectInit.CreateProject: assumes the project name is a single relative path component, as for `TemplateGen.FilePath`. The files named after it, such as the Python module of project_init.rs:183-185, otherwise land elsewhere.

## Findings

| source | as written | input that shows it | evidently intended | confidence | as-written member | corrected member |
|---|---|---|---|---|---|---|
| src/main.rs:669-696 | a CLI log level or format equal to its clap default text ("info", "table") is treated as not given, so it cannot override the loaded value | a config file setting `debug`, run with `--log-level info`: the level stays Debug, while `--log-level INFO` gives Info | an explicitly given option always wins, as in the `Option`-based block of examples/config_usage.rs:344-361 | medium, not executed | CliOverrides.SentinelIgnoresExplicitInfo | CliOverrides.OptionalOverridesWin |
