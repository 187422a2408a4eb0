# Azure Batch tools for VS Code: a Dafny model of the core

This project models the decision logic of the Azure Batch extension for Visual Studio Code and of its schema generator, and proves properties of that model:

- **Duration conversion** (`src/duration.ts`). The Python CLI prints time spans as `[N days, ]h:mm:ss[.ffffff]`; the converter turns them into ISO 8601 durations such as `P1DT5H`.
- **Template reading** (`src/batch.ts`). It decides whether a parsed JSON document is a job or pool template, extracts the declared parameters, and extracts the name/value pairs of a parameter file.
- **Path helpers** (`src/path.ts`). These drop a file extension, take the directory of a path, and compare paths the way the platform does.
- **The create command** (`src/extension.ts`). It finds a template's parameter file and works out which parameter values are known. It builds a temporary parameter file from known and prompted values, and assembles the `az batch <kind> create` command line.
- **The schema generator** (`tools/swaggatron.ts`). It follows `$ref` pointers into the Batch Swagger document and merges extension definitions into it. It copies each property's `title` into its `description`, collects every definition reachable from a resource body, and wraps them in a draft-04 JSON schema.

Files and modules:

- `text.dfy` (`Text`) holds strings as JavaScript sees them: `Option`, `split`, `indexOf`, `lastIndexOf`, `reverse` and decimal numerals.
- `json.dfy` (`Json`) holds parsed JSON values with JavaScript truthiness, and objects as member lists in the order their keys were first stored, with JavaScript's lookup, assignment and `Object.assign` rules.
- `duration.dfy`, `batch.dfy`, `path.dfy`, `extension.dfy` and `swaggatron.dfy` each model the source file of the same name.

Loops in the source become methods with loop invariants. Each method is proved equal to a specification function, and the properties are proved about those functions. The definitions object that the schema generator fills in place is the class `Swaggatron.Definitions`. The create command's environment is a `Host` value:

- the file system is a map from existing paths to their text, so every existing path is a readable file;
- open editor documents are a list;
- `JSON.parse` is a function from text to a parsed document, or None for a syntax error;
- the user's answer to a prompt is a function of the parameter;
- the temporary file name, the working directory and the platform are values.

Where the code and its documentation or tests disagree, the model follows the code. The test at `test/extension.test.ts:112-114` expects a plain job document to be rejected as `null`. `parseBatchTemplate` in fact returns a non-template resource with no parameters, for this document (`Batch.PlainJobIsNotATemplate`) and for every truthy job or pool document that does not look like a template (`Batch.KnownKindOutcome`). The create command relies on that result to run plain JSON with `--json-file`.

## Model

| member | source | states |
|---|---|---|
| Text.Split | src/duration.ts:12 | `split` on one character: at least one part, no part holds the separator, and joining the parts gives the text back |
| Text.SplitJoin | tools/swaggatron.ts:77 | splitting a join of separator-free parts gives the parts back (the other half of the round trip) |
| Text.IndexOf | src/duration.ts:51 | `indexOf`: -1 or a position where the text occurs, with no earlier occurrence |
| Text.LastIndexOf | src/path.ts:5 | `lastIndexOf` of one character: -1 exactly when it is absent, otherwise its position with no later occurrence |
| Text.Reverse | tools/swaggatron.ts:84 | `reverse`: same length, element i is element n-1-i of the input |
| Json.Lookup | tools/swaggatron.ts:104 | reading a member: undefined exactly when the key is absent, else the value stored under it |
| Json.Put | tools/swaggatron.ts:105 | assigning a member: the key holds the value afterwards, every other key is unchanged, the key set gains the key |
| Json.PutShape | tools/swaggatron.ts:105 | an existing key keeps its place, a new key is appended at the end |
| Json.Assign | tools/swaggatron.ts:69 | `Object.assign`: the key set is the union, and a key the source lacks keeps the target's value |
| Json.AssignLookupSource | tools/swaggatron.ts:69 | the source's value wins on every key the source has |
| Duration.SplitDaysPart | src/duration.ts:47-61 | the loop over the two separators equals `DaysPart` |
| Duration.DaysPartCases | src/duration.ts:47-61 | "days, " is tried first, then "day, ", each splitting at its first occurrence; with neither, the day count is 0 and the whole text is the time part |
| Duration.ToISO8601 | src/duration.ts:1-45 | the string built step by step equals `ToIso` |
| Duration.BuildIso | src/duration.ts:28-44 | the text appended component by component equals `IsoOf` for a span that is neither the sentinel nor zero |
| Duration.ToIsoUndefined | src/duration.ts:1-21 | undefined exactly for an undefined or empty input or a day count above 10000000 |
| Duration.ToIsoZero | src/duration.ts:23-26 | all four numbers zero give exactly "PT0S" |
| Duration.IsoShape | src/duration.ts:28-44 | every defined result starts with 'P' and holds exactly one 'T' |
| Duration.TimeTextFields | src/duration.ts:12-16 | the CLI's time part splits into three fields that read back as the hours, minutes and seconds printed |
| Duration.DayTextFields | src/duration.ts:47-58 | the CLI's day prefix ("1 day, ", "N days, " or none) reads back as the day count and leaves the time part |
| Duration.CliTextFields | src/duration.ts:6-16 | reading any text the CLI prints for a non-negative span recovers exactly the numbers it printed |
| Duration.ParseFloat | src/duration.ts:14 | `parseFloat` without exponents: a decimal whose fraction is all digits, or NaN |
| Duration.ExampleZero | src/duration.ts:23-26 | the CLI's "0:00:00" converts to "PT0S" |
| Duration.ExampleHours | src/duration.ts:28-44 | the CLI's "5:00:00" converts to "PT5H" |
| Duration.ExampleFraction | src/duration.ts:28-44 | the CLI's "45:10:30.50" converts to "PT45H10M30.5S" |
| Duration.ExampleOneDay | src/duration.ts:28-44 | the CLI's "1 day, 5:00:00" converts to "P1DT5H" |
| Duration.ExampleMaximum | src/duration.ts:18-21 | the CLI's "not set" maximum, "10675199 days, 2:48:05.477581", converts to undefined |
| Duration.IsoOfWholeDays | src/duration.ts:28-33 | as written, "1 day, 0:00:00" gives "P1DT", which is not a well-formed ISO 8601 duration |
| Duration.IsoCorrectedWellFormed | src/duration.ts:28-44 | with 'T' written only before a time component, every span the CLI prints converts to a well-formed duration |
| Duration.IsoCorrectedAgrees | src/duration.ts:33-44 | the correction changes nothing when a time component is present |
| Duration.IsoCorrectedWholeDays | src/duration.ts:30-33 | with the correction, whole days give "P1D" |
| Batch.Plural | src/batch.ts:34-40 | defined exactly for "job" and "pool", and then the kind followed by 's' |
| Batch.ParseTemplateCore | src/batch.ts:42-59 | the push loop over the parameters section equals `TemplateCore` |
| Batch.ParseBatchTemplate | src/batch.ts:1-19 | equals `BatchTemplate` |
| Batch.ParseParametersCore | src/batch.ts:76-88 | the push loop over the document's members equals `ParameterValues` |
| Batch.ParseParameters | src/batch.ts:61-74 | equals `ParametersOf`: nothing for non-JSON or falsy documents |
| Batch.TemplateParametersDefined | src/batch.ts:44-55 | reading declarations fails exactly when one is `null`; otherwise one parameter per member, named by its key, fields copied from the declaration |
| Batch.NotJsonIsNull | src/batch.ts:1-19 | non-JSON text and falsy JSON give `null` |
| Batch.NotATemplateHasNoParameters | src/batch.ts:10-14 | a non-template resource has no parameters |
| Batch.KnownKindOutcome | src/batch.ts:1-32 | for job and pool a truthy document never makes the test throw; a missing kind member, a falsy `type` or `properties`, or another type gives a non-template with no parameters; `null` exactly for a template with a `null` declaration |
| Batch.IsTemplateExactly | src/batch.ts:21-32 | for a known kind: a template exactly when the member named after the kind has a truthy `type` loosely equal to the resource type and a truthy `properties`, and no declaration is `null` |
| Batch.UnknownKind | src/batch.ts:21-40 | for any other kind: `null` exactly when the type comparison is reached (the `throw` is caught), else a non-template |
| Batch.TemplateParametersAreDeclarations | src/batch.ts:42-59 | a template's parameters are its parameters section's members, in order |
| Batch.TemplateDocumentRoundTrip | src/batch.ts:1-59 | reading a template document built from declarations gives those declarations back |
| Batch.TemplateWithoutParameters | src/batch.ts:46 | a template without a parameters section has no parameters |
| Batch.PlainJobIsNotATemplate | src/batch.ts:10-14 | the test suite's plain job document reads as a non-template resource |
| Batch.SampleJobTemplateParameters | test/extension.test.ts:122-164 | the test suite's job template has four parameters with the names, types, metadata, default and allowed values the tests expect |
| Batch.ResourceShapeLooksLikeTemplate | src/batch.ts:21-32 | a job or pool document whose resource has the kind's resource type and truthy properties looks like a template |
| Batch.SamplePoolTemplateParameters | test/extension.test.ts:166-171 | the test suite's pool template reads as a template with the one parameter `vmSize`, its type and its allowed values |
| Batch.ParameterValuesShape | src/batch.ts:76-88 | one entry per member of a parameter file, in order, with its key and value |
| Batch.ParametersOfObject | src/batch.ts:76-88 | every key of a parameter object is reported with its value, and no name twice |
| Path.StripExtension | src/path.ts:1-10 | a prefix of the path; the whole path without a '.'; otherwise it ends right before the last '.' |
| Path.Directory | src/path.ts:12-22 | the working directory without a separator; otherwise the prefix before the last '/' or '\\' |
| Path.ForwardSlashes | src/path.ts:25-26 | every '\\' becomes '/', every other character stays |
| Path.EqualReflexive | src/path.ts:24-31 | every path is equal to itself |
| Path.EqualSymmetric | src/path.ts:24-31 | equality does not depend on argument order |
| Path.EqualTransitive | src/path.ts:24-31 | equality is transitive |
| Path.EqualSameLength | src/path.ts:24-31 | equal paths have the same length |
| Path.EqualIgnoresSeparatorKind | src/path.ts:25-26 | a path equals its forward-slash form |
| Path.EqualOffWindows | src/path.ts:24-30 | off Windows: the same length and the same characters, counting '/' and '\\' as one |
| Path.EqualOnWindows | src/path.ts:24-31 | on Windows: the same length and, position by position, the same character once lower-cased, counting '/' and '\\' as one |
| Path.EqualIgnoresCaseOnWindows | src/path.ts:27-28 | on Windows a path equals its lower-case form |
| Path.EqualCase | src/path.ts:27-30 | examples: `C:\Jobs\Job.json` equals `c:/jobs/job.json` on Windows, and `Job.json` differs from `job.json` elsewhere |
| Path.StripExtensionCrossesDirectories | src/path.ts:1-10 | as written, `dir.ext/name` loses `.ext/name`, so the stripped path leaves the file's directory |
| Path.StripExtensionCorrectedKeepsDirectory | src/path.ts:1-10 | the corrected rule never changes the directory of a path |
| Path.StripExtensionCorrectedAgrees | src/path.ts:1-10 | the correction changes nothing when the last '.' is in the file name |
| Extension.FirstExisting | src/extension.ts:112 | `find`: none exactly when no candidate exists, else the first candidate that exists |
| Extension.OpenDocumentFor | src/extension.ts:121 | the first open document whose name equals the file by `path.equal`, or none when no document matches |
| Extension.ParameterFileIsFirstCandidate | src/extension.ts:102-131 | not found, with an empty path, exactly when none of the four candidates exists; otherwise the first that exists; a document is attached exactly when some open document is that file (by `path.equal`), and then it is the first such open document |
| Extension.CandidatesOfJsonFile | src/extension.ts:106-111 | for `dir/name.json` the candidates are `dir/name.parameters.json`, `dir/<kind>parameters.json`, `dir/parameters.<kind>.json`, `dir/parameters.json` |
| Extension.ParameterJson | src/extension.ts:133-138 | "{}" without a parameter file; the open document's text when it is open; else the file's text, and the read error exactly when the file is gone |
| Extension.ParameterJsonOfFoundFile | src/extension.ts:133-138 | reading the parameter file that was found never fails |
| Extension.NoParameterFileKnowsNothing | src/extension.ts:65-68 | without a parameter file no parameter value is known |
| Extension.KnownIndex | src/extension.ts:69 | `findIndex` by name: -1 or the first position with that name |
| Extension.UnknownIndex | src/extension.ts:70 | -1 or the first parameter with no known value |
| Extension.AnyUnknownIsMissingName | src/extension.ts:69-70 | some parameter is unknown exactly when the template's names are not all among the known names |
| Extension.ValueFor | src/extension.ts:143-144 | the first known value with the parameter's name wins; the prompt is asked only when there is none |
| Extension.CreateTempParameterFile | src/extension.ts:140-159 | the loop equals `TempParameterFile` |
| Extension.TempParameterFileContents | src/extension.ts:140-159 | abandoned exactly when some parameter's value is falsy; otherwise each parameter's name maps, in order, to its value |
| Extension.TempFileKnowsEveryParameter | src/extension.ts:140-159 | read back as a parameter file, the written file knows every template parameter |
| Extension.CreateResourceImpl | src/extension.ts:48-88 | the steps of the command equal `CreateResource` |
| Extension.CreateFromTemplateImpl | src/extension.ts:56-88 | once the document has been read, the parameter file lookup, the temporary file and the command equal `CreateFromTemplate` |
| Extension.NotATemplateShowsError | src/extension.ts:50-54 | a document that is not a template of the kind shows "Current file is not an Azure Batch <kind> template." and runs nothing |
| Extension.PlainResourceCommand | src/extension.ts:81-88 | plain resource JSON runs `az batch <kind> create --json-file "<file>"` with no temporary file |
| Extension.TemplateWithKnownParameters | src/extension.ts:70-88 | a template whose parameters are all known runs with `--template` and the found parameter file, and writes no temporary file |
| Extension.TemplateWithUnknownParameters | src/extension.ts:70-88 | with an unknown parameter: cancelled exactly when some value is falsy; otherwise runs with the temporary file, which knows every parameter |
| Swaggatron.ChaseRef | tools/swaggatron.ts:76-86 | the walk loop equals `Chased` |
| Swaggatron.ChaseRefTo | tools/swaggatron.ts:76-86 | the reference to a path walks exactly that path and is named by its last segment |
| Swaggatron.WalkEndsOnKey | tools/swaggatron.ts:79-82 | a walk that ends on a value ends on a key of some object of the document |
| Swaggatron.ChasedNameKnown | tools/swaggatron.ts:76-86 | a chased definition's name is a key of the document, or "undefined" |
| Swaggatron.Described | tools/swaggatron.ts:115 | `description` takes the title's value and every other member is unchanged |
| Swaggatron.MungeSchema | tools/swaggatron.ts:111-118 | the loop equals `Munged` |
| Swaggatron.MungeMembersShape | tools/swaggatron.ts:113-117 | throws exactly when some property schema is `null` or a primitive; otherwise the same properties in order, each munged |
| Swaggatron.MungedDescribes | tools/swaggatron.ts:111-118 | every object property has its title as description and its other members; the schema's other members are unchanged |
| Swaggatron.MungedIdempotent | tools/swaggatron.ts:111-118 | munging twice is munging once |
| Swaggatron.MungeEntryIdempotent | tools/swaggatron.ts:115 | the per-property fix-up is idempotent |
| Swaggatron.MungedWithoutProperties | tools/swaggatron.ts:113 | a schema without properties is unchanged |
| Swaggatron.MergeExtensions | tools/swaggatron.ts:66-74 | the loop equals `Merge` |
| Swaggatron.MergeByName | tools/swaggatron.ts:66-74 | throws exactly when some round does; otherwise other names are unchanged and each extension name holds its merged definition |
| Swaggatron.MergedDefinitionProperties | tools/swaggatron.ts:68-69 | extension properties win on clashes, base properties stay, other members of the definition are unchanged |
| Swaggatron.PutTruthyKeys | tools/swaggatron.ts:104-105 | storing a truthy definition under a new name of the document leaves one name fewer to add |
| Swaggatron.GrowsTransitive | tools/swaggatron.ts:88-109 | growing the definitions is transitive |
| Swaggatron.PropertyRef | tools/swaggatron.ts:91-96 | a property's own truthy `$ref` comes first; without it, `items.$ref` exactly when `items` and its `$ref` are truthy; otherwise none; any reference found is truthy |
| Swaggatron.ForRef | tools/swaggatron.ts:102-109 | terminates, and when it finishes the definitions only grow: no name lost, new names from the document, no truthy definition replaced, no name repeated |
| Swaggatron.Defns | tools/swaggatron.ts:88-100 | the same growth guarantee for following a schema's properties |
| Swaggatron.Props | tools/swaggatron.ts:90-98 | the same growth guarantee for the loop over the properties |
| Swaggatron.PropertyStep | tools/swaggatron.ts:91-97 | the same growth guarantee for one property |
| Swaggatron.ForRefPresent | tools/swaggatron.ts:104 | a name already holding a truthy definition is skipped |
| Swaggatron.ForRefAdds | tools/swaggatron.ts:104-107 | otherwise the munged definition ends up under its name and is still there when the collection finishes |
| Swaggatron.ForRefCloses | tools/swaggatron.ts:102-109 | the chased name is among the definitions afterwards, and every definition whose references were all present still has them present |
| Swaggatron.DefnsCloses | tools/swaggatron.ts:88-100 | every chaseable reference among the source's properties names a definition afterwards, and closed definitions stay closed |
| Swaggatron.PropsCloses | tools/swaggatron.ts:90-98 | the same for the loop over the properties, carried from each property to the next |
| Swaggatron.PropertyStepCloses | tools/swaggatron.ts:91-97 | the same for one property: its reference's target is among the definitions afterwards |
| Swaggatron.ClosedAfterPut | tools/swaggatron.ts:105 | storing a definition under a new name keeps every other definition closed |
| Swaggatron.DefnsReachesRefs | tools/swaggatron.ts:88-100 | one step of closure: every chaseable reference of the source's properties names a definition of the result |
| Swaggatron.DefnsWithoutProperties | tools/swaggatron.ts:89 | a schema without truthy properties adds nothing |
| Swaggatron.Definitions.Set | tools/swaggatron.ts:105 | the entries become the old entries with the name assigned |
| Swaggatron.Definitions.AddDefnsForRef | tools/swaggatron.ts:102-109 | finishes exactly when `ForRef` does, with the entries it computes |
| Swaggatron.Definitions.AddDefns | tools/swaggatron.ts:88-100 | finishes exactly when `Defns` does, with the entries it computes |
| Swaggatron.Definitions.AddDefnsForProperty | tools/swaggatron.ts:91-97 | finishes exactly when `PropertyStep` does, with the entries it computes |
| Swaggatron.CreateResourceSchema | tools/swaggatron.ts:41-57 | the assembly equals `ResourceSchema` |
| Swaggatron.ResourceSchemaShape | tools/swaggatron.ts:41-57 | the schema names draft 4, titles the resource type, describes it as "An Azure Batch <type>", points at `#/definitions/<body>`, and holds the munged body definition among definitions with distinct names |
| Swaggatron.ResourceSchemaClosed | tools/swaggatron.ts:41-46 | the written definitions are closed: every chaseable reference of every truthy definition's properties names one of them |
| Swaggatron.ReferenceCycle | tools/swaggatron.ts:88-109 | two definitions that refer to each other are collected once each and nothing else is: the collection stops at the name it holds |
| Swaggatron.ReferenceCycleAB | tools/swaggatron.ts:88-109 | the definitions `A` and `B` referring to each other give definitions with exactly the keys `A` and `B`, not repeated |
| Swaggatron.ResourcePath | tools/swaggatron.ts:120-129 | defined exactly for "job" and "pool" |
| Swaggatron.ResourcePathIsPlural | tools/swaggatron.ts:120-129 | the path is "/" followed by the kind's collection name from `Batch.Plural` |

## Left out

- Downloading the Swagger document, reading the extension file, writing the schema file and the command-line entry points are I/O. The documents are parameters.
- `createResourceSchema` lines 38-39 look up the body schema reference through `paths[...]` and the first operation parameter. That reference is a parameter of `Swaggatron.CreateResourceSchema`.
- The schema generator mutates shared objects in place; the model works on values, so it leaves out aliasing. In the source a definition stored in the output is the Swagger document's own object, so munging it also changes the document. The model always walks the unmunged document. The two differ only for a `$ref` that points inside a schema already munged, such as a property of another definition.
- `mergeExtensions` takes the definitions section as an object's member list. A Swagger document whose `definitions` is not an object is not modelled.
- Swaggatron.MergeExtensions: a base definition whose `properties` is a string, number, boolean or array is treated as throwing. JavaScript would assign onto its wrapper object or onto the array.
- Members inherited from `Object.prototype` (such as `constructor`) and the index members of strings and arrays are left out. Only objects have members in the model.
- Json.Put: a new key is appended, so members are listed in the order their keys were first stored. JavaScript enumerates keys that read as array indices (`"0"`, `"42"`) first, in numeric order; that ordering is not modelled.
- Json.PutShape: states the insertion order above, not JavaScript's order for index-like keys.
- Duration.ParseInt: reads decimal digits only. `Number.parseInt` without a radix also reads a `0x` hexadecimal prefix; the CLI's time spans never carry one.
- The VS Code host is left out:
  - saving dirty documents;
  - the output channel, and the exit code and stderr handling of the `az` process;
  - deleting the temporary file;
  - the command registrations.
- The temporary file's name comes from the `tmp` library and is a parameter. Writing the file is its contents as a member list: the `JSON.stringify` text is not modelled.
- The prompt (`promptForParameterValue`, quick picks and input boxes) is a function from the parameter to its answer. The prompt UI is not modelled.
- `JSON.parse` is a function parameter; the JSON text syntax is not modelled. A parsed object never repeats a key, so the template's parameter names are distinct. The model cannot derive this from an arbitrary `parse` function, so the create-command lemmas that need it (`Extension.TempParameterFileContents`, `Extension.TempFileKnowsEveryParameter`, `Extension.TemplateWithUnknownParameters`) require it as `DistinctNames`.
- Duration.ParseFloat: exponents (`1e3`) and `Infinity` are not modelled. The CLI never prints them.
- Numbers are exact integers and decimals, not IEEE doubles. So the model does not round integers above 2^53, or fractions to 17 significant digits. It does not print values of 1e21 or more, or seconds below 1e-6, in exponent form. The white space that `parseInt` and `parseFloat` skip is ASCII only, not all Unicode white space. The CLI prints none of these.
- Extension.ParameterJsonOfFoundFile: one map answers both `existsSync` and `readFileSync`, so a found path is always readable. A path that exists but is a directory, is unreadable, or is deleted between the two calls makes `readFileSync` throw and the command's promise reject. That failed read is not modelled.
- Path.LowerCase: only ASCII letters are folded. JavaScript's full Unicode lower-casing is not modelled.
- `src/azurebatchtree.ts`, `src/shell.ts` and `src/host.ts` are not part of this model.

## Findings

| source | as written | input that shows it | evidently intended | confidence | as-written member | corrected member |
|---|---|---|---|---|---|---|
| src/duration.ts:30-33 | 'T' is appended whether or not a time component follows | "1 day, 0:00:00" gives "P1DT" | "P1D": the time designator only before a time component | high (not executed) | Duration.IsoOfWholeDays | Duration.IsoCorrectedWellFormed |
| src/path.ts:1-10 | the last '.' anywhere in the path is taken as the extension start | "jobs.d/job" gives "jobs", so the parameter file is looked for outside the template's directory | "jobs.d/job": only a '.' in the last path segment counts | high (not executed; the source's own TODO describes it) | Path.StripExtensionCrossesDirectories | Path.StripExtensionCorrectedKeepsDirectory |
