# Shortcuts template compiler, modelled in Dafny

This project models the core of the Shortcuts integration of toolbox-macos. That core turns Apple Shortcuts actions into tool specs and fills values back into action templates. It has four parts:

- **Variable templates** (`VariableTemplate` in `template.ts`). `GetVariableReferences` lists the paths of every `{Type: "Variable", VariableName: <string>}` leaf in a JSON-like tree. `Apply` (`applyVariableReferenceToPath`) rebuilds a tree with one location filled in with a variable id.
- **Action templates** (`ActionTemplate` in `template.ts`). These are the `generate*` builders of the logical actions and the known-identifier test. They also include the dictionary encoder `GenerateDictionary` and its decoder `GetValueOfDictionary`.
- **Spec generation** (`specFromAction` in `metadata.ts`). Each top-level parameter of an action becomes API parameters, one per variable reference it holds. Each is named after the part of its path that differs from the parameter's other references. The names are recorded with their full template paths. Descriptions and `required` come from the WorkflowKit and app-intent catalogues.
- **The tool repository** (`ToolRepository` in `base/index.ts`). It is an append-only store. Items are deduplicated by deep equality of the item and of its spec's metadata. Pending overrides are keyed by deep-equal metadata. Snapshots come out in insertion order.
- **Workflows** (`base.ts`). An action is an identifier plus optional parameters. `createWorkflow` fills every field but the action list with fixed defaults. The workflow schema normalises those fields back to the defaults.

JSON values are the datatype `Json.Node`:

- Objects are entry sequences, so their insertion order is kept; `WellFormed` says every object has unique keys.
- Path segments are strings, and an array index is its canonical decimal string, as `Object.entries` yields them.
- `lodash.isequal` is `DeepEquality.DeepEqual`, which ignores key order.
- The repository is a class over two sequences that stand for its two `Map`s. Its item and metadata equalities are constructor arguments; `ShortcutTools` instantiates them with deep equality on actions and metadata.
- `specFromAction` is an imperative method over mutable local maps. It is proved equal to the function `Metadata.SpecOf`, and the properties of the spec are lemmas about that function.

Files: `wrappers.dfy`, `json.dfy`, `deep_equal.dfy`, `shortcut.dfy`, `variable_template.dfy`, `action_template.dfy`, `framework.dfy` (catalogue shapes), `toolbox.dfy`, `metadata.dfy`, `shortcut_tools.dfy`.

Two details of the code that the model keeps:

- Filling in a reference does not remove it. The filled leaf keeps `Type: "Variable"` and only gets a new `VariableName`, so it is still a reference leaf. `VariableTemplate.ApplyAtReference` states this.
- A missing `OutputName` or `Types` shows up in the `Returns` line as `undefined`, which is what the template literal prints.

## Model

| member | source | states |
|---|---|---|
| Json.Set | integration/shortcuts/lib/template.ts:532-535 | object spread with one key: that key gets the new value, every other key keeps its value, an existing key keeps its position, a new key goes last, and unique keys stay unique |
| Json.FromEntries | integration/shortcuts/lib/template.ts:457-461 | `Object.fromEntries` always yields unique keys |
| Json.FromEntriesKeys | integration/shortcuts/lib/template.ts:457-461 | `Object.fromEntries` holds exactly the keys of its pairs |
| Json.FromEntriesLastWins | integration/shortcuts/lib/template.ts:457-461 | a key holds the value of the last pair that names it |
| Json.FromEntriesOfUnique | integration/shortcuts/lib/template.ts:457-461 | on pairs whose keys are already unique, `Object.fromEntries` keeps them unchanged and in order |
| Json.ParseIndex | integration/shortcuts/lib/template.ts:543-547 | `Number(key)` as an array index: any index it accepts prints back as the same key |
| Json.ParseIndexOfNatToString | integration/shortcuts/lib/template.ts:511-514 | every index key that `Object.entries` produces for an array parses back to that index |
| Json.NatToStringInjective | integration/shortcuts/lib/template.ts:511-514 | distinct array indices give distinct path segments |
| Json.Field | integration/shortcuts/lib/metadata.ts:29-32 | a property read on a value is present iff the value is an object holding that key, and agrees with path resolution |
| DeepEquality.DeepEqualReflexive | integration/base/index.ts:81-85 | on trees with unique keys, `isEqual` holds between a value and itself |
| DeepEquality.DeepEqualSymmetric | integration/base/index.ts:81-85 | on trees with unique keys, `isEqual` is symmetric |
| DeepEquality.DeepEqualTransitive | integration/base/index.ts:81-85 | `isEqual` is transitive |
| DeepEquality.KeyOrderIgnored | integration/base/index.ts:62-65 | two objects that differ only in key order are different trees but `isEqual` |
| Shortcut.ParseAction | integration/shortcuts/lib/base.ts:12-21 | the action schema accepts an object with a string identifier and, if present, an object of parameters, and yields exactly those |
| Shortcut.ParseActionOfActionToNode | integration/shortcuts/lib/base.ts:17-21 | every action's tree form is read back by the action schema as the same action |
| Shortcut.CreateWorkflowFields | integration/shortcuts/lib/base.ts:24-73 | `createWorkflow(actions)` has exactly `actions` as its action list and every other field at its default, whatever the actions |
| Shortcut.ParseActions | integration/shortcuts/lib/base.ts:66-66 | an accepted action array has one parsed action per element, each what the action schema gives; a rejected one has an element the action schema rejects |
| Shortcut.ParseWorkflowNormalises | integration/shortcuts/lib/base.ts:43-67 | whatever the input held, a parsed workflow has every non-action field at its default, and its actions are the parsed input actions |
| Shortcut.ParseActionsOfActionsToNode | integration/shortcuts/lib/base.ts:66-66 | the tree form of an action list parses back to that list |
| Shortcut.ParseWorkflowOfValidFields | integration/shortcuts/lib/base.ts:43-67 | any object whose fields have the schema's types parses to `createWorkflow` of its parsed actions |
| Shortcut.WorkflowFieldsParse | integration/shortcuts/lib/base.ts:43-67 | the nine workflow fields, each of the schema's type, parse to `createWorkflow` of the parsed actions |
| Shortcut.WorkflowToNodeParses | integration/shortcuts/lib/base.ts:43-73 | the tree form of any workflow passes the schema and parses to the defaults with the same actions |
| Shortcut.CreateWorkflowIsNormal | integration/shortcuts/lib/base.ts:43-73 | the tree form of a created workflow is a fixed point of the workflow schema |
| Shortcut.ParseWorkflowIdempotent | integration/shortcuts/lib/base.ts:43-67 | normalising an already normalised workflow changes nothing |
| VariableTemplate.GetVariableReferences | integration/shortcuts/lib/template.ts:493-517 | the loop returns the reference paths in entry order: none for null or a scalar, exactly `[path]` for a reference leaf without descending into it, and each path it returns extends `path` and leads to a reference leaf |
| VariableTemplate.ReferencesSound | integration/shortcuts/lib/template.ts:500-517 | every returned path extends the input path and resolves in the tree to a reference leaf |
| VariableTemplate.ReferencesComplete | integration/shortcuts/lib/template.ts:500-517 | every reference leaf not nested inside another reference leaf is returned |
| VariableTemplate.FillHole | integration/shortcuts/lib/template.ts:528-535 | at an empty path, an array gets the id appended with earlier elements unchanged; an object gets `VariableName` set to the id with every other key unchanged and no key added but `VariableName` |
| VariableTemplate.Apply | integration/shortcuts/lib/template.ts:519-567 | substitution keeps keys unique |
| VariableTemplate.ApplyFailsOnMissingKey | integration/shortcuts/lib/template.ts:539-541 | a head key missing from an object fails with the invalid-path error |
| VariableTemplate.ApplyFailsOnNonIndex | integration/shortcuts/lib/template.ts:539-547 | on an array, a head that is not an index in range fails, with the invalid-path error or the invalid-index error for `length` |
| VariableTemplate.ApplyFailsOnScalar | integration/shortcuts/lib/template.ts:538-541 | a non-empty path into a scalar fails, as `in` throws there |
| VariableTemplate.ApplyChangesOnlyHead | integration/shortcuts/lib/template.ts:538-565 | only the element or key named by the path's head changes, recursively: an array keeps its length and every other index, an object every other key |
| VariableTemplate.ApplyAtResolvable | integration/shortcuts/lib/template.ts:519-567 | a path that resolves in the tree never fails, and afterwards the node there is the filled-in hole |
| VariableTemplate.ApplyAtReference | integration/shortcuts/lib/template.ts:500-567 | a path returned by `getVariableReferences` never fails; afterwards that leaf's `VariableName` is the id, its other keys are unchanged and it is still a reference leaf |
| VariableTemplate.SetTwice | integration/shortcuts/lib/template.ts:558-565 | spreading the same key twice keeps only the second value |
| VariableTemplate.SetCommutes | integration/shortcuts/lib/template.ts:558-565 | spreading two different existing keys gives the same object in either order |
| VariableTemplate.ApplyCommutes | integration/shortcuts/lib/template.ts:519-567 | filling two paths that part somewhere gives the same tree in either order |
| ActionTemplate.KnownLogicalActionTypes | integration/shortcuts/lib/template.ts:464-481 | the union lists 11 identifiers, 10 distinct; an action is known iff its identifier is one of them, whatever its parameters |
| ActionTemplate.GenerateComment | integration/shortcuts/lib/template.ts:16-21 | a known comment action whose one parameter is the text |
| ActionTemplate.GenerateDictionaryInput | integration/shortcuts/lib/template.ts:37-48 | a known dictionary-input action with the given UUID reading the extension input |
| ActionTemplate.DictionaryOutputValueShape | integration/shortcuts/lib/template.ts:86-100 | the dictionary output reference names the dictionary UUID with type `ActionOutput`, and has a key aggrandizement iff a non-empty key is given, holding that key |
| ActionTemplate.GenerateDictionaryValue | integration/shortcuts/lib/template.ts:74-106 | a known get-value action with the given key and UUID reading that output |
| ActionTemplate.ComparedOutputShape | integration/shortcuts/lib/template.ts:144-158 | the compared input refers to the action's output, has type `Variable` and is not itself a reference leaf |
| ActionTemplate.IfParametersShape | integration/shortcuts/lib/template.ts:143-163 | the conditional's parameters hold the compared input, mode 0, the compared string, the grouping id and condition 4 under their keys |
| ActionTemplate.GenerateIfActionOutputEquals | integration/shortcuts/lib/template.ts:135-165 | a known conditional in mode 0 with condition 4, the compared value and the grouping id |
| ActionTemplate.GenerateSetVariable | integration/shortcuts/lib/template.ts:182-200 | a known set-variable action naming the variable and reading the output |
| ActionTemplate.GenerateFileSave | integration/shortcuts/lib/template.ts:218-231 | a known save action that overwrites, does not ask, and saves the output to the path |
| ActionTemplate.GenerateEncodeBase64 | integration/shortcuts/lib/template.ts:248-260 | a known base64 action with the UUID reading the output |
| ActionTemplate.GenerateExit | integration/shortcuts/lib/template.ts:268-271 | a known exit action with empty parameters |
| ActionTemplate.OutputTokenShape | integration/shortcuts/lib/template.ts:296-307 | the output token attaches the output id at range `{0, 1}`, holds the placeholder string and is a text token string |
| ActionTemplate.GenerateOutputAndExit | integration/shortcuts/lib/template.ts:293-309 | a known output action whose text token places the output at range `{0, 1}` of the placeholder string |
| ActionTemplate.GenerateEndIf | integration/shortcuts/lib/template.ts:321-328 | a known conditional in mode 2 with the grouping id and UUID |
| ActionTemplate.GenerateDictionary | integration/shortcuts/lib/template.ts:396-452 | a known dictionary action whose items encode the data, serialised as a dictionary field value |
| ActionTemplate.GetValueOfDictionary | integration/shortcuts/lib/template.ts:454-462 | decoding yields an object with unique keys (`Object.fromEntries`) |
| ActionTemplate.GetValueOfDictionaryLastWins | integration/shortcuts/lib/template.ts:454-462 | the decoded object holds exactly the items' keys, and a key repeated among the items gets the value of its last item |
| ActionTemplate.StringItemRoundTrip | integration/shortcuts/lib/template.ts:401-460 | a string item decodes to its key and string |
| ActionTemplate.StringItemsContentRoundTrip | integration/shortcuts/lib/template.ts:418-462 | a nested dictionary of strings decodes back to the same mapping |
| ActionTemplate.NestedItemRoundTrip | integration/shortcuts/lib/template.ts:418-460 | a nested item decodes to its key and the nested mapping (`string ?? recurse`) |
| ActionTemplate.DictionaryItemRoundTrip | integration/shortcuts/lib/template.ts:400-460 | every item the encoder writes decodes to its key and value |
| ActionTemplate.GetValueOfDictionaryRoundTrip | integration/shortcuts/lib/template.ts:393-462 | the encoded content of any data with unique keys is valid content and decodes to the data |
| ActionTemplate.GenerateDictionaryRoundTrip | integration/shortcuts/lib/template.ts:393-462 | `getValueOfDictionary(generateDictionary(d).WFWorkflowActionParameters.WFItems.Value)` is `d` |
| Toolbox.Merge | integration/base/index.ts:62-99 | a shallow merge of two partial definitions: each field of the second that is present wins, otherwise the first's |
| Toolbox.MergeAssociative | integration/base/index.ts:62-99 | merging is associative, so successive `addOverride` calls fold into one merge |
| Toolbox.MergeIdentities | integration/base/index.ts:62-99 | the empty override is neutral on both sides and merging is idempotent |
| Toolbox.ToolRepository.constructor | integration/base/index.ts:50-60 | a new repository is empty and keeps its tool type and spec generator |
| Toolbox.ToolRepository.FirstOverride | integration/base/index.ts:93-99 | the position of the first stored override whose key equals the metadata, or none iff no key does |
| Toolbox.ToolRepository.SpecToStore | integration/base/index.ts:92-101 | the stored spec is the generated one, with the first matching override shallow-merged in and stored keys winning |
| Toolbox.ToolRepository.AddOverride | integration/base/index.ts:62-74 | merges into the first equal key with new keys winning, or appends; never touches stored specs and keeps override keys pairwise unequal |
| Toolbox.ToolRepository.Add | integration/base/index.ts:77-103 | returns false and changes nothing iff an equal item with equal metadata is stored; otherwise appends exactly one entry holding the item and its merged spec; keeps entries pairwise distinct |
| Toolbox.ToolRepository.GetTools | integration/base/index.ts:105-108 | the items, one per entry, in insertion order |
| Toolbox.ToolRepository.GetSpecs | integration/base/index.ts:110-113 | one spec per entry, in insertion order, each tagged with the tool type |
| Toolbox.ToolRepository.GetToolsWithSpecs | integration/base/index.ts:115-118 | the items paired with the tagged specs, in the same order as the other two getters |
| Toolbox.AddTwice | integration/base/index.ts:77-103 | adding the same item twice stores it at most once: the second add returns false |
| Toolbox.OverrideTiming | integration/base/index.ts:62-103 | an override added before the item is merged into any override already pending for its metadata and reaches its spec; one added after does not |
| Metadata.IndexByKeys | integration/shortcuts/lib/metadata.ts:22-37 | `Object.fromEntries` over definitions has exactly the definitions' keys |
| Metadata.IndexByLastWins | integration/shortcuts/lib/metadata.ts:22-37 | a definition that no later definition shares its key with is what the index holds for that key |
| Metadata.AppIntentFor | integration/shortcuts/lib/metadata.ts:28-34 | an app intent is found iff the parameters hold a truthy descriptor with string bundle and intent ids, the bundle is catalogued and has that intent; it is then exactly that intent |
| Metadata.Get | integration/shortcuts/lib/metadata.ts:21-46 | a lookup in the WorkflowKit catalogue or a parameter index is found iff its key is present, and is then that key's value |
| Metadata.ClassPrefix | integration/shortcuts/lib/metadata.ts:48-49 | the description prefix is non-empty iff the definition gives a non-empty class, and is then ` (Class) ` |
| Metadata.ParamText | integration/shortcuts/lib/metadata.ts:48-50 | the description falls back from WorkflowKit's description to its label, then the app intent's title key, then the parameter id |
| Metadata.ParamRequired | integration/shortcuts/lib/metadata.ts:51-51 | `required` is `!isOptional` when the app intent defines the parameter, else true unless WorkflowKit gives a truthy default |
| Metadata.UndefinedParameter | integration/shortcuts/lib/metadata.ts:48-51 | a parameter defined nowhere is described by its id and is required |
| Metadata.FirstTruthy | integration/shortcuts/lib/metadata.ts:103-111 | an or-chain of strings yields the first non-empty value, or the last one |
| Metadata.ActionDescription | integration/shortcuts/lib/metadata.ts:103-111 | the action description is the first non-empty of WorkflowKit's summary, its note, the app intent's description and its title key, else the action id; it is empty only when the action id is |
| Metadata.UndescribedAction | integration/shortcuts/lib/metadata.ts:103-111 | without catalogue entries the chain ends at the action id |
| Metadata.ReturnsSuffix | integration/shortcuts/lib/metadata.ts:113-115 | the `Returns` line is empty iff there is no output definition, and otherwise starts with `\nReturns ` |
| Metadata.MinLength | integration/shortcuts/lib/metadata.ts:64-64 | the shortest path length: no path is shorter and some path has it |
| Metadata.CommonPrefixLongest | integration/shortcuts/lib/metadata.ts:64-69 | the common prefix is the longest leading run on which all paths agree, no longer than the shortest path |
| Metadata.CommonSuffixLongest | integration/shortcuts/lib/metadata.ts:71-81 | the common suffix is the longest trailing run on which all paths agree, computed independently and no longer than the shortest path |
| Metadata.Slice | integration/shortcuts/lib/metadata.ts:85-88 | `slice` between in-range bounds: the segment between them, or empty when they cross |
| Metadata.NameBetweenPrefixAndSuffix | integration/shortcuts/lib/metadata.ts:85-88 | with several references a name is the path between prefix and suffix joined by ".", and is empty when the two overlap |
| Metadata.CommonPathPrefix | integration/shortcuts/lib/metadata.ts:61-69 | the push loop builds the first path's leading run of the common-prefix length |
| Metadata.CommonPathSuffix | integration/shortcuts/lib/metadata.ts:62-81 | the `unshift` loop builds the first path's trailing run of the common-suffix length |
| Metadata.RecordReferences | integration/shortcuts/lib/metadata.ts:83-99 | the loop over the references writes, for each in order, its name (the id alone, or the joined middle between prefix and suffix when there are several) into both tables |
| Metadata.NameReferences | integration/shortcuts/lib/metadata.ts:60-99 | the naming loop records every reference of one parameter as the table function prescribes |
| Metadata.SpecOf | integration/shortcuts/lib/metadata.ts:17-128 | the spec is named after the action, responds with a string, has no override, and its template is the input action |
| Metadata.SpecFromAction | integration/shortcuts/lib/metadata.ts:17-129 | the loop over the parameters returns exactly the spec `SpecOf` defines |
| Metadata.RecordNamesConsistent | integration/shortcuts/lib/metadata.ts:90-98 | naming references keeps both tables on one key set, with every parameter of type string |
| Metadata.ParametersUpToConsistent | integration/shortcuts/lib/metadata.ts:43-100 | after any number of parameters both tables have one key set and all types are string |
| Metadata.SpecParametersMatchPaths | integration/shortcuts/lib/metadata.ts:90-128 | `definition.parameters` and `parameterIdToTemplatePath` have the same key set, and every parameter has type `"string"` |
| Metadata.RecordNamesLastWins | integration/shortcuts/lib/metadata.ts:83-99 | a name maps to the path of the last reference that took it, with its parameter entry |
| Metadata.RecordNamesOnlyNames | integration/shortcuts/lib/metadata.ts:83-99 | a name that no reference of the parameter takes keeps its earlier entries in both tables |
| Metadata.AtMostOneReference | integration/shortcuts/lib/metadata.ts:54-99 | a parameter with no references adds nothing; with one reference `p` it is named by its id and maps to `[paramId] + p` and the parameter entry, all other names unchanged |
| Metadata.SeveralReferences | integration/shortcuts/lib/metadata.ts:83-99 | with several references, each one whose name no later reference takes is recorded under that name with its own path `[paramId] + p` and the parameter entry |
| Metadata.RecordNamesLeadToReferences | integration/shortcuts/lib/metadata.ts:54-98 | each recorded path leads from the parameters to a reference leaf |
| Metadata.ParametersUpToLeadToReferences | integration/shortcuts/lib/metadata.ts:43-100 | every recorded path leads from the parameters to a reference leaf |
| Metadata.SpecPathsLeadToReferences | integration/shortcuts/lib/metadata.ts:83-98 | every template path of a spec leads to a variable reference in the action, so filling it in never fails and writes the id there |
| Metadata.SpecDescription | integration/shortcuts/lib/metadata.ts:103-119 | the endpoint description starts with the action description and equals it iff WorkflowKit gives no output definition |
| Metadata.UncataloguedAction | integration/shortcuts/lib/metadata.ts:48-119 | an action neither catalogue knows is described by its id, and each API parameter is required and described by its top-level parameter id |
| Metadata.UncataloguedParameters | integration/shortcuts/lib/metadata.ts:48-51 | without definitions every recorded parameter is required and described by the id its path starts with |
| Metadata.RecordNamesDescribedByOrigin | integration/shortcuts/lib/metadata.ts:90-98 | naming references under a parameter described by its id keeps that property |
| ShortcutTools.ActionEqualIsEquivalence | integration/base/index.ts:80-85 | `isEqual` on actions with unique keys is reflexive, symmetric and transitive |
| ShortcutTools.MetadataEqualIsEquivalence | integration/base/index.ts:85-94 | `isEqual` on Shortcuts tool metadata is an equivalence |
| ShortcutTools.ParameterOrderIgnored | integration/base/index.ts:80-88 | two actions differing only in parameter order are distinct values that the repository treats as equal |
| ShortcutTools.NewShortcutRepository | integration/base/index.ts:50-60 | a new empty repository whose specs come from `specFromAction` and whose equalities are deep equality |
| ShortcutTools.AddActionTwice | integration/base/index.ts:77-103 | adding a well-formed action twice stores it at most once |

## Left out

- Loading the catalogues (`WorkflowKit.getActionDefinitions`, `ApplicationBundle.getActionDefinitions`) reads plists and bundles from the host. The catalogues reach `specFromAction` as maps, and only the fields it reads are modelled in `framework.dfy`.
- `Shortcut.getUUID` is random. Every builder that calls it takes the UUID (or grouping id) as a parameter instead.
- Numbers are integers: JSON floats, NaN and the float side of `Number(key)` are not modelled. On an array the `in` test passes only canonical index keys and `length`, so only those reach `Number`; a key such as `"01"` gives the invalid-path error in the code and in the model alike.
- JavaScript quirks are left out: prototype keys seen by `in`, `Object.entries` listing integer-like keys first, and `Map.set` overwriting an entry when the same object reference is added again. Each repository entry is a new entry.
- A spread of an object that holds an explicit `undefined` overrides the earlier value in JavaScript. `Merge` treats an absent field and an undefined one alike.
- The zod schemas are replaced by predicates that say which trees they accept. The zod parse of `VariableName` into the placeholder `"var"` is not modelled.
- VariableTemplate.StringSpread and VariableTemplate.FillHole: a string is split at each Dafny `char`, a Unicode scalar value, while JavaScript's `{...s}` splits at UTF-16 code units; a character outside the Basic Multilingual Plane therefore gives one key here and two keys holding surrogate halves in the code.
- Toolbox.ToolRepository: takes the two `isEqual` relations as constructor arguments, because the item and metadata types are generic. Its contracts hold for any relations; `ShortcutTools` supplies deep equality.
- Metadata.AppIntentFor: descriptor identifiers that are not strings are treated as not found. The app intent's `descriptionMetadata.description` is modelled as an optional string.
- Metadata.SpecOf: the key order of `definition.parameters` and `parameterIdToTemplatePath` is not modelled, since both are maps here.
- Metadata.NameReferences: two references of one parameter can get the same name, for example the paths `[x, x]` and `[x, y, x]` both get the empty name. The model records the later one, as the code does; no lemma claims names are unique.
- ActionTemplate.KnownLogicalActionTypes, Toolbox.MergeAssociative, Toolbox.MergeIdentities, Metadata.UndefinedParameter and Metadata.NameBetweenPrefixAndSuffix need no proof beyond unfolding definitions.
- The rest of the repository is not part of this model: the messages integration, native shell calls, the CLI, and the deserialisation of the app-intent catalogues.
