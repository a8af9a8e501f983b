/**
 * Tool specs for Shortcuts actions (`specFromAction` in
 * integration/shortcuts/lib/metadata.ts).
 *
 * Every top-level parameter of an action that holds variable references
 * becomes one or more API parameters. A parameter with one reference is
 * named after itself; with several, each reference is named by its path
 * with the prefix and suffix common to all the parameter's paths cut off,
 * the rest joined with ".". Each name is mapped to the full path of its
 * reference inside the action's parameters. Descriptions and `required`
 * come from the WorkflowKit and app-intent catalogues, which are passed in.
 */
module Metadata {
  import opened Wrappers
  import opened Json
  import opened Shortcut
  import opened VariableTemplate
  import opened Framework
  import opened Toolbox
  import opened DeepEquality

  /** `ShortcutToolMetadata`. */
  datatype ShortcutToolMetadata = ShortcutToolMetadata(parameterIdToTemplatePath: map<string, Path>, template: Action)

  type ShortcutToolSpec = ToolSpec<ShortcutToolMetadata>

  /** JavaScript truthiness of a value (numbers are integers here, so there is no NaN). */
  predicate Truthy(n: Node) {
    match n
    case Null => false
    case Bool(b) => b
    case Num(x) => x != 0
    case Str(s) => s != ""
    case _ => true
  }

  // ---------------------------------------------------------------------
  // Catalogue lookups
  // ---------------------------------------------------------------------

  /** `Object.fromEntries(defs.map((d) => [keyOf(d), d]))`. */
  function IndexBy<D>(defs: seq<D>, keyOf: D -> string): map<string, D>
    decreases |defs|
  {
    if defs == [] then map[]
    else IndexBy(defs[..|defs| - 1], keyOf)[keyOf(defs[|defs| - 1]) := defs[|defs| - 1]]
  }

  /** The index's keys are exactly the definitions' keys. */
  lemma {:induction false} IndexByKeys<D>(defs: seq<D>, keyOf: D -> string)
    ensures IndexBy(defs, keyOf).Keys == set d | d in defs :: keyOf(d)
    decreases |defs|
  {
    if defs != [] {
      var prefix := defs[..|defs| - 1];
      IndexByKeys(prefix, keyOf);
      assert defs == prefix + [defs[|defs| - 1]];
      assert (set d | d in defs :: keyOf(d)) == (set d | d in prefix :: keyOf(d)) + {keyOf(defs[|defs| - 1])};
    }
  }

  /** A later definition with the same key wins: a definition no later one shares a key with is the one indexed. */
  lemma {:induction false} IndexByLastWins<D>(defs: seq<D>, keyOf: D -> string, i: nat)
    requires i < |defs| && forall j :: i < j < |defs| ==> keyOf(defs[j]) != keyOf(defs[i])
    ensures keyOf(defs[i]) in IndexBy(defs, keyOf) && IndexBy(defs, keyOf)[keyOf(defs[i])] == defs[i]
    decreases |defs|
  {
    if i < |defs| - 1 {
      var prefix := defs[..|defs| - 1];
      assert prefix[i] == defs[i];
      assert forall j :: i < j < |prefix| ==> prefix[j] == defs[j];
      IndexByLastWins(prefix, keyOf, i);
    }
  }

  /**
   * The app intent an action invokes, found when its parameters hold a
   * truthy `AppIntentDescriptor` whose `BundleIdentifier` names an app in
   * the catalogue and whose `AppIntentIdentifier` names one of its intents.
   */
  function AppIntentFor(params: Option<Entries>, ai: AppIntentActions): (r: Option<AppIntentActionDefinition>)
    ensures params.None? ==> r.None?
    ensures r.Some? <==>
              && params.Some? && HasKey(params.value, "AppIntentDescriptor")
              && var d := Lookup(params.value, "AppIntentDescriptor").value;
              && Truthy(d)
              && Field(d, "BundleIdentifier").Some? && Field(d, "BundleIdentifier").value.Str?
              && Field(d, "AppIntentIdentifier").Some? && Field(d, "AppIntentIdentifier").value.Str?
              && var bundle, intent := Field(d, "BundleIdentifier").value.s, Field(d, "AppIntentIdentifier").value.s;
                 bundle in ai && intent in ai[bundle].actions
    ensures r.Some? ==>
              var d := Lookup(params.value, "AppIntentDescriptor").value;
              var bundle, intent := Field(d, "BundleIdentifier").value.s, Field(d, "AppIntentIdentifier").value.s;
              r.value == ai[bundle].actions[intent]
  {
    if params.None? then None
    else
      match Lookup(params.value, "AppIntentDescriptor")
      case None => None
      case Some(d) =>
        if !Truthy(d) then None
        else
          match (Field(d, "BundleIdentifier"), Field(d, "AppIntentIdentifier"))
          case (Some(Str(bundle)), Some(Str(intent))) =>
            if bundle in ai && intent in ai[bundle].actions then Some(ai[bundle].actions[intent]) else None
          case _ => None
  }

  /**
   * A read that may miss: `workflowKitActions.get(actionId)` on the
   * catalogue, and `obj[key]` on an index built by `IndexBy`.
   */
  function Get<D>(index: map<string, D>, key: string): (r: Option<D>)
    ensures r.Some? <==> key in index
    ensures r.Some? ==> r.value == index[key]
  {
    if key in index then Some(index[key]) else None
  }

  // ---------------------------------------------------------------------
  // Descriptions and `required`
  // ---------------------------------------------------------------------

  /** `" (Class) "` when the WorkflowKit definition gives a non-empty class. */
  function ClassPrefix(wk: Option<ParameterDefinition>): (r: string)
    ensures r != "" <==> wk.Some? && wk.value.parameterClass.Some? && wk.value.parameterClass.value != ""
    ensures r != "" ==> r == " (" + wk.value.parameterClass.value + ") "
  {
    if wk.Some? && wk.value.parameterClass.Some? && wk.value.parameterClass.value != "" then
      " (" + wk.value.parameterClass.value + ") "
    else ""
  }

  /** `Description ?? Label ?? title.key ?? paramId`: the first one present, even if empty. */
  function ParamText(wk: Option<ParameterDefinition>, ai: Option<AppIntentParameterDefinition>, paramId: string): (r: string)
    ensures wk.Some? && wk.value.description.Some? ==> r == wk.value.description.value
    ensures (wk.None? || wk.value.description.None?) && wk.Some? && wk.value.paramLabel.Some? ==> r == wk.value.paramLabel.value
    ensures (wk.None? || (wk.value.description.None? && wk.value.paramLabel.None?)) && ai.Some? ==> r == ai.value.titleKey
    ensures (wk.None? || (wk.value.description.None? && wk.value.paramLabel.None?)) && ai.None? ==> r == paramId
  {
    if wk.Some? && wk.value.description.Some? then wk.value.description.value
    else if wk.Some? && wk.value.paramLabel.Some? then wk.value.paramLabel.value
    else if ai.Some? then ai.value.titleKey
    else paramId
  }

  /** The description of an API parameter. */
  function ParamDescription(wk: Option<ParameterDefinition>, ai: Option<AppIntentParameterDefinition>, paramId: string): (r: string)
  {
    ClassPrefix(wk) + ParamText(wk, ai, paramId)
  }

  /**
   * `required`: the negation of the app intent's `isOptional` when it defines
   * the parameter, otherwise true unless WorkflowKit gives a truthy default.
   */
  function ParamRequired(wk: Option<ParameterDefinition>, ai: Option<AppIntentParameterDefinition>): (r: bool)
    ensures ai.Some? ==> r == !ai.value.isOptional
    ensures ai.None? ==> (r <==> wk.None? || wk.value.defaultValue.None? || !Truthy(wk.value.defaultValue.value))
  {
    if ai.Some? then !ai.value.isOptional
    else !(wk.Some? && wk.value.defaultValue.Some? && Truthy(wk.value.defaultValue.value))
  }

  /** Without any definition a parameter is described by its own id and is required. */
  lemma UndefinedParameter(paramId: string)
    ensures ParamDescription(None, None, paramId) == paramId
    ensures ParamRequired(None, None)
  {
  }

  /** `xs[0] || xs[1] || …`: the first non-empty string, or the last one when all are empty. */
  function FirstTruthy(xs: seq<string>): (r: string)
    requires |xs| > 0
    ensures exists i :: 0 <= i < |xs| && r == xs[i] && (forall j :: 0 <= j < i ==> xs[j] == "")
                        && (r != "" || i == |xs| - 1)
    decreases |xs|
  {
    if |xs| == 1 || xs[0] != "" then
      assert xs[0] == xs[0];
      xs[0]
    else
      var r := FirstTruthy(xs[1..]);
      var i :| 0 <= i < |xs[1..]| && r == xs[1..][i] && (forall j :: 0 <= j < i ==> xs[1..][j] == "")
               && (r != "" || i == |xs[1..]| - 1);
      assert r == xs[i + 1];
      r
  }

  function OrEmpty(s: Option<string>): string {
    s.GetOr("")
  }

  /**
   * The action description: WorkflowKit's summary, then its note, then the
   * app intent's description, then its title key, then the action id.
   */
  function ActionDescription(wk: Option<ActionDefinition>, ai: Option<AppIntentActionDefinition>, actionId: string): (r: string)
    ensures var d := if wk.Some? then wk.value.description else None;
            var summary := if d.Some? then OrEmpty(d.value.descriptionSummary) else "";
            var note := if d.Some? then OrEmpty(d.value.descriptionNote) else "";
            var intentText := if ai.Some? && ai.value.descriptionMetadata.Some? then OrEmpty(ai.value.descriptionMetadata.value.description) else "";
            var title := if ai.Some? then ai.value.titleKey else "";
            && (summary != "" ==> r == summary)
            && (summary == "" && note != "" ==> r == note)
            && (summary == "" && note == "" && intentText != "" ==> r == intentText)
            && (summary == "" && note == "" && intentText == "" && title != "" ==> r == title)
            && (summary == "" && note == "" && intentText == "" && title == "" ==> r == actionId)
    ensures r == "" ==> actionId == ""
  {
    var d := if wk.Some? then wk.value.description else None;
    var xs := [
      if d.Some? then OrEmpty(d.value.descriptionSummary) else "",
      if d.Some? then OrEmpty(d.value.descriptionNote) else "",
      if ai.Some? && ai.value.descriptionMetadata.Some? then OrEmpty(ai.value.descriptionMetadata.value.description) else "",
      if ai.Some? then ai.value.titleKey else "",
      actionId];
    var r := FirstTruthy(xs);
    var i :| 0 <= i < |xs| && r == xs[i] && (forall j :: 0 <= j < i ==> xs[j] == "") && (r != "" || i == |xs| - 1);
    assert i > 0 ==> xs[0] == "";
    assert i > 1 ==> xs[1] == "";
    assert i > 2 ==> xs[2] == "";
    assert i > 3 ==> xs[3] == "";
    r
  }

  /** With no catalogue entry the action is described by its identifier. */
  lemma UndescribedAction(actionId: string)
    ensures ActionDescription(None, None, actionId) == actionId
  {
    var xs := ["", "", "", "", actionId];
    var r := FirstTruthy(xs);
    assert forall i :: 0 <= i < 4 ==> xs[i] == "";
  }

  /** `parts.join(separator)`. */
  function Join(parts: seq<string>, separator: string): (r: string)
    ensures |parts| == 0 ==> r == ""
    ensures |parts| == 1 ==> r == parts[0]
    decreases |parts|
  {
    if |parts| == 0 then ""
    else if |parts| == 1 then parts[0]
    else Join(parts[..|parts| - 1], separator) + separator + parts[|parts| - 1]
  }

  /** A template literal's rendering of a possibly missing string. */
  function OrUndefined(s: Option<string>): string {
    s.GetOr("undefined")
  }

  /** `\nReturns <name> (<types>)` when the action has an output definition. */
  function ReturnsSuffix(output: Option<OutputDefinition>): (r: string)
    ensures output.None? <==> r == ""
    ensures output.Some? ==> |r| >= 9 && r[..9] == "\nReturns "
  {
    if output.None? then ""
    else
      var types := if output.value.types.Some? then Join(output.value.types.value, ", ") else "undefined";
      var r := "\nReturns " + OrUndefined(output.value.outputName) + " (" + types + ")";
      assert r[..9] == "\nReturns ";
      r
  }

  // ---------------------------------------------------------------------
  // Names from reference paths
  // ---------------------------------------------------------------------

  /** `Math.min(...refs.map((path) => path.length))`. */
  function MinLength(refs: seq<Path>): (m: nat)
    requires |refs| > 0
    ensures forall k :: 0 <= k < |refs| ==> m <= |refs[k]|
    ensures exists k :: 0 <= k < |refs| && m == |refs[k]|
    decreases |refs|
  {
    if |refs| == 1 then |refs[0]|
    else
      var m := MinLength(refs[1..]);
      assert forall k :: 1 <= k < |refs| ==> refs[k] == refs[1..][k - 1];
      if |refs[0]| <= m then |refs[0]| else m
  }

  /** All paths agree with the first at position `i`. */
  predicate AgreeAt(refs: seq<Path>, i: nat)
    requires |refs| > 0 && i < MinLength(refs)
  {
    forall k :: 0 <= k < |refs| ==> refs[k][i] == refs[0][i]
  }

  /** All paths agree with the first at position `i` counted from the end. */
  predicate AgreeFromEnd(refs: seq<Path>, i: nat)
    requires |refs| > 0 && i < MinLength(refs)
  {
    forall k :: 0 <= k < |refs| ==> refs[k][|refs[k]| - 1 - i] == refs[0][|refs[0]| - 1 - i]
  }

  function CommonPrefixFrom(refs: seq<Path>, i: nat): (n: nat)
    requires |refs| > 0 && i <= MinLength(refs)
    ensures i <= n <= MinLength(refs)
    decreases MinLength(refs) - i
  {
    if i < MinLength(refs) && AgreeAt(refs, i) then CommonPrefixFrom(refs, i + 1) else i
  }

  /** The length of the common path prefix the first counting loop finds. */
  function CommonPrefixLength(refs: seq<Path>): nat
    requires |refs| > 0
  {
    CommonPrefixFrom(refs, 0)
  }

  function CommonSuffixFrom(refs: seq<Path>, i: nat): (n: nat)
    requires |refs| > 0 && i <= MinLength(refs)
    ensures i <= n <= MinLength(refs)
    decreases MinLength(refs) - i
  {
    if i < MinLength(refs) && AgreeFromEnd(refs, i) then CommonSuffixFrom(refs, i + 1) else i
  }

  /** The length of the common path suffix the second counting loop finds. */
  function CommonSuffixLength(refs: seq<Path>): nat
    requires |refs| > 0
  {
    CommonSuffixFrom(refs, 0)
  }

  lemma {:induction false} CommonPrefixFromLongest(refs: seq<Path>, i: nat)
    requires |refs| > 0 && i <= MinLength(refs)
    requires forall j :: 0 <= j < i ==> AgreeAt(refs, j)
    ensures var n := CommonPrefixFrom(refs, i);
            && (forall j :: 0 <= j < n ==> AgreeAt(refs, j))
            && (n < MinLength(refs) ==> !AgreeAt(refs, n))
    decreases MinLength(refs) - i
  {
    if i < MinLength(refs) && AgreeAt(refs, i) {
      CommonPrefixFromLongest(refs, i + 1);
    }
  }

  /**
   * The common prefix is the longest leading run on which all paths agree,
   * and it is no longer than the shortest path.
   */
  lemma CommonPrefixLongest(refs: seq<Path>)
    requires |refs| > 0
    ensures var n := CommonPrefixLength(refs);
            && n <= MinLength(refs)
            && (forall j :: 0 <= j < n ==> AgreeAt(refs, j))
            && (n < MinLength(refs) ==> !AgreeAt(refs, n))
  {
    CommonPrefixFromLongest(refs, 0);
  }

  lemma {:induction false} CommonSuffixFromLongest(refs: seq<Path>, i: nat)
    requires |refs| > 0 && i <= MinLength(refs)
    requires forall j :: 0 <= j < i ==> AgreeFromEnd(refs, j)
    ensures var n := CommonSuffixFrom(refs, i);
            && (forall j :: 0 <= j < n ==> AgreeFromEnd(refs, j))
            && (n < MinLength(refs) ==> !AgreeFromEnd(refs, n))
    decreases MinLength(refs) - i
  {
    if i < MinLength(refs) && AgreeFromEnd(refs, i) {
      CommonSuffixFromLongest(refs, i + 1);
    }
  }

  /**
   * The common suffix is the longest trailing run on which all paths agree,
   * found independently of the prefix and bounded by the shortest path.
   */
  lemma CommonSuffixLongest(refs: seq<Path>)
    requires |refs| > 0
    ensures var n := CommonSuffixLength(refs);
            && n <= MinLength(refs)
            && (forall j :: 0 <= j < n ==> AgreeFromEnd(refs, j))
            && (n < MinLength(refs) ==> !AgreeFromEnd(refs, n))
  {
    CommonSuffixFromLongest(refs, 0);
  }

  /** `s.slice(start, end)` for bounds within the sequence: empty when they cross. */
  function Slice(s: Path, start: nat, end: nat): (r: Path)
    requires start <= |s| && end <= |s|
    ensures start < end ==> r == s[start..end]
    ensures end <= start ==> r == []
  {
    if start < end then s[start..end] else []
  }

  /**
   * The name of a reference `path` once the common prefix and suffix
   * lengths `p` and `s` are known: the parameter id when it is the only
   * reference, otherwise what lies between prefix and suffix, joined by ".".
   */
  function NameWith(paramId: string, several: bool, p: nat, s: nat, path: Path): string
    requires p <= |path| && s <= |path|
  {
    if several then Join(Slice(path, p, |path| - s), ".") else paramId
  }

  /** The API parameter name of one reference `path` of parameter `paramId`. */
  function NameOf(paramId: string, refs: seq<Path>, path: Path): (name: string)
    requires |refs| > 0 && path in refs
  {
    assert CommonPrefixLength(refs) <= |path| && CommonSuffixLength(refs) <= |path|;
    NameWith(paramId, |refs| > 1, CommonPrefixLength(refs), CommonSuffixLength(refs), path)
  }

  /**
   * With several references a name is the part of the path between the
   * common prefix and the common suffix, joined with "."; it is empty when
   * the two overlap.
   */
  lemma NameBetweenPrefixAndSuffix(paramId: string, refs: seq<Path>, path: Path)
    requires |refs| > 1 && path in refs
    ensures CommonPrefixLength(refs) <= |path| && CommonSuffixLength(refs) <= |path|
    ensures var p, s := CommonPrefixLength(refs), CommonSuffixLength(refs);
            && (p < |path| - s ==> NameOf(paramId, refs, path) == Join(path[p..|path| - s], "."))
            && (p >= |path| - s ==> NameOf(paramId, refs, path) == "")
  {
  }

  // ---------------------------------------------------------------------
  // The two tables
  // ---------------------------------------------------------------------

  /** `apiParams` and `parameterIdToTemplatePath` together. */
  datatype Tables = Tables(apiParams: map<string, Parameter>, paths: map<string, Path>)

  const EmptyTables := Tables(map[], map[])

  /** Every reference is at least `p` and at least `s` segments long. */
  predicate FitsAll(refs: seq<Path>, p: nat, s: nat) {
    forall j :: 0 <= j < |refs| ==> p <= |refs[j]| && s <= |refs[j]|
  }

  /** The names of the references of one parameter, in order, for prefix and suffix lengths `p` and `s`. */
  function NamesWith(paramId: string, refs: seq<Path>, p: nat, s: nat): (names: seq<string>)
    requires |refs| > 0 && FitsAll(refs, p, s)
    ensures |names| == |refs|
  {
    seq(|refs|, j requires 0 <= j < |refs| => NameWith(paramId, |refs| > 1, p, s, refs[j]))
  }

  /** The names of the references of one parameter, in order. */
  function ReferenceNames(paramId: string, refs: seq<Path>): (names: seq<string>)
    requires |refs| > 0
    ensures |names| == |refs|
  {
    assert FitsAll(refs, CommonPrefixLength(refs), CommonSuffixLength(refs));
    NamesWith(paramId, refs, CommonPrefixLength(refs), CommonSuffixLength(refs))
  }

  /** Each of the names is the name of its reference. */
  lemma ReferenceNamesAt(paramId: string, refs: seq<Path>)
    requires |refs| > 0
    ensures forall j :: 0 <= j < |refs| ==> ReferenceNames(paramId, refs)[j] == NameOf(paramId, refs, refs[j])
  {
  }

  /** The tables after the first `k` references of one parameter, each recorded under its name. */
  function RecordNames(t: Tables, paramId: string, refs: seq<Path>, names: seq<string>, k: nat, parameter: Parameter): (r: Tables)
    requires |names| == |refs| && k <= |refs|
    decreases k
  {
    if k == 0 then t
    else
      var prev := RecordNames(t, paramId, refs, names, k - 1, parameter);
      Tables(prev.apiParams[names[k - 1] := parameter], prev.paths[names[k - 1] := [paramId] + refs[k - 1]])
  }

  /** The parameter definitions of an action known to WorkflowKit, by key. */
  function WorkflowKitParams(wk: Option<ActionDefinition>): map<string, ParameterDefinition> {
    IndexBy(if wk.Some? && wk.value.parameters.Some? then wk.value.parameters.value else [],
            (d: ParameterDefinition) => d.key)
  }

  /** The parameter definitions of an app intent, by name. */
  function AppIntentParams(ai: Option<AppIntentActionDefinition>): map<string, AppIntentParameterDefinition> {
    IndexBy(if ai.Some? && ai.value.parameters.Some? then ai.value.parameters.value else [],
            (d: AppIntentParameterDefinition) => d.name)
  }

  /** What one top-level parameter adds to the tables. */
  function AddParameter(t: Tables, paramId: string, param: Node,
                        wkParams: map<string, ParameterDefinition>,
                        aiParams: map<string, AppIntentParameterDefinition>): Tables
  {
    var refs := References(param, []);
    if |refs| == 0 then t
    else
      var wkDef, aiDef := Get(wkParams, paramId), Get(aiParams, paramId);
      RecordNames(t, paramId, refs, ReferenceNames(paramId, refs), |refs|,
                  Parameter(ParamRequired(wkDef, aiDef), ParamDescription(wkDef, aiDef, paramId), StringType))
  }

  /** The tables after the first `k` top-level parameters. */
  function ParametersUpTo(es: Entries, k: nat,
                          wkParams: map<string, ParameterDefinition>,
                          aiParams: map<string, AppIntentParameterDefinition>): Tables
    requires k <= |es|
    decreases k
  {
    if k == 0 then EmptyTables
    else AddParameter(ParametersUpTo(es, k - 1, wkParams, aiParams), es[k - 1].0, es[k - 1].1, wkParams, aiParams)
  }

  /** The spec `specFromAction` returns. */
  function SpecOf(action: Action, wk: WorkflowKitActions, ai: AppIntentActions): (r: ShortcutToolSpec)
    ensures r.definition.name == action.identifier && r.definition.responseType == StringType
    ensures r.metadata.template == action && r.override.None?
  {
    var wkDef := Get(wk, action.identifier);
    var aiDef := AppIntentFor(action.parameters, ai);
    var es := action.parameters.GetOr([]);
    var t := ParametersUpTo(es, |es|, WorkflowKitParams(wkDef), AppIntentParams(aiDef));
    var output := if wkDef.Some? then wkDef.value.output else None;
    ToolSpec(
      Definition(action.identifier, ActionDescription(wkDef, aiDef, action.identifier) + ReturnsSuffix(output),
                 t.apiParams, StringType),
      None,
      ShortcutToolMetadata(t.paths, action))
  }

  /**
   * `specFromAction`: the loop over the top-level parameters, with the two
   * counting loops for the common prefix and suffix and the loop that
   * names each reference.
   */
  method SpecFromAction(action: Action, wk: WorkflowKitActions, ai: AppIntentActions) returns (spec: ShortcutToolSpec)
    ensures spec == SpecOf(action, wk, ai)
  {
    var actionId := action.identifier;
    var wkDef := Get(wk, actionId);
    var wkParams := WorkflowKitParams(wkDef);
    var output := if wkDef.Some? then wkDef.value.output else None;
    var aiDef := AppIntentFor(action.parameters, ai);
    var aiParams := AppIntentParams(aiDef);

    var apiParams: map<string, Parameter> := map[];
    var pathMap: map<string, Path> := map[];
    var es := action.parameters.GetOr([]);
    var k := 0;
    while k < |es|
      invariant k <= |es|
      invariant Tables(apiParams, pathMap) == ParametersUpTo(es, k, wkParams, aiParams)
    {
      var (paramId, param) := es[k];
      var wkParamDef, aiParamDef := Get(wkParams, paramId), Get(aiParams, paramId);
      var description := ParamDescription(wkParamDef, aiParamDef, paramId);
      var required := ParamRequired(wkParamDef, aiParamDef);
      var refs := GetVariableReferences(param, []);
      assert ParametersUpTo(es, k + 1, wkParams, aiParams)
             == AddParameter(ParametersUpTo(es, k, wkParams, aiParams), paramId, param, wkParams, aiParams);
      if |refs| > 0 {
        apiParams, pathMap := NameReferences(apiParams, pathMap, paramId, refs, Parameter(required, description, StringType));
      }
      k := k + 1;
    }
    spec := ToolSpec(
      Definition(actionId, ActionDescription(wkDef, aiDef, actionId) + ReturnsSuffix(output), apiParams, StringType),
      None,
      ShortcutToolMetadata(pathMap, action));
  }

  /**
   * Records every reference of one parameter under its name: the loop over
   * the reference paths after the common prefix and suffix are known.
   */
  method NameReferences(apiParams: map<string, Parameter>, pathMap: map<string, Path>,
                        paramId: string, refs: seq<Path>, parameter: Parameter)
      returns (apiParams': map<string, Parameter>, pathMap': map<string, Path>)
    requires |refs| > 0
    ensures Tables(apiParams', pathMap') == RecordNames(Tables(apiParams, pathMap), paramId, refs, ReferenceNames(paramId, refs), |refs|, parameter)
  {
    var prefix := CommonPathPrefix(refs);
    var suffix := CommonPathSuffix(refs);
    assert FitsAll(refs, |prefix|, |suffix|);
    apiParams', pathMap' := RecordReferences(apiParams, pathMap, paramId, refs, parameter, prefix, suffix);
  }

  /**
   * The loop of `nameReferences`: each reference, stripped of `prefix` and
   * `suffix`, names a string parameter and is recorded as its path.
   */
  method RecordReferences(apiParams: map<string, Parameter>, pathMap: map<string, Path>,
                          paramId: string, refs: seq<Path>, parameter: Parameter, prefix: Path, suffix: Path)
      returns (apiParams': map<string, Parameter>, pathMap': map<string, Path>)
    requires |refs| > 0 && FitsAll(refs, |prefix|, |suffix|)
    ensures Tables(apiParams', pathMap') == RecordNames(Tables(apiParams, pathMap), paramId, refs, NamesWith(paramId, refs, |prefix|, |suffix|), |refs|, parameter)
  {
    ghost var names := NamesWith(paramId, refs, |prefix|, |suffix|);
    apiParams', pathMap' := apiParams, pathMap;
    var j := 0;
    while j < |refs|
      invariant j <= |refs|
      invariant Tables(apiParams', pathMap') == RecordNames(Tables(apiParams, pathMap), paramId, refs, names, j, parameter)
    {
      var path := refs[j];
      var variableName := paramId;
      if |refs| > 1 {
        variableName := Join(Slice(path, |prefix|, |path| - |suffix|), ".");
      }
      assert variableName == names[j];
      ghost var prev := RecordNames(Tables(apiParams, pathMap), paramId, refs, names, j, parameter);
      assert RecordNames(Tables(apiParams, pathMap), paramId, refs, names, j + 1, parameter)
             == Tables(prev.apiParams[variableName := parameter], prev.paths[variableName := [paramId] + path]);
      apiParams' := apiParams'[variableName := parameter];
      pathMap' := pathMap'[variableName := [paramId] + path];
      j := j + 1;
    }
  }

  /** The common path prefix, pushed one segment at a time. */
  method CommonPathPrefix(refs: seq<Path>) returns (prefix: Path)
    requires |refs| > 0
    ensures |prefix| == CommonPrefixLength(refs) && prefix == refs[0][..CommonPrefixLength(refs)]
  {
    var minLength := MinLength(refs);
    prefix := [];
    var i := 0;
    while i < minLength && AgreeAt(refs, i)
      invariant i <= minLength
      invariant prefix == refs[0][..i]
      invariant CommonPrefixFrom(refs, i) == CommonPrefixLength(refs)
    {
      prefix := prefix + [refs[0][i]];
      i := i + 1;
    }
  }

  /** The common path suffix, each segment put in front (`unshift`). */
  method CommonPathSuffix(refs: seq<Path>) returns (suffix: Path)
    requires |refs| > 0
    ensures |suffix| == CommonSuffixLength(refs) && suffix == refs[0][|refs[0]| - CommonSuffixLength(refs)..]
  {
    var minLength := MinLength(refs);
    suffix := [];
    var i := 0;
    while i < minLength && AgreeFromEnd(refs, i)
      invariant i <= minLength
      invariant suffix == refs[0][|refs[0]| - i..]
      invariant CommonSuffixFrom(refs, i) == CommonSuffixLength(refs)
    {
      suffix := [refs[0][|refs[0]| - 1 - i]] + suffix;
      i := i + 1;
    }
  }

  // ---------------------------------------------------------------------
  // What the tables hold
  // ---------------------------------------------------------------------

  /** Both tables have the same names, and every API parameter is a string. */
  predicate Consistent(t: Tables) {
    && t.apiParams.Keys == t.paths.Keys
    && forall name :: name in t.apiParams ==> t.apiParams[name].paramType == StringType
  }

  lemma {:induction false} RecordNamesConsistent(t: Tables, paramId: string, refs: seq<Path>, names: seq<string>, k: nat, parameter: Parameter)
    requires |names| == |refs| && k <= |refs|
    requires Consistent(t) && parameter.paramType == StringType
    ensures Consistent(RecordNames(t, paramId, refs, names, k, parameter))
    decreases k
  {
    if k > 0 {
      RecordNamesConsistent(t, paramId, refs, names, k - 1, parameter);
    }
  }

  lemma {:induction false} ParametersUpToConsistent(es: Entries, k: nat,
                                                    wkParams: map<string, ParameterDefinition>,
                                                    aiParams: map<string, AppIntentParameterDefinition>)
    requires k <= |es|
    ensures Consistent(ParametersUpTo(es, k, wkParams, aiParams))
    decreases k
  {
    if k > 0 {
      ParametersUpToConsistent(es, k - 1, wkParams, aiParams);
      var refs := References(es[k - 1].1, []);
      if |refs| > 0 {
        var wkDef, aiDef := Get(wkParams, es[k - 1].0), Get(aiParams, es[k - 1].0);
        RecordNamesConsistent(ParametersUpTo(es, k - 1, wkParams, aiParams), es[k - 1].0, refs, ReferenceNames(es[k - 1].0, refs), |refs|,
                              Parameter(ParamRequired(wkDef, aiDef), ParamDescription(wkDef, aiDef, es[k - 1].0), StringType));
      }
    }
  }

  /**
   * Every API parameter of a spec has a template path under the same name
   * and back, and every API parameter is typed as a string.
   */
  lemma SpecParametersMatchPaths(action: Action, wk: WorkflowKitActions, ai: AppIntentActions)
    ensures var spec := SpecOf(action, wk, ai);
            && spec.definition.parameters.Keys == spec.metadata.parameterIdToTemplatePath.Keys
            && forall name :: name in spec.definition.parameters ==> spec.definition.parameters[name].paramType == StringType
  {
    var es := action.parameters.GetOr([]);
    var wkDef := Get(wk, action.identifier);
    var aiDef := AppIntentFor(action.parameters, ai);
    ParametersUpToConsistent(es, |es|, WorkflowKitParams(wkDef), AppIntentParams(aiDef));
  }

  /**
   * A later reference overwrites an earlier one of the same name: the name
   * of reference `j` maps to its own path when no later reference takes
   * the same name.
   */
  lemma {:induction false} RecordNamesLastWins(t: Tables, paramId: string, refs: seq<Path>, names: seq<string>, k: nat, parameter: Parameter, j: nat)
    requires |names| == |refs| && j < k <= |refs|
    requires forall i :: j < i < k ==> names[i] != names[j]
    ensures var r := RecordNames(t, paramId, refs, names, k, parameter);
            && names[j] in r.paths && r.paths[names[j]] == [paramId] + refs[j]
            && names[j] in r.apiParams && r.apiParams[names[j]] == parameter
    decreases k
  {
    if j < k - 1 {
      RecordNamesLastWins(t, paramId, refs, names, k - 1, parameter, j);
    }
  }

  /** Names recorded for a parameter are its references' names; other entries are untouched. */
  lemma {:induction false} RecordNamesOnlyNames(t: Tables, paramId: string, refs: seq<Path>, names: seq<string>, k: nat, parameter: Parameter, name: string)
    requires |names| == |refs| && k <= |refs|
    requires forall j :: 0 <= j < k ==> names[j] != name
    ensures var r := RecordNames(t, paramId, refs, names, k, parameter);
            && (name in r.paths <==> name in t.paths) && (name in t.paths ==> r.paths[name] == t.paths[name])
            && (name in r.apiParams <==> name in t.apiParams) && (name in t.apiParams ==> r.apiParams[name] == t.apiParams[name])
    decreases k
  {
    if k > 0 {
      RecordNamesOnlyNames(t, paramId, refs, names, k - 1, parameter, name);
    }
  }

  /**
   * One top-level parameter with at most one reference: without references
   * it adds nothing; a single reference is recorded under the parameter's
   * own id.
   */
  lemma AtMostOneReference(t: Tables, paramId: string, param: Node,
                           wkParams: map<string, ParameterDefinition>,
                           aiParams: map<string, AppIntentParameterDefinition>)
    requires |References(param, [])| <= 1
    ensures var next, refs := AddParameter(t, paramId, param, wkParams, aiParams), References(param, []);
            var wkDef, aiDef := Get(wkParams, paramId), Get(aiParams, paramId);
            var parameter := Parameter(ParamRequired(wkDef, aiDef), ParamDescription(wkDef, aiDef, paramId), StringType);
            && (|refs| == 0 ==> next == t)
            && (|refs| == 1 ==> next == Tables(t.apiParams[paramId := parameter], t.paths[paramId := [paramId] + refs[0]]))
  {
    var refs := References(param, []);
    if |refs| == 1 {
      assert ReferenceNames(paramId, refs)[0] == paramId;
    }
  }

  /**
   * One top-level parameter with several references: each reference is
   * recorded under its name (`ReferenceNamesAt`), unless a later reference
   * takes the same name.
   */
  lemma SeveralReferences(t: Tables, paramId: string, param: Node,
                          wkParams: map<string, ParameterDefinition>,
                          aiParams: map<string, AppIntentParameterDefinition>)
    requires |References(param, [])| > 1
    ensures var next, refs := AddParameter(t, paramId, param, wkParams, aiParams), References(param, []);
            var wkDef, aiDef := Get(wkParams, paramId), Get(aiParams, paramId);
            var parameter := Parameter(ParamRequired(wkDef, aiDef), ParamDescription(wkDef, aiDef, paramId), StringType);
            var names := ReferenceNames(paramId, refs);
            forall j :: 0 <= j < |refs| && (forall i :: j < i < |refs| ==> names[i] != names[j])
                        ==> && names[j] in next.paths && names[j] in next.apiParams
                            && next.paths[names[j]] == [paramId] + refs[j]
                            && next.apiParams[names[j]] == parameter
  {
    var refs := References(param, []);
    var wkDef, aiDef := Get(wkParams, paramId), Get(aiParams, paramId);
    var parameter := Parameter(ParamRequired(wkDef, aiDef), ParamDescription(wkDef, aiDef, paramId), StringType);
    var names := ReferenceNames(paramId, refs);
    forall j | 0 <= j < |refs| && (forall i :: j < i < |refs| ==> names[i] != names[j])
      ensures var next := RecordNames(t, paramId, refs, names, |refs|, parameter);
              && names[j] in next.paths && names[j] in next.apiParams
              && next.paths[names[j]] == [paramId] + refs[j]
              && next.apiParams[names[j]] == parameter
    {
      RecordNamesLastWins(t, paramId, refs, names, |refs|, parameter, j);
    }
  }

  // ---------------------------------------------------------------------
  // Recorded paths lead to references
  // ---------------------------------------------------------------------

  /** `p` leads from `root` to a variable reference. */
  predicate PathLeadsToReference(root: Node, p: Path) {
    Resolve(root, p).Some? && IsReferenceLeaf(Resolve(root, p).value)
  }

  /** Every path in the table leads from `root` to a variable reference. */
  predicate PathsLeadToReferences(paths: map<string, Path>, root: Node) {
    forall name :: name in paths ==> PathLeadsToReference(root, paths[name])
  }

  /** The path of every reference of a top-level parameter leads from the parameters to that reference. */
  lemma ReferencePathResolves(es: Entries, k: nat, q: Path)
    requires WellFormed(Obj(es)) && k < |es|
    requires q in References(es[k].1, [])
    ensures PathLeadsToReference(Obj(es), [es[k].0] + q)
  {
    ReferencesSound(es[k].1, [], q);
    assert q[0..] == q;
    var p := [es[k].0] + q;
    assert p[1..] == q;
    ResolveEntry(es, k, p);
  }

  lemma {:induction false} RecordNamesLeadToReferences(t: Tables, root: Node, paramId: string, refs: seq<Path>,
                                                       names: seq<string>, m: nat, parameter: Parameter)
    requires |names| == |refs| && m <= |refs|
    requires PathsLeadToReferences(t.paths, root)
    requires forall i :: 0 <= i < |refs| ==> PathLeadsToReference(root, [paramId] + refs[i])
    ensures PathsLeadToReferences(RecordNames(t, paramId, refs, names, m, parameter).paths, root)
    decreases m
  {
    if m > 0 {
      RecordNamesLeadToReferences(t, root, paramId, refs, names, m - 1, parameter);
      assert PathLeadsToReference(root, [paramId] + refs[m - 1]);
    }
  }

  lemma {:induction false} ParametersUpToLeadToReferences(es: Entries, k: nat,
                                                          wkParams: map<string, ParameterDefinition>,
                                                          aiParams: map<string, AppIntentParameterDefinition>)
    requires WellFormed(Obj(es)) && k <= |es|
    ensures PathsLeadToReferences(ParametersUpTo(es, k, wkParams, aiParams).paths, Obj(es))
    decreases k
  {
    if k > 0 {
      ParametersUpToLeadToReferences(es, k - 1, wkParams, aiParams);
      var paramId, refs := es[k - 1].0, References(es[k - 1].1, []);
      if |refs| > 0 {
        forall i | 0 <= i < |refs|
          ensures PathLeadsToReference(Obj(es), [paramId] + refs[i])
        {
          ReferencePathResolves(es, k - 1, refs[i]);
        }
        var wkDef, aiDef := Get(wkParams, paramId), Get(aiParams, paramId);
        RecordNamesLeadToReferences(ParametersUpTo(es, k - 1, wkParams, aiParams), Obj(es), paramId, refs, ReferenceNames(paramId, refs), |refs|,
                                    Parameter(ParamRequired(wkDef, aiDef), ParamDescription(wkDef, aiDef, paramId), StringType));
      }
    }
  }

  /** The parameters of an action as one object (`?? {}`). */
  function ParametersNode(action: Action): (r: Node)
  {
    Obj(action.parameters.GetOr([]))
  }

  /**
   * Every template path of a spec leads, inside the action's parameters, to
   * a variable reference, so filling it in with a variable id succeeds and
   * writes the id into that reference.
   */
  lemma SpecPathsLeadToReferences(action: Action, wk: WorkflowKitActions, ai: AppIntentActions, name: string, variableId: string)
    requires WellFormed(ParametersNode(action))
    requires name in SpecOf(action, wk, ai).metadata.parameterIdToTemplatePath
    ensures var path := SpecOf(action, wk, ai).metadata.parameterIdToTemplatePath[name];
            var leaf := Resolve(ParametersNode(action), path);
            && leaf.Some? && IsReferenceLeaf(leaf.value)
            && Apply(ParametersNode(action), path, variableId).Ok?
            && Resolve(Apply(ParametersNode(action), path, variableId).value, path) == Some(FillHole(leaf.value, variableId))
  {
    var es := action.parameters.GetOr([]);
    var wkDef := Get(wk, action.identifier);
    var aiDef := AppIntentFor(action.parameters, ai);
    ParametersUpToLeadToReferences(es, |es|, WorkflowKitParams(wkDef), AppIntentParams(aiDef));
    ApplyAtResolvable(ParametersNode(action), SpecOf(action, wk, ai).metadata.parameterIdToTemplatePath[name], variableId);
  }

  // ---------------------------------------------------------------------
  // The endpoint
  // ---------------------------------------------------------------------

  /**
   * The endpoint description is the action description followed by the
   * output line, present exactly when WorkflowKit defines an output.
   */
  lemma SpecDescription(action: Action, wk: WorkflowKitActions, ai: AppIntentActions)
    ensures var spec := SpecOf(action, wk, ai);
            var actionDescription := ActionDescription(Get(wk, action.identifier), AppIntentFor(action.parameters, ai), action.identifier);
            && |actionDescription| <= |spec.definition.description|
            && spec.definition.description[..|actionDescription|] == actionDescription
            && (spec.definition.description == actionDescription <==>
                  action.identifier !in wk || wk[action.identifier].output.None?)
  {
    var spec := SpecOf(action, wk, ai);
    var wkDef := Get(wk, action.identifier);
    var actionDescription := ActionDescription(wkDef, AppIntentFor(action.parameters, ai), action.identifier);
    var output := if wkDef.Some? then wkDef.value.output else None;
    assert spec.definition.description == actionDescription + ReturnsSuffix(output);
    assert (actionDescription + ReturnsSuffix(output))[..|actionDescription|] == actionDescription;
  }

  /**
   * An action neither catalogue knows is described by its identifier, and
   * each of its API parameters is required and described by the id of the
   * top-level parameter it comes from.
   */
  lemma UncataloguedAction(action: Action, ai: AppIntentActions)
    requires AppIntentFor(action.parameters, ai).None?
    ensures var spec := SpecOf(action, map[], ai);
            && spec.definition.description == action.identifier
            && forall name :: name in spec.definition.parameters ==>
                 && spec.definition.parameters[name].required
                 && name in spec.metadata.parameterIdToTemplatePath
                 && |spec.metadata.parameterIdToTemplatePath[name]| > 0
                 && spec.definition.parameters[name].description == spec.metadata.parameterIdToTemplatePath[name][0]
  {
    UndescribedAction(action.identifier);
    SpecDescription(action, map[], ai);
    SpecParametersMatchPaths(action, map[], ai);
    var es := action.parameters.GetOr([]);
    UncataloguedParameters(es, |es|);
  }

  /** Without definitions every recorded parameter is required and described by its top-level id. */
  predicate DescribedByOrigin(t: Tables) {
    forall name :: name in t.apiParams && name in t.paths ==>
      && t.apiParams[name].required
      && |t.paths[name]| > 0
      && t.apiParams[name].description == t.paths[name][0]
  }

  lemma {:induction false} UncataloguedParameters(es: Entries, k: nat)
    requires k <= |es|
    ensures DescribedByOrigin(ParametersUpTo(es, k, map[], map[]))
    decreases k
  {
    if k > 0 {
      UncataloguedParameters(es, k - 1);
      var paramId := es[k - 1].0;
      var refs := References(es[k - 1].1, []);
      if |refs| > 0 {
        UndefinedParameter(paramId);
        RecordNamesDescribedByOrigin(ParametersUpTo(es, k - 1, map[], map[]), paramId, refs, ReferenceNames(paramId, refs), |refs|);
      }
    }
  }

  lemma {:induction false} RecordNamesDescribedByOrigin(t: Tables, paramId: string, refs: seq<Path>, names: seq<string>, k: nat)
    requires |names| == |refs| && k <= |refs| && DescribedByOrigin(t)
    ensures DescribedByOrigin(RecordNames(t, paramId, refs, names, k, Parameter(true, paramId, StringType)))
    decreases k
  {
    if k > 0 {
      RecordNamesDescribedByOrigin(t, paramId, refs, names, k - 1);
    }
  }
}
