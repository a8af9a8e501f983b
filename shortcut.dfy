/**
 * The `.shortcut` file format: actions and the workflow that holds them
 * (integration/shortcuts/lib/base.ts). Every workflow field except the
 * action list is pinned to a fixed default, both when a workflow is built
 * and when one is read back through the workflow schema.
 */
module Shortcut {
  import opened Wrappers
  import opened Json

  /** An action: its identifier and an optional string-keyed parameter mapping. */
  datatype Action = Action(identifier: string, parameters: Option<Entries>)

  /** The reason a tree does not fit a schema: the field that failed. */
  datatype SchemaError = SchemaError(field: string)

  const IdentifierKey := "WFWorkflowActionIdentifier"
  const ParametersKey := "WFWorkflowActionParameters"

  /** The tree form of an action, as it appears in a workflow file. */
  function ActionToNode(a: Action): Node {
    Obj([(IdentifierKey, Str(a.identifier))]
        + match a.parameters
          case Some(ps) => [(ParametersKey, Obj(ps))]
          case None => [])
  }

  /**
   * The action schema: a string identifier and, when present, a mapping of
   * parameters; other keys are dropped.
   */
  function ParseAction(n: Node): (r: Result<Action, SchemaError>)
    ensures r.Ok? ==> n.Obj? && Lookup(n.entries, IdentifierKey) == Some(Str(r.value.identifier))
    ensures r.Ok? && r.value.parameters.None? ==> !HasKey(n.entries, ParametersKey)
    ensures r.Ok? && r.value.parameters.Some? ==>
              Lookup(n.entries, ParametersKey) == Some(Obj(r.value.parameters.value))
  {
    match n
    case Obj(es) =>
      (match Lookup(es, IdentifierKey)
       case Some(Str(id)) =>
         (match Lookup(es, ParametersKey)
          case None => Ok(Action(id, None))
          case Some(Obj(ps)) => Ok(Action(id, Some(ps)))
          case Some(_) => Err(SchemaError(ParametersKey)))
       case _ => Err(SchemaError(IdentifierKey)))
    case _ => Err(SchemaError(IdentifierKey))
  }

  /** Reading an action back from its tree form gives the same action. */
  lemma ParseActionOfActionToNode(a: Action)
    ensures ParseAction(ActionToNode(a)) == Ok(a)
  {
    var es := ActionToNode(a).entries;
    LookupAt(es, 0);
    if a.parameters.Some? {
      LookupAt(es, 1);
    } else {
      assert |es| == 1;
    }
  }

  /** The workflow icon. */
  datatype Icon = Icon(startColor: int, glyphNumber: int)

  /** A workflow: the fields a `.shortcut` file carries. */
  datatype Workflow = Workflow(
    clientVersion: string,
    minimumClientVersion: int,
    icon: Icon,
    quickActionSurfaces: seq<string>,
    importQuestions: seq<string>,
    inputContentItemClasses: seq<string>,
    outputContentItemClasses: seq<string>,
    hasOutputFallback: bool,
    actions: seq<Action>)

  /** `workflowDefaults`. */
  const WorkflowDefaults: Workflow := Workflow(
    "2038.0.2.4",
    900,
    Icon(-2873601, 61440),
    [""],
    [],
    ["WFAppContentItem", "WFStringContentItem"],
    ["WFAppContentItem", "WFStringContentItem"],
    false,
    [])

  /** `createWorkflow`: the defaults with the given actions. */
  function CreateWorkflow(actions: seq<Action>): Workflow {
    WorkflowDefaults.(actions := actions)
  }

  /** Only the action list of a created workflow depends on the actions. */
  lemma CreateWorkflowFields(actions: seq<Action>)
    ensures CreateWorkflow(actions).actions == actions
    ensures CreateWorkflow(actions).clientVersion == "2038.0.2.4"
    ensures CreateWorkflow(actions).minimumClientVersion == 900
    ensures CreateWorkflow(actions).icon == Icon(-2873601, 61440)
    ensures CreateWorkflow(actions).quickActionSurfaces == [""]
    ensures CreateWorkflow(actions).importQuestions == []
    ensures CreateWorkflow(actions).inputContentItemClasses == ["WFAppContentItem", "WFStringContentItem"]
    ensures CreateWorkflow(actions).outputContentItemClasses == ["WFAppContentItem", "WFStringContentItem"]
    ensures !CreateWorkflow(actions).hasOutputFallback
    ensures forall other: seq<Action> ::
              CreateWorkflow(other).(actions := actions) == CreateWorkflow(actions)
  {
  }

  function StringsToNode(ss: seq<string>): (r: Node)
    ensures r.Arr? && |r.items| == |ss|
    ensures forall i :: 0 <= i < |ss| ==> r.items[i] == Str(ss[i])
  {
    Arr(seq(|ss|, i requires 0 <= i < |ss| => Str(ss[i])))
  }

  function ActionsToNode(actions: seq<Action>): (r: Node)
    ensures r.Arr? && |r.items| == |actions|
    ensures forall i :: 0 <= i < |actions| ==> r.items[i] == ActionToNode(actions[i])
  {
    Arr(seq(|actions|, i requires 0 <= i < |actions| => ActionToNode(actions[i])))
  }

  /** The tree form of a workflow, with the keys in the order of `workflowDefaults`. */
  function WorkflowToNode(w: Workflow): Node {
    Obj(WorkflowFields(
      Str(w.clientVersion),
      Num(w.minimumClientVersion),
      Obj([
        ("WFWorkflowIconStartColor", Num(w.icon.startColor)),
        ("WFWorkflowIconGlyphNumber", Num(w.icon.glyphNumber))]),
      StringsToNode(w.quickActionSurfaces),
      StringsToNode(w.importQuestions),
      StringsToNode(w.inputContentItemClasses),
      StringsToNode(w.outputContentItemClasses),
      Bool(w.hasOutputFallback),
      ActionsToNode(w.actions)))
  }

  /** The nine top-level fields of a workflow, in the order the source writes them. */
  function WorkflowFields(clientVersion: Node, minimumClientVersion: Node, icon: Node,
                          quickActionSurfaces: Node, importQuestions: Node,
                          inputClasses: Node, outputClasses: Node,
                          hasOutputFallback: Node, actions: Node): Entries {
    [("WFWorkflowClientVersion", clientVersion),
     ("WFWorkflowMinimumClientVersion", minimumClientVersion),
     ("WFWorkflowIcon", icon),
     ("WFQuickActionSurfaces", quickActionSurfaces),
     ("WFWorkflowImportQuestions", importQuestions),
     ("WFWorkflowInputContentItemClasses", inputClasses),
     ("WFWorkflowOutputContentItemClasses", outputClasses),
     ("WFWorkflowHasOutputFallback", hasOutputFallback),
     ("WFWorkflowActions", actions)]
  }

  predicate IsStr(n: Option<Node>) {
    n.Some? && n.value.Str?
  }

  predicate IsNum(n: Option<Node>) {
    n.Some? && n.value.Num?
  }

  /** `z.array(z.string())`. */
  predicate IsStringArray(n: Option<Node>) {
    n.Some? && n.value.Arr? && forall i :: 0 <= i < |n.value.items| ==> n.value.items[i].Str?
  }

  /** `z.array(actionSchema)`: every element must parse. */
  function ParseActions(xs: seq<Node>): (r: Result<seq<Action>, SchemaError>)
    ensures r.Ok? ==> |r.value| == |xs|
                      && forall i :: 0 <= i < |xs| ==> ParseAction(xs[i]) == Ok(r.value[i])
    ensures r.Err? ==> exists i :: 0 <= i < |xs| && ParseAction(xs[i]).Err?
    decreases |xs|
  {
    if xs == [] then Ok([])
    else
      match ParseAction(xs[0])
      case Err(e) => Err(e)
      case Ok(a) =>
        match ParseActions(xs[1..])
        case Err(e) =>
          assert exists i :: 1 <= i < |xs| && ParseAction(xs[i]).Err? by {
            var j :| 0 <= j < |xs[1..]| && ParseAction(xs[1..][j]).Err?;
            assert xs[1..][j] == xs[j + 1];
          }
          Err(e)
        case Ok(rest) => Ok([a] + rest)
  }

  /**
   * `workflowSchema`: checks the type of every field and then replaces each
   * field other than the actions by its default. Unknown keys are dropped.
   */
  function ParseWorkflow(n: Node): Result<Workflow, SchemaError> {
    if !n.Obj? then Err(SchemaError("workflow"))
    else
      var es := n.entries;
      if !IsStr(Lookup(es, "WFWorkflowClientVersion")) then Err(SchemaError("WFWorkflowClientVersion"))
      else if !IsNum(Lookup(es, "WFWorkflowMinimumClientVersion")) then Err(SchemaError("WFWorkflowMinimumClientVersion"))
      else if !(var icon := Lookup(es, "WFWorkflowIcon");
                icon.Some? && icon.value.Obj?
                && IsNum(Lookup(icon.value.entries, "WFWorkflowIconStartColor"))
                && IsNum(Lookup(icon.value.entries, "WFWorkflowIconGlyphNumber")))
      then Err(SchemaError("WFWorkflowIcon"))
      else if !IsStringArray(Lookup(es, "WFQuickActionSurfaces")) then Err(SchemaError("WFQuickActionSurfaces"))
      else if !IsStringArray(Lookup(es, "WFWorkflowImportQuestions")) then Err(SchemaError("WFWorkflowImportQuestions"))
      else if !IsStringArray(Lookup(es, "WFWorkflowInputContentItemClasses")) then Err(SchemaError("WFWorkflowInputContentItemClasses"))
      else if !IsStringArray(Lookup(es, "WFWorkflowOutputContentItemClasses")) then Err(SchemaError("WFWorkflowOutputContentItemClasses"))
      else if !(var f := Lookup(es, "WFWorkflowHasOutputFallback"); f.Some? && f.value.Bool?)
      then Err(SchemaError("WFWorkflowHasOutputFallback"))
      else
        match Lookup(es, "WFWorkflowActions")
        case Some(Arr(xs)) =>
          (match ParseActions(xs)
           case Ok(actions) => Ok(CreateWorkflow(actions))
           case Err(e) => Err(e))
        case _ => Err(SchemaError("WFWorkflowActions"))
  }

  /**
   * Whatever values the other fields held, a parsed workflow carries the
   * defaults in them and exactly the parsed actions of the input.
   */
  lemma ParseWorkflowNormalises(n: Node, w: Workflow)
    requires ParseWorkflow(n) == Ok(w)
    ensures w == CreateWorkflow(w.actions)
    ensures n.Obj? && Lookup(n.entries, "WFWorkflowActions").Some?
    ensures var xs := Lookup(n.entries, "WFWorkflowActions").value;
            xs.Arr? && |xs.items| == |w.actions|
            && forall i :: 0 <= i < |w.actions| ==> ParseAction(xs.items[i]) == Ok(w.actions[i])
  {
  }

  lemma {:induction false} ParseActionsOfActionsToNode(actions: seq<Action>)
    ensures ParseActions(ActionsToNode(actions).items) == Ok(actions)
    decreases |actions|
  {
    var xs := ActionsToNode(actions).items;
    if actions != [] {
      ParseActionOfActionToNode(actions[0]);
      assert xs[1..] == ActionsToNode(actions[1..]).items;
      ParseActionsOfActionsToNode(actions[1..]);
      assert [actions[0]] + actions[1..] == actions;
    }
  }

  /** Each field of the nine-field literal is found under its key. */
  lemma WorkflowFieldsLookups(clientVersion: Node, minimumClientVersion: Node, icon: Node,
                              quickActionSurfaces: Node, importQuestions: Node,
                              inputClasses: Node, outputClasses: Node,
                              hasOutputFallback: Node, actions: Node)
    ensures var es := WorkflowFields(clientVersion, minimumClientVersion, icon, quickActionSurfaces, importQuestions,
                                     inputClasses, outputClasses, hasOutputFallback, actions);
            && Lookup(es, "WFWorkflowClientVersion") == Some(es[0].1)
            && Lookup(es, "WFWorkflowMinimumClientVersion") == Some(es[1].1)
            && Lookup(es, "WFWorkflowIcon") == Some(es[2].1)
            && Lookup(es, "WFQuickActionSurfaces") == Some(es[3].1)
            && Lookup(es, "WFWorkflowImportQuestions") == Some(es[4].1)
            && Lookup(es, "WFWorkflowInputContentItemClasses") == Some(es[5].1)
            && Lookup(es, "WFWorkflowOutputContentItemClasses") == Some(es[6].1)
            && Lookup(es, "WFWorkflowHasOutputFallback") == Some(es[7].1)
            && Lookup(es, "WFWorkflowActions") == Some(es[8].1)
  {
    var es := WorkflowFields(clientVersion, minimumClientVersion, icon, quickActionSurfaces, importQuestions,
                             inputClasses, outputClasses, hasOutputFallback, actions);
    assert forall i, j :: 0 <= i < j < |es| ==> |es[i].0| != |es[j].0|;
    LookupAt(es, 0);
    LookupAt(es, 1);
    LookupAt(es, 2);
    LookupAt(es, 3);
    LookupAt(es, 4);
    LookupAt(es, 5);
    LookupAt(es, 6);
    LookupAt(es, 7);
    LookupAt(es, 8);
  }

  /** A mapping whose fields have the schema's types parses to the defaults and its actions. */
  lemma ParseWorkflowOfValidFields(es: Entries, xs: seq<Node>, actions: seq<Action>)
    requires IsStr(Lookup(es, "WFWorkflowClientVersion"))
    requires IsNum(Lookup(es, "WFWorkflowMinimumClientVersion"))
    requires var icon := Lookup(es, "WFWorkflowIcon");
             icon.Some? && icon.value.Obj?
             && IsNum(Lookup(icon.value.entries, "WFWorkflowIconStartColor"))
             && IsNum(Lookup(icon.value.entries, "WFWorkflowIconGlyphNumber"))
    requires IsStringArray(Lookup(es, "WFQuickActionSurfaces"))
    requires IsStringArray(Lookup(es, "WFWorkflowImportQuestions"))
    requires IsStringArray(Lookup(es, "WFWorkflowInputContentItemClasses"))
    requires IsStringArray(Lookup(es, "WFWorkflowOutputContentItemClasses"))
    requires var f := Lookup(es, "WFWorkflowHasOutputFallback"); f.Some? && f.value.Bool?
    requires Lookup(es, "WFWorkflowActions") == Some(Arr(xs))
    requires ParseActions(xs) == Ok(actions)
    ensures ParseWorkflow(Obj(es)) == Ok(CreateWorkflow(actions))
  {
  }

  /** The nine fields in source order, each of the schema's type, parse to `createWorkflow` of the actions. */
  lemma WorkflowFieldsParse(clientVersion: Node, minimumClientVersion: Node, icon: Node,
                            quickActionSurfaces: Node, importQuestions: Node,
                            inputClasses: Node, outputClasses: Node,
                            hasOutputFallback: Node, xs: seq<Node>, actions: seq<Action>)
    requires clientVersion.Str? && minimumClientVersion.Num? && hasOutputFallback.Bool?
    requires icon.Obj? && IsNum(Lookup(icon.entries, "WFWorkflowIconStartColor"))
             && IsNum(Lookup(icon.entries, "WFWorkflowIconGlyphNumber"))
    requires IsStringArray(Some(quickActionSurfaces)) && IsStringArray(Some(importQuestions))
    requires IsStringArray(Some(inputClasses)) && IsStringArray(Some(outputClasses))
    requires ParseActions(xs) == Ok(actions)
    ensures ParseWorkflow(Obj(WorkflowFields(clientVersion, minimumClientVersion, icon, quickActionSurfaces,
                                             importQuestions, inputClasses, outputClasses, hasOutputFallback,
                                             Arr(xs)))) == Ok(CreateWorkflow(actions))
  {
    WorkflowFieldsLookups(clientVersion, minimumClientVersion, icon, quickActionSurfaces, importQuestions,
                          inputClasses, outputClasses, hasOutputFallback, Arr(xs));
    ParseWorkflowOfValidFields(WorkflowFields(clientVersion, minimumClientVersion, icon, quickActionSurfaces,
                                              importQuestions, inputClasses, outputClasses, hasOutputFallback,
                                              Arr(xs)), xs, actions);
  }

  /** The tree form of any workflow passes the schema and parses to the defaults with its own actions. */
  lemma WorkflowToNodeParses(w: Workflow)
    ensures ParseWorkflow(WorkflowToNode(w)) == Ok(CreateWorkflow(w.actions))
  {
    var icon := [("WFWorkflowIconStartColor", Num(w.icon.startColor)),
                 ("WFWorkflowIconGlyphNumber", Num(w.icon.glyphNumber))];
    assert |icon[0].0| != |icon[1].0|;
    LookupAt(icon, 0);
    LookupAt(icon, 1);
    ParseActionsOfActionsToNode(w.actions);
    WorkflowFieldsParse(Str(w.clientVersion), Num(w.minimumClientVersion), Obj(icon),
                        StringsToNode(w.quickActionSurfaces), StringsToNode(w.importQuestions),
                        StringsToNode(w.inputContentItemClasses), StringsToNode(w.outputContentItemClasses),
                        Bool(w.hasOutputFallback), ActionsToNode(w.actions).items, w.actions);
  }

  /** A created workflow is a fixed point of normalisation. */
  lemma CreateWorkflowIsNormal(actions: seq<Action>)
    ensures ParseWorkflow(WorkflowToNode(CreateWorkflow(actions))) == Ok(CreateWorkflow(actions))
  {
    WorkflowToNodeParses(CreateWorkflow(actions));
  }

  /** Normalising twice is normalising once. */
  lemma ParseWorkflowIdempotent(n: Node, w: Workflow)
    requires ParseWorkflow(n) == Ok(w)
    ensures ParseWorkflow(WorkflowToNode(w)) == Ok(w)
  {
    ParseWorkflowNormalises(n, w);
    CreateWorkflowIsNormal(w.actions);
  }
}
