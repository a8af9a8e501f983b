/**
 * Builders for the logical actions the toolbox composes into workflows
 * (`ActionTemplate` in integration/shortcuts/lib/template.ts), the constant
 * dictionary action with its decoder, and the test for known action kinds.
 * Fresh identifiers (`Shortcut.getUUID`) are passed in as parameters.
 */
module ActionTemplate {
  import opened Wrappers
  import opened Json
  import opened Shortcut
  import opened VariableTemplate

  const CommentIdentifier := "is.workflow.actions.comment"
  const DictionaryInputIdentifier := "is.workflow.actions.detect.dictionary"
  const DictionaryValueIdentifier := "is.workflow.actions.getvalueforkey"
  const ConditionalIdentifier := "is.workflow.actions.conditional"
  const SetVariableIdentifier := "is.workflow.actions.setvariable"
  const FileSaveIdentifier := "is.workflow.actions.documentpicker.save"
  const EncodeBase64Identifier := "is.workflow.actions.base64encode"
  const ExitIdentifier := "is.workflow.actions.exit"
  const OutputIdentifier := "is.workflow.actions.output"
  const DictionaryIdentifier := "is.workflow.actions.dictionary"

  /**
   * The identifiers of the eleven logical action schemas, in the order of
   * their union; the conditional identifier is shared by the "if" and the
   * "end if" schema.
   */
  const KnownLogicalActionIdentifiers: seq<string> := [
    CommentIdentifier,
    DictionaryInputIdentifier,
    DictionaryValueIdentifier,
    ConditionalIdentifier,
    SetVariableIdentifier,
    FileSaveIdentifier,
    EncodeBase64Identifier,
    ExitIdentifier,
    OutputIdentifier,
    ConditionalIdentifier,
    DictionaryIdentifier
  ]

  /** `isKnownLogicalActionType`: decided by the identifier alone. */
  predicate IsKnownLogicalActionType(a: Action) {
    a.identifier in KnownLogicalActionIdentifiers
  }

  /**
   * An action is of a known kind exactly when its identifier is one of the
   * ten distinct identifiers, whatever its parameters.
   */
  lemma KnownLogicalActionTypes(a: Action)
    ensures |KnownLogicalActionIdentifiers| == 11
    ensures IsKnownLogicalActionType(a) <==>
              a.identifier in {CommentIdentifier, DictionaryInputIdentifier, DictionaryValueIdentifier,
                               ConditionalIdentifier, SetVariableIdentifier, FileSaveIdentifier,
                               EncodeBase64Identifier, ExitIdentifier, OutputIdentifier, DictionaryIdentifier}
    ensures forall ps :: IsKnownLogicalActionType(Action(a.identifier, ps)) == IsKnownLogicalActionType(a)
  {
  }

  /** A wrapped text value: `{Value: {string: s}, WFSerializationType: "WFTextTokenString"}`. */
  function TextToken(s: string): Node {
    Obj([("Value", Obj([("string", Str(s))])), ("WFSerializationType", Str("WFTextTokenString"))])
  }

  /** A reference to another action's output. */
  function ActionOutput(outputId: string): Node {
    Obj([("OutputUUID", Str(outputId)), ("Type", Str("ActionOutput"))])
  }

  /** The action's parameter mapping as a tree. */
  function ParametersOf(a: Action): Node {
    Obj(a.parameters.GetOr([]))
  }

  /** `generateComment`. */
  function GenerateComment(text: string): (r: Action)
    ensures r.identifier == CommentIdentifier && IsKnownLogicalActionType(r)
    ensures r.parameters.Some? && |r.parameters.value| == 1
    ensures Resolve(ParametersOf(r), ["WFCommentActionText"]) == Some(Str(text))
  {
    Action(CommentIdentifier, Some([("WFCommentActionText", Str(text))]))
  }

  /** `generateDictionaryInput`, with the fresh UUID passed in. */
  function GenerateDictionaryInput(uuid: string): (r: Action)
    ensures r.identifier == DictionaryInputIdentifier && IsKnownLogicalActionType(r)
    ensures Resolve(ParametersOf(r), ["UUID"]) == Some(Str(uuid))
    ensures Resolve(ParametersOf(r), ["WFInput", "Value", "Type"]) == Some(Str("ExtensionInput"))
  {
    var ps := [
      ("WFInput", Obj([
        ("Value", Obj([("Type", Str("ExtensionInput"))])),
        ("WFSerializationType", Str("WFTextTokenAttachment"))])),
      ("UUID", Str(uuid))];
    ResolveEntry(ps, 1, ["UUID"]);
    Action(DictionaryInputIdentifier, Some(ps))
  }

  /**
   * The `Value` of a dictionary-value input: the output of `dictionaryId`,
   * with a dictionary-value aggrandizement when the key is non-empty.
   */
  function DictionaryOutputValue(dictionaryId: string, dictionaryKey: Option<string>): Node {
    if dictionaryKey.Some? && dictionaryKey.value != "" then
      Obj([
        ("OutputUUID", Str(dictionaryId)),
        ("Type", Str("ActionOutput")),
        ("Aggrandizements", Arr([Obj([
          ("DictionaryKey", Str(dictionaryKey.value)),
          ("Type", Str("WFDictionaryValueVariableAggrandizement"))])]))])
    else
      Obj([("OutputUUID", Str(dictionaryId)), ("Type", Str("ActionOutput"))])
  }

  /** The value refers to the dictionary's output and has a key aggrandizement exactly when a non-empty key is given. */
  lemma DictionaryOutputValueShape(dictionaryId: string, dictionaryKey: Option<string>)
    ensures var r := DictionaryOutputValue(dictionaryId, dictionaryKey);
            && Resolve(r, ["OutputUUID"]) == Some(Str(dictionaryId))
            && Resolve(r, ["Type"]) == Some(Str("ActionOutput"))
            && (Resolve(r, ["Aggrandizements", "0", "DictionaryKey"]).Some? <==> dictionaryKey.Some? && dictionaryKey.value != "")
            && (dictionaryKey.Some? && dictionaryKey.value != "" ==>
                  Resolve(r, ["Aggrandizements", "0", "DictionaryKey"]) == Some(Str(dictionaryKey.value)))
  {
    var es := DictionaryOutputValue(dictionaryId, dictionaryKey).entries;
    ResolveEntry(es, 1, ["Type"]);
    if dictionaryKey.Some? && dictionaryKey.value != "" {
      ResolveEntry(es, 2, ["Aggrandizements", "0", "DictionaryKey"]);
      ParseIndexOfNatToString(0);
    } else {
      assert FindKey(es, "Aggrandizements").None?;
    }
  }

  /**
   * `generateDictionaryValue`, with the fresh UUID passed in: the lookup
   * of `key` in the output of action `dictionaryId`; a non-empty
   * `dictionaryKey` adds a dictionary-value aggrandizement.
   */
  function GenerateDictionaryValue(dictionaryId: string, dictionaryKey: Option<string>, key: string, uuid: string): (r: Action)
    ensures r.identifier == DictionaryValueIdentifier && IsKnownLogicalActionType(r)
    ensures Resolve(ParametersOf(r), ["WFDictionaryKey"]) == Some(Str(key))
    ensures Resolve(ParametersOf(r), ["UUID"]) == Some(Str(uuid))
    ensures Resolve(ParametersOf(r), ["WFInput", "Value"]) == Some(DictionaryOutputValue(dictionaryId, dictionaryKey))
  {
    var ps := [
      ("WFInput", Obj([
        ("Value", DictionaryOutputValue(dictionaryId, dictionaryKey)),
        ("WFSerializationType", Str("WFTextTokenAttachment"))])),
      ("UUID", Str(uuid)),
      ("WFDictionaryKey", Str(key))];
    var r := Action(DictionaryValueIdentifier, Some(ps));
    assert Resolve(ParametersOf(r), ["UUID"]) == Some(Str(uuid)) by { ResolveKey(ps, 1, "UUID"); }
    assert Resolve(ParametersOf(r), ["WFDictionaryKey"]) == Some(Str(key)) by { ResolveKey(ps, 2, "WFDictionaryKey"); }
    r
  }

  /**
   * The input of a comparison on an action's output, coerced to text. It
   * is tagged `Type: "Variable"` but carries no `VariableName`, so it is
   * not a reference leaf.
   */
  function ComparedOutput(actionId: string): Node {
    Obj([
      ("Type", Str("Variable")),
      ("Variable", Obj([
        ("Value", Obj([
          ("Type", Str("ActionOutput")),
          ("OutputUUID", Str(actionId)),
          ("Aggrandizements", Arr([Obj([
            ("Type", Str("WFCoercionVariableAggrandizement")),
            ("CoercionItemClass", Str("WFStringContentItem"))])]))])),
        ("WFSerializationType", Str("WFTextTokenAttachment"))]))])
  }

  /** The compared input refers to the action's output, has type `Variable` and is not a reference leaf. */
  lemma ComparedOutputShape(actionId: string)
    ensures var r := ComparedOutput(actionId);
            && Resolve(r, ["Variable", "Value", "OutputUUID"]) == Some(Str(actionId))
            && Resolve(r, ["Type"]) == Some(Str("Variable"))
            && !IsReferenceLeaf(r)
  {
    var input := ComparedOutput(actionId).entries;
    var variable := input[1].1.entries;
    var v := variable[0].1.entries;
    var p := ["Variable", "Value", "OutputUUID"];
    ResolveEntry(input, 1, p);
    ResolveEntry(v, 1, p[2..]);
    assert FindKey(input, "VariableName").None?;
  }

  /** The parameters of the "if" action comparing `input` with `value`. */
  function IfParameters(input: Node, value: string, groupingId: string): Entries {
    [("WFInput", input),
     ("WFControlFlowMode", Num(0)),
     ("WFConditionalActionString", Str(value)),
     ("GroupingIdentifier", Str(groupingId)),
     ("WFCondition", Num(4))]
  }

  lemma IfParametersShape(input: Node, value: string, groupingId: string)
    ensures var n := Obj(IfParameters(input, value, groupingId));
            && Resolve(n, ["WFConditionalActionString"]) == Some(Str(value))
            && Resolve(n, ["GroupingIdentifier"]) == Some(Str(groupingId))
            && Resolve(n, ["WFControlFlowMode"]) == Some(Num(0))
            && Resolve(n, ["WFCondition"]) == Some(Num(4))
            && Resolve(n, ["WFInput"]) == Some(input)
  {
    var ps := IfParameters(input, value, groupingId);
    ResolveKey(ps, 0, "WFInput");
    ResolveKey(ps, 1, "WFControlFlowMode");
    ResolveKey(ps, 2, "WFConditionalActionString");
    ResolveKey(ps, 3, "GroupingIdentifier");
    ResolveKey(ps, 4, "WFCondition");
  }

  /** `generateIfActionOutputEquals`, with the fresh grouping identifier passed in. */
  function GenerateIfActionOutputEquals(actionId: string, value: string, groupingId: string): (r: Action)
    ensures r.identifier == ConditionalIdentifier && IsKnownLogicalActionType(r)
    ensures Resolve(ParametersOf(r), ["WFConditionalActionString"]) == Some(Str(value))
    ensures Resolve(ParametersOf(r), ["GroupingIdentifier"]) == Some(Str(groupingId))
    ensures Resolve(ParametersOf(r), ["WFControlFlowMode"]) == Some(Num(0))
    ensures Resolve(ParametersOf(r), ["WFCondition"]) == Some(Num(4))
    ensures Resolve(ParametersOf(r), ["WFInput"]) == Some(ComparedOutput(actionId))
  {
    IfParametersShape(ComparedOutput(actionId), value, groupingId);
    Action(ConditionalIdentifier, Some(IfParameters(ComparedOutput(actionId), value, groupingId)))
  }

  /** `generateSetVariable`. */
  function GenerateSetVariable(outputId: string, variableName: string): (r: Action)
    ensures r.identifier == SetVariableIdentifier && IsKnownLogicalActionType(r)
    ensures Resolve(ParametersOf(r), ["WFVariableName"]) == Some(Str(variableName))
    ensures Resolve(ParametersOf(r), ["WFInput", "Value"]) == Some(ActionOutput(outputId))
  {
    var ps := [
      ("WFInput", Obj([("Value", ActionOutput(outputId)), ("WFSerializationType", Str("WFTextTokenAttachment"))])),
      ("WFVariableName", Str(variableName))];
    ResolveEntry(ps, 1, ["WFVariableName"]);
    Action(SetVariableIdentifier, Some(ps))
  }

  /** `generateFileSave`: overwrite without asking. */
  function GenerateFileSave(outputId: string, filePath: string): (r: Action)
    ensures r.identifier == FileSaveIdentifier && IsKnownLogicalActionType(r)
    ensures Resolve(ParametersOf(r), ["WFFileDestinationPath"]) == Some(Str(filePath))
    ensures Resolve(ParametersOf(r), ["WFSaveFileOverwrite"]) == Some(Bool(true))
    ensures Resolve(ParametersOf(r), ["WFAskWhereToSave"]) == Some(Bool(false))
    ensures Resolve(ParametersOf(r), ["WFInput", "Value"]) == Some(ActionOutput(outputId))
  {
    var ps := [
      ("WFInput", Obj([("Value", ActionOutput(outputId))])),
      ("WFSaveFileOverwrite", Bool(true)),
      ("WFAskWhereToSave", Bool(false)),
      ("WFFileDestinationPath", Str(filePath))];
    var r := Action(FileSaveIdentifier, Some(ps));
    assert Resolve(ParametersOf(r), ["WFSaveFileOverwrite"]) == Some(Bool(true)) by { ResolveKey(ps, 1, "WFSaveFileOverwrite"); }
    assert Resolve(ParametersOf(r), ["WFAskWhereToSave"]) == Some(Bool(false)) by { ResolveKey(ps, 2, "WFAskWhereToSave"); }
    assert Resolve(ParametersOf(r), ["WFFileDestinationPath"]) == Some(Str(filePath)) by {
      ResolveKey(ps, 3, "WFFileDestinationPath");
    }
    r
  }

  /** `generateEncodeBase64`, with the fresh UUID passed in. */
  function GenerateEncodeBase64(outputId: string, uuid: string): (r: Action)
    ensures r.identifier == EncodeBase64Identifier && IsKnownLogicalActionType(r)
    ensures Resolve(ParametersOf(r), ["UUID"]) == Some(Str(uuid))
    ensures Resolve(ParametersOf(r), ["WFInput", "Value"]) == Some(ActionOutput(outputId))
  {
    var ps := [
      ("UUID", Str(uuid)),
      ("WFInput", Obj([("Value", ActionOutput(outputId)), ("WFSerializationType", Str("WFTextTokenAttachment"))]))];
    var p := ["WFInput", "Value"];
    ResolveEntry(ps, 1, p);
    Action(EncodeBase64Identifier, Some(ps))
  }

  /** `generateExit`: no parameters at all. */
  function GenerateExit(): (r: Action)
    ensures r.identifier == ExitIdentifier && IsKnownLogicalActionType(r)
    ensures r.parameters == Some([])
  {
    Action(ExitIdentifier, Some([]))
  }

  /** The text of the output action: the object replacement character as the source file spells it. */
  const OutputPlaceholderText: string := "\U{EF}\U{BF}\U{BC}"

  /** The text token the output action returns: the placeholder character, with the output of `outputId` attached to it. */
  function OutputToken(outputId: string): Node {
    Obj([
      ("Value", Obj([
        ("attachmentsByRange", Obj([("{0, 1}", Obj([("Type", Str("ActionOutput")), ("OutputUUID", Str(outputId))]))])),
        ("string", Str(OutputPlaceholderText))])),
      ("WFSerializationType", Str("WFTextTokenString"))])
  }

  lemma OutputTokenShape(outputId: string)
    ensures Resolve(OutputToken(outputId), ["Value", "attachmentsByRange", "{0, 1}", "OutputUUID"]) == Some(Str(outputId))
    ensures Resolve(OutputToken(outputId), ["Value", "string"]) == Some(Str(OutputPlaceholderText))
    ensures Resolve(OutputToken(outputId), ["WFSerializationType"]) == Some(Str("WFTextTokenString"))
  {
    var output := OutputToken(outputId).entries;
    var v := output[0].1.entries;
    var attachment := v[0].1.entries[0].1.entries;
    var p := ["Value", "attachmentsByRange", "{0, 1}", "OutputUUID"];
    assert Resolve(OutputToken(outputId), p) == Some(Str(outputId)) by {
      ResolveEntry(output, 0, p);
      ResolveEntry(v, 0, p[1..]);
      ResolveEntry(attachment, 1, p[3..]);
    }
    assert Resolve(OutputToken(outputId), ["Value", "string"]) == Some(Str(OutputPlaceholderText)) by {
      ResolveEntry(output, 0, ["Value", "string"]);
      ResolveKey(v, 1, "string");
    }
    ResolveKey(output, 1, "WFSerializationType");
  }

  /** `generateOutputAndExit`: the output of `outputId` attached to the range {0, 1}. */
  function GenerateOutputAndExit(outputId: string): (r: Action)
    ensures r.identifier == OutputIdentifier && IsKnownLogicalActionType(r)
    ensures Resolve(ParametersOf(r), ["WFOutput", "Value", "attachmentsByRange", "{0, 1}", "OutputUUID"])
            == Some(Str(outputId))
    ensures Resolve(ParametersOf(r), ["WFOutput", "Value", "string"]) == Some(Str(OutputPlaceholderText))
    ensures Resolve(ParametersOf(r), ["WFOutput", "WFSerializationType"]) == Some(Str("WFTextTokenString"))
  {
    var ps := [("WFOutput", OutputToken(outputId))];
    OutputTokenShape(outputId);
    ResolveEntry(ps, 0, ["WFOutput", "Value", "attachmentsByRange", "{0, 1}", "OutputUUID"]);
    ResolveEntry(ps, 0, ["WFOutput", "Value", "string"]);
    ResolveEntry(ps, 0, ["WFOutput", "WFSerializationType"]);
    Action(OutputIdentifier, Some(ps))
  }

  /** `generateEndIf`, with the fresh UUID passed in. */
  function GenerateEndIf(groupingIdentifier: string, uuid: string): (r: Action)
    ensures r.identifier == ConditionalIdentifier && IsKnownLogicalActionType(r)
    ensures Resolve(ParametersOf(r), ["GroupingIdentifier"]) == Some(Str(groupingIdentifier))
    ensures Resolve(ParametersOf(r), ["UUID"]) == Some(Str(uuid))
    ensures Resolve(ParametersOf(r), ["WFControlFlowMode"]) == Some(Num(2))
  {
    var ps := [
      ("UUID", Str(uuid)),
      ("GroupingIdentifier", Str(groupingIdentifier)),
      ("WFControlFlowMode", Num(2))];
    var r := Action(ConditionalIdentifier, Some(ps));
    assert Resolve(ParametersOf(r), ["GroupingIdentifier"]) == Some(Str(groupingIdentifier)) by {
      ResolveKey(ps, 1, "GroupingIdentifier");
    }
    assert Resolve(ParametersOf(r), ["WFControlFlowMode"]) == Some(Num(2)) by { ResolveKey(ps, 2, "WFControlFlowMode"); }
    r
  }

  // ---------------------------------------------------------------------
  // Dictionaries with constant values
  // ---------------------------------------------------------------------

  /** A dictionary value: text, or one level of nested text values. */
  datatype DictionaryValue = Text(text: string) | Nested(pairs: seq<(string, string)>)

  /** `DictionaryData`, as its entries in insertion order. */
  type DictionaryData = seq<(string, DictionaryValue)>

  predicate UniquePairs(m: seq<(string, string)>) {
    forall i, j :: 0 <= i < j < |m| ==> m[i].0 != m[j].0
  }

  /** What a JavaScript record can hold: distinct keys at both levels. */
  predicate ValidData(d: DictionaryData) {
    && (forall i, j :: 0 <= i < j < |d| ==> d[i].0 != d[j].0)
    && (forall i :: 0 <= i < |d| && d[i].1.Nested? ==> UniquePairs(d[i].1.pairs))
  }

  /** The plain tree a dictionary denotes. */
  function ValueToNode(v: DictionaryValue): Node {
    match v
    case Text(s) => Str(s)
    case Nested(m) => Obj(TextEntries(m))
  }

  function TextEntries(m: seq<(string, string)>): (r: Entries)
    ensures |r| == |m|
  {
    seq(|m|, j requires 0 <= j < |m| => (m[j].0, Str(m[j].1)))
  }

  function DataEntries(d: DictionaryData): (r: Entries)
    ensures |r| == |d|
  {
    seq(|d|, i requires 0 <= i < |d| => (d[i].0, ValueToNode(d[i].1)))
  }

  function DataToNode(d: DictionaryData): Node {
    Obj(DataEntries(d))
  }

  /** An item holding text (`WFItemType` 0). */
  function StringItem(key: string, value: string): Node {
    Obj([("WFItemType", Num(0)), ("WFKey", TextToken(key)), ("WFValue", TextToken(value))])
  }

  function StringItems(m: seq<(string, string)>): seq<Node> {
    seq(|m|, j requires 0 <= j < |m| => StringItem(m[j].0, m[j].1))
  }

  /** `{WFDictionaryFieldValueItems: items}`. */
  function ItemsContent(items: seq<Node>): Node {
    Obj([("WFDictionaryFieldValueItems", Arr(items))])
  }

  /** An item holding a nested dictionary of text (`WFItemType` 1). */
  function NestedItem(key: string, m: seq<(string, string)>): Node {
    Obj([
      ("WFItemType", Num(1)),
      ("WFKey", TextToken(key)),
      ("WFValue", Obj([
        ("Value", ItemsContent(StringItems(m))),
        ("WFSerializationType", Str("WFDictionaryFieldValue"))]))])
  }

  function DictionaryItem(key: string, v: DictionaryValue): Node {
    match v
    case Text(s) => StringItem(key, s)
    case Nested(m) => NestedItem(key, m)
  }

  /** The encoded items of a dictionary, one per entry in order. */
  function DictionaryContent(d: DictionaryData): Node {
    ItemsContent(DictionaryItems(d))
  }

  function DictionaryItems(d: DictionaryData): (r: seq<Node>)
    ensures |r| == |d|
  {
    seq(|d|, i requires 0 <= i < |d| => DictionaryItem(d[i].0, d[i].1))
  }

  /** `generateDictionary`. */
  function GenerateDictionary(d: DictionaryData): (r: Action)
    ensures r.identifier == DictionaryIdentifier && IsKnownLogicalActionType(r)
    ensures Resolve(ParametersOf(r), ["WFItems", "Value"]) == Some(DictionaryContent(d))
    ensures Resolve(ParametersOf(r), ["WFItems", "WFSerializationType"]) == Some(Str("WFDictionaryFieldValue"))
  {
    var items := [("Value", DictionaryContent(d)), ("WFSerializationType", Str("WFDictionaryFieldValue"))];
    var ps := [("WFItems", Obj(items))];
    ResolveEntry(ps, 0, ["WFItems", "WFSerializationType"]);
    ResolveEntry(items, 1, ["WFSerializationType"]);
    Action(DictionaryIdentifier, Some(ps))
  }

  // The shape the dictionary schema accepts.

  predicate IsTextToken(n: Node) {
    && Field(n, "Value").Some?
    && Field(Field(n, "Value").value, "string").Some?
    && Field(Field(n, "Value").value, "string").value.Str?
    && Field(n, "WFSerializationType") == Some(Str("WFTextTokenString"))
  }

  /** The text a text token wraps. */
  function TokenText(n: Node): string
    requires IsTextToken(n)
  {
    Field(Field(n, "Value").value, "string").value.s
  }

  predicate IsStringItem(n: Node) {
    && Field(n, "WFItemType") == Some(Num(0))
    && Field(n, "WFKey").Some? && IsTextToken(Field(n, "WFKey").value)
    && Field(n, "WFValue").Some? && IsTextToken(Field(n, "WFValue").value)
  }

  predicate IsStringItemsContent(c: Node) {
    && Field(c, "WFDictionaryFieldValueItems").Some?
    && Field(c, "WFDictionaryFieldValueItems").value.Arr?
    && var xs := Field(c, "WFDictionaryFieldValueItems").value.items;
       forall i :: 0 <= i < |xs| ==> IsStringItem(xs[i])
  }

  predicate IsNestedItem(n: Node) {
    && Field(n, "WFItemType") == Some(Num(1))
    && Field(n, "WFKey").Some? && IsTextToken(Field(n, "WFKey").value)
    && Field(n, "WFValue").Some?
    && var w := Field(n, "WFValue").value;
       && Field(w, "Value").Some? && IsStringItemsContent(Field(w, "Value").value)
       && Field(w, "WFSerializationType") == Some(Str("WFDictionaryFieldValue"))
  }

  predicate IsItem(n: Node) {
    IsStringItem(n) || IsNestedItem(n)
  }

  /** What `Dictionary["WFWorkflowActionParameters"]["WFItems"]["Value"]` admits. */
  predicate IsDictionaryContent(c: Node) {
    && Field(c, "WFDictionaryFieldValueItems").Some?
    && Field(c, "WFDictionaryFieldValueItems").value.Arr?
    && var xs := Field(c, "WFDictionaryFieldValueItems").value.items;
       forall i :: 0 <= i < |xs| ==> IsItem(xs[i])
  }

  /**
   * `getValueOfDictionary`: each item becomes its key and either the
   * wrapped text or, when there is none, the decoded nested dictionary;
   * `Object.fromEntries` collects the pairs.
   */
  function GetValueOfDictionary(c: Node): (r: Node)
    requires IsDictionaryContent(c)
    ensures r.Obj? && UniqueKeys(r.entries)
    decreases c
  {
    var es := c.entries;
    var xs := es[FindKey(es, "WFDictionaryFieldValueItems").value].1.items;
    Obj(FromEntries(DecodeItems(xs)))
  }

  /** `items.map(...)`: the key/value pair of each item, in order. */
  function DecodeItems(xs: seq<Node>): (r: Entries)
    requires forall i :: 0 <= i < |xs| ==> IsItem(xs[i])
    ensures |r| == |xs|
    decreases xs, 0
  {
    seq(|xs|, i requires 0 <= i < |xs| => DecodeItem(xs[i]))
  }

  /** One item as `[key, wrappedValue.string ?? getValueOfDictionary(wrappedValue)]`. */
  function DecodeItem(item: Node): (string, Node)
    requires IsItem(item)
    decreases item
  {
    var key := TokenText(Field(item, "WFKey").value);
    var es := item.entries;
    var w := es[FindKey(es, "WFValue").value].1;
    var we := w.entries;
    var wrapped := we[FindKey(we, "Value").value].1;
    var text := Field(wrapped, "string");
    if text.Some? && text.value != Null then (key, text.value)
    else (key, GetValueOfDictionary(wrapped))
  }

  /** The items of a dictionary's content. */
  function ContentItems(c: Node): (xs: seq<Node>)
    requires IsDictionaryContent(c)
    ensures forall i :: 0 <= i < |xs| ==> IsItem(xs[i])
  {
    Field(c, "WFDictionaryFieldValueItems").value.items
  }

  /** `getValueOfDictionary` is `Object.fromEntries` over the decoded items. */
  lemma GetValueOfDictionaryIsFromEntries(c: Node)
    requires IsDictionaryContent(c)
    ensures GetValueOfDictionary(c) == Obj(FromEntries(DecodeItems(ContentItems(c))))
  {
  }

  /**
   * The decoded object holds exactly the items' keys, and a key repeated
   * among the items gets the value of its last item.
   */
  lemma GetValueOfDictionaryLastWins(c: Node)
    requires IsDictionaryContent(c)
    ensures var pairs := DecodeItems(ContentItems(c));
            var r := GetValueOfDictionary(c).entries;
            && (forall k :: HasKey(r, k) <==> exists i :: 0 <= i < |pairs| && pairs[i].0 == k)
            && forall i :: 0 <= i < |pairs| && (forall j :: i < j < |pairs| ==> pairs[j].0 != pairs[i].0) ==>
                 Lookup(r, pairs[i].0) == Some(pairs[i].1)
  {
    var pairs := DecodeItems(ContentItems(c));
    GetValueOfDictionaryIsFromEntries(c);
    FromEntriesKeys(pairs);
    forall i | 0 <= i < |pairs| && (forall j :: i < j < |pairs| ==> pairs[j].0 != pairs[i].0)
      ensures Lookup(FromEntries(pairs), pairs[i].0) == Some(pairs[i].1)
    {
      FromEntriesLastWins(pairs, i);
    }
  }

  lemma TextTokenShape(s: string)
    ensures IsTextToken(TextToken(s)) && TokenText(TextToken(s)) == s
    ensures Field(TextToken(s), "Value") == Some(Obj([("string", Str(s))]))
  {
    LookupEntry(TextToken(s).entries, 1);
  }

  /** A text item passes the schema and decodes to its key and text. */
  lemma StringItemRoundTrip(key: string, value: string)
    ensures IsStringItem(StringItem(key, value)) && IsItem(StringItem(key, value))
    ensures DecodeItem(StringItem(key, value)) == (key, Str(value))
  {
    var es := StringItem(key, value).entries;
    LookupEntry(es, 1);
    LookupEntry(es, 2);
    TextTokenShape(key);
    TextTokenShape(value);
  }

  lemma StringItemsAreItems(m: seq<(string, string)>)
    ensures forall i :: 0 <= i < |StringItems(m)| ==> IsStringItem(StringItems(m)[i]) && IsItem(StringItems(m)[i])
  {
    forall i | 0 <= i < |StringItems(m)| ensures IsStringItem(StringItems(m)[i]) && IsItem(StringItems(m)[i]) {
      StringItemRoundTrip(m[i].0, m[i].1);
    }
  }

  /** The one-level dictionary inside a nested item decodes to its pairs. */
  lemma StringItemsContentRoundTrip(m: seq<(string, string)>)
    requires UniquePairs(m)
    ensures IsStringItemsContent(ItemsContent(StringItems(m)))
    ensures IsDictionaryContent(ItemsContent(StringItems(m)))
    ensures GetValueOfDictionary(ItemsContent(StringItems(m))) == ValueToNode(Nested(m))
  {
    StringItemsAreItems(m);
    forall i | 0 <= i < |m| ensures DecodeItem(StringItems(m)[i]) == TextEntries(m)[i] {
      StringItemRoundTrip(m[i].0, m[i].1);
    }
    assert DecodeItems(StringItems(m)) == TextEntries(m);
    FromEntriesOfUnique(TextEntries(m));
  }

  /** A nested item passes the schema and decodes to its key and nested dictionary. */
  lemma NestedItemRoundTrip(key: string, m: seq<(string, string)>)
    requires UniquePairs(m)
    ensures IsNestedItem(NestedItem(key, m)) && IsItem(NestedItem(key, m))
    ensures DecodeItem(NestedItem(key, m)) == (key, ValueToNode(Nested(m)))
  {
    var es := NestedItem(key, m).entries;
    LookupEntry(es, 1);
    LookupEntry(es, 2);
    TextTokenShape(key);
    LookupEntry(es[2].1.entries, 1);
    StringItemsContentRoundTrip(m);
    assert Field(ItemsContent(StringItems(m)), "string").None?;
  }

  lemma DictionaryItemRoundTrip(key: string, v: DictionaryValue)
    requires v.Nested? ==> UniquePairs(v.pairs)
    ensures IsItem(DictionaryItem(key, v))
    ensures DecodeItem(DictionaryItem(key, v)) == (key, ValueToNode(v))
  {
    match v
    case Text(s) => StringItemRoundTrip(key, s);
    case Nested(m) => NestedItemRoundTrip(key, m);
  }

  lemma DictionaryItemsAreItems(d: DictionaryData)
    requires ValidData(d)
    ensures forall i :: 0 <= i < |DictionaryItems(d)| ==> IsItem(DictionaryItems(d)[i])
  {
    forall i | 0 <= i < |DictionaryItems(d)| ensures IsItem(DictionaryItems(d)[i]) {
      DictionaryItemRoundTrip(d[i].0, d[i].1);
    }
  }

  /**
   * Decoding the content of a generated dictionary action gives back the
   * dictionary, key order included.
   */
  lemma GetValueOfDictionaryRoundTrip(d: DictionaryData)
    requires ValidData(d)
    ensures IsDictionaryContent(DictionaryContent(d))
    ensures GetValueOfDictionary(DictionaryContent(d)) == DataToNode(d)
  {
    DictionaryItemsAreItems(d);
    forall i | 0 <= i < |d| ensures DecodeItem(DictionaryItems(d)[i]) == DataEntries(d)[i] {
      DictionaryItemRoundTrip(d[i].0, d[i].1);
    }
    assert DecodeItems(DictionaryItems(d)) == DataEntries(d);
    FromEntriesOfUnique(DataEntries(d));
  }

  /** The same, starting from the action `generateDictionary` builds. */
  lemma GenerateDictionaryRoundTrip(d: DictionaryData)
    requires ValidData(d)
    ensures var content := Resolve(ParametersOf(GenerateDictionary(d)), ["WFItems", "Value"]);
            && content.Some? && IsDictionaryContent(content.value)
            && GetValueOfDictionary(content.value) == DataToNode(d)
  {
    GetValueOfDictionaryRoundTrip(d);
  }
}
