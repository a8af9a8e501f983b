/**
 * A tool repository of Shortcuts actions: items are actions, metadata is
 * `ShortcutToolMetadata`, specs come from `specFromAction`, and both
 * equalities are deep equality (integration/base/index.ts with the types
 * of integration/shortcuts/lib/metadata.ts).
 */
module ShortcutTools {
  import opened Wrappers
  import opened Json
  import opened Shortcut
  import opened DeepEquality
  import opened Toolbox
  import opened Metadata

  /** `isEqual` on actions: their trees are deep-equal. */
  predicate ActionEqual(a: Action, b: Action) {
    DeepEqual(ActionToNode(a), ActionToNode(b))
  }

  /** `isEqual` on metadata: the same path table and deep-equal templates. */
  predicate MetadataEqual(m1: ShortcutToolMetadata, m2: ShortcutToolMetadata) {
    m1.parameterIdToTemplatePath == m2.parameterIdToTemplatePath && ActionEqual(m1.template, m2.template)
  }

  /** On actions whose parameter mappings have unique keys, action equality is an equivalence. */
  lemma ActionEqualIsEquivalence(a: Action, b: Action, c: Action)
    requires WellFormed(ActionToNode(a)) && WellFormed(ActionToNode(b))
    ensures ActionEqual(a, a)
    ensures ActionEqual(a, b) ==> ActionEqual(b, a)
    ensures ActionEqual(a, b) && ActionEqual(b, c) ==> ActionEqual(a, c)
  {
    DeepEqualReflexive(ActionToNode(a));
    if ActionEqual(a, b) {
      DeepEqualSymmetric(ActionToNode(a), ActionToNode(b));
      if ActionEqual(b, c) {
        DeepEqualTransitive(ActionToNode(a), ActionToNode(b), ActionToNode(c));
      }
    }
  }

  /** The same for metadata, whose templates are compared as actions. */
  lemma MetadataEqualIsEquivalence(m1: ShortcutToolMetadata, m2: ShortcutToolMetadata, m3: ShortcutToolMetadata)
    requires WellFormed(ActionToNode(m1.template)) && WellFormed(ActionToNode(m2.template))
    ensures MetadataEqual(m1, m1)
    ensures MetadataEqual(m1, m2) ==> MetadataEqual(m2, m1)
    ensures MetadataEqual(m1, m2) && MetadataEqual(m2, m3) ==> MetadataEqual(m1, m3)
  {
    ActionEqualIsEquivalence(m1.template, m2.template, m3.template);
  }

  /**
   * Two actions that differ only in the order of two parameters are equal
   * to the repository, although they are different trees.
   */
  lemma ParameterOrderIgnored(identifier: string, k1: string, v1: Node, k2: string, v2: Node)
    requires k1 != k2 && WellFormed(v1) && WellFormed(v2)
    ensures var a, b := Action(identifier, Some([(k1, v1), (k2, v2)])), Action(identifier, Some([(k2, v2), (k1, v1)]));
            a != b && ActionEqual(a, b)
  {
    var a, b := Action(identifier, Some([(k1, v1), (k2, v2)])), Action(identifier, Some([(k2, v2), (k1, v1)]));
    KeyOrderIgnored(k1, v1, k2, v2);
    var ea, eb := ActionToNode(a).entries, ActionToNode(b).entries;
    assert ea == [(IdentifierKey, Str(identifier)), (ParametersKey, Obj([(k1, v1), (k2, v2)]))];
    assert eb == [(IdentifierKey, Str(identifier)), (ParametersKey, Obj([(k2, v2), (k1, v1)]))];
    LookupEntry(eb, 0);
    LookupEntry(eb, 1);
  }

  /** A repository of Shortcuts actions whose specs come from `specFromAction`. */
  method NewShortcutRepository(toolType: string, wk: Framework.WorkflowKitActions, ai: Framework.AppIntentActions)
      returns (r: ToolRepository<Action, ShortcutToolMetadata>)
    ensures fresh(r) && r.Valid() && r.entries == [] && r.overrides == [] && r.toolType == toolType
    ensures forall a :: r.generateSpec(a) == SpecOf(a, wk, ai)
    ensures forall a, b :: r.itemEq(a, b) <==> ActionEqual(a, b)
    ensures forall m1, m2 :: r.metadataEq(m1, m2) <==> MetadataEqual(m1, m2)
  {
    r := new ToolRepository(toolType, (a: Action) => SpecOf(a, wk, ai),
                            (a: Action, b: Action) => ActionEqual(a, b),
                            (m1: ShortcutToolMetadata, m2: ShortcutToolMetadata) => MetadataEqual(m1, m2));
  }

  /** Adding a well-formed action twice stores it at most once. */
  method AddActionTwice(r: ToolRepository<Action, ShortcutToolMetadata>, action: Action,
                        wk: Framework.WorkflowKitActions, ai: Framework.AppIntentActions)
      returns (first: bool, second: bool)
    requires r.Valid() && WellFormed(ActionToNode(action))
    requires forall a :: r.generateSpec(a) == SpecOf(a, wk, ai)
    requires forall a, b :: r.itemEq(a, b) <==> ActionEqual(a, b)
    requires forall m1, m2 :: r.metadataEq(m1, m2) <==> MetadataEqual(m1, m2)
    modifies r
    ensures r.Valid() && !second
    ensures first <==> !old(r.IsStored(action))
    ensures |r.entries| == |old(r.entries)| + (if first then 1 else 0)
  {
    ActionEqualIsEquivalence(action, action, action);
    assert r.generateSpec(action).metadata.template == action;
    first, second := AddTwice(r, action);
  }
}
