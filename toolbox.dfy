/**
 * The toolbox API shapes and the tool repository (integration/base/index.ts).
 *
 * A repository keeps, in insertion order, each added item with the spec
 * generated for it, and the overrides registered for future specs, keyed
 * by metadata. The two JavaScript `Map`s become two sequences of pairs;
 * `lodash.isequal` becomes the equality relations the repository is given.
 */
module Toolbox {
  import opened Wrappers

  /** `ToolboxAPI.scalarSchema`. */
  datatype ScalarType = StringType | NumberType | BooleanType | ObjectType

  /** `ToolboxAPI.Parameter`. */
  datatype Parameter = Parameter(required: bool, description: string, paramType: ScalarType)

  /** `ToolboxAPI.Definition`. */
  datatype Definition = Definition(
    name: string,
    description: string,
    parameters: map<string, Parameter>,
    responseType: ScalarType)

  /** `Partial<ToolboxAPI.Definition>`: each field may be absent. */
  datatype PartialDefinition = PartialDefinition(
    name: Option<string>,
    description: Option<string>,
    parameters: Option<map<string, Parameter>>,
    responseType: Option<ScalarType>)

  const NoOverride := PartialDefinition(None, None, None, None)

  /** `ToolSpec<U>`. */
  datatype ToolSpec<U> = ToolSpec(definition: Definition, override: Option<PartialDefinition>, metadata: U)

  /** `ToolSpecWithType<U>`: a spec tagged with the repository's tool type. */
  datatype TaggedSpec<U> = TaggedSpec(toolType: string, spec: ToolSpec<U>)

  /** `{...a, ...b}` on partial definitions: a field present in `b` wins. */
  function Merge(a: PartialDefinition, b: PartialDefinition): (r: PartialDefinition)
    ensures b.name.Some? ==> r.name == b.name
    ensures b.name.None? ==> r.name == a.name
    ensures b.description.Some? ==> r.description == b.description
    ensures b.description.None? ==> r.description == a.description
    ensures b.parameters.Some? ==> r.parameters == b.parameters
    ensures b.parameters.None? ==> r.parameters == a.parameters
    ensures b.responseType.Some? ==> r.responseType == b.responseType
    ensures b.responseType.None? ==> r.responseType == a.responseType
  {
    PartialDefinition(
      if b.name.Some? then b.name else a.name,
      if b.description.Some? then b.description else a.description,
      if b.parameters.Some? then b.parameters else a.parameters,
      if b.responseType.Some? then b.responseType else a.responseType)
  }

  /** Merging is associative, so successive overrides fold into one. */
  lemma MergeAssociative(a: PartialDefinition, b: PartialDefinition, c: PartialDefinition)
    ensures Merge(Merge(a, b), c) == Merge(a, Merge(b, c))
  {
  }

  /** The empty override is neutral on both sides, and merging is idempotent. */
  lemma MergeIdentities(a: PartialDefinition)
    ensures Merge(NoOverride, a) == a && Merge(a, NoOverride) == a && Merge(a, a) == a
  {
  }

  /** `ToolRepository<T, U>`. */
  class ToolRepository<T, U> {
    const toolType: string
    const generateSpec: T -> ToolSpec<U>
    /** The item equality (`isEqual` on items). */
    const itemEq: (T, T) -> bool
    /** The metadata equality (`isEqual` on metadata). */
    const metadataEq: (U, U) -> bool

    /** `toolToSpec`, in insertion order. */
    var entries: seq<(T, ToolSpec<U>)>
    /** `metadataToExistingOverride`, in insertion order. */
    var overrides: seq<(U, PartialDefinition)>

    /**
     * No entry repeats an earlier one in both item and metadata, and no
     * override key equals an earlier one; each is stated with the
     * arguments in the order `add` and `addOverride` compare them.
     */
    predicate Valid()
      reads this
    {
      && (forall i, j :: 0 <= i < j < |entries| ==>
            !(itemEq(entries[j].0, entries[i].0) && metadataEq(entries[i].1.metadata, entries[j].1.metadata)))
      && (forall i, j :: 0 <= i < j < |overrides| ==> !metadataEq(overrides[j].0, overrides[i].0))
    }

    constructor(toolType: string, generateSpec: T -> ToolSpec<U>, itemEq: (T, T) -> bool, metadataEq: (U, U) -> bool)
      ensures this.toolType == toolType && this.generateSpec == generateSpec
      ensures this.itemEq == itemEq && this.metadataEq == metadataEq
      ensures entries == [] && overrides == [] && Valid()
    {
      this.toolType := toolType;
      this.generateSpec := generateSpec;
      this.itemEq := itemEq;
      this.metadataEq := metadataEq;
      entries := [];
      overrides := [];
    }

    /** `item` is already stored with metadata equal to what it would be given now. */
    predicate IsStored(item: T)
      reads this
    {
      exists j :: 0 <= j < |entries| && itemEq(item, entries[j].0)
                  && metadataEq(entries[j].1.metadata, generateSpec(item).metadata)
    }

    /** The position of the first override in `ovs` whose key equals `metadata`. */
    function FirstOverride(ovs: seq<(U, PartialDefinition)>, metadata: U): (r: Option<nat>)
      ensures r.Some? ==> r.value < |ovs| && metadataEq(metadata, ovs[r.value].0)
                          && forall j :: 0 <= j < r.value ==> !metadataEq(metadata, ovs[j].0)
      ensures r.None? <==> forall j :: 0 <= j < |ovs| ==> !metadataEq(metadata, ovs[j].0)
    {
      FirstOverrideFrom(ovs, metadata, 0)
    }

    function FirstOverrideFrom(ovs: seq<(U, PartialDefinition)>, metadata: U, from: nat): (r: Option<nat>)
      requires from <= |ovs|
      ensures r.Some? ==> from <= r.value < |ovs| && metadataEq(metadata, ovs[r.value].0)
                          && forall j :: from <= j < r.value ==> !metadataEq(metadata, ovs[j].0)
      ensures r.None? ==> forall j :: from <= j < |ovs| ==> !metadataEq(metadata, ovs[j].0)
      decreases |ovs| - from
    {
      if from == |ovs| then None
      else if metadataEq(metadata, ovs[from].0) then Some(from)
      else FirstOverrideFrom(ovs, metadata, from + 1)
    }

    /** The spec `add` stores: the first matching override merged in, stored keys winning. */
    function SpecToStore(ovs: seq<(U, PartialDefinition)>, spec: ToolSpec<U>): (r: ToolSpec<U>)
      ensures r.definition == spec.definition && r.metadata == spec.metadata
      ensures FirstOverride(ovs, spec.metadata).None? ==> r == spec
      ensures FirstOverride(ovs, spec.metadata).Some? ==>
                r.override == Some(Merge(spec.override.GetOr(NoOverride), ovs[FirstOverride(ovs, spec.metadata).value].1))
    {
      match FirstOverride(ovs, spec.metadata)
      case Some(i) => spec.(override := Some(Merge(spec.override.GetOr(NoOverride), ovs[i].1)))
      case None => spec
    }

    /**
     * `addOverride`: merge into the override of an equal metadata key (new
     * fields winning), or register a new key. Stored specs never change.
     */
    method AddOverride(metadata: U, override: PartialDefinition)
      requires Valid()
      modifies this
      ensures Valid()
      ensures entries == old(entries)
      ensures FirstOverride(old(overrides), metadata).Some? ==>
                var i := FirstOverride(old(overrides), metadata).value;
                overrides == old(overrides)[i := (old(overrides)[i].0, Merge(old(overrides)[i].1, override))]
      ensures FirstOverride(old(overrides), metadata).None? ==> overrides == old(overrides) + [(metadata, override)]
    {
      var i := 0;
      while i < |overrides|
        invariant i <= |overrides|
        invariant forall j :: 0 <= j < i ==> !metadataEq(metadata, overrides[j].0)
      {
        if metadataEq(metadata, overrides[i].0) {
          assert FirstOverride(overrides, metadata) == Some(i);
          overrides := overrides[i := (overrides[i].0, Merge(overrides[i].1, override))];
          return;
        }
        i := i + 1;
      }
      overrides := overrides + [(metadata, override)];
    }

    /**
     * `add`: refuse an item stored before with equal metadata; otherwise
     * store its spec, with a pending override merged in, after the others.
     */
    method Add(item: T) returns (added: bool)
      requires Valid()
      modifies this
      ensures Valid()
      ensures added <==> !old(IsStored(item))
      ensures overrides == old(overrides)
      ensures !added ==> entries == old(entries)
      ensures added ==> entries == old(entries) + [(item, SpecToStore(old(overrides), generateSpec(item)))]
    {
      var newSpec := generateSpec(item);
      var i := 0;
      while i < |entries|
        invariant i <= |entries|
        invariant forall j :: 0 <= j < i ==>
                    !(itemEq(item, entries[j].0) && metadataEq(entries[j].1.metadata, newSpec.metadata))
      {
        if itemEq(item, entries[i].0) {
          if metadataEq(entries[i].1.metadata, newSpec.metadata) {
            return false;
          }
        }
        i := i + 1;
      }
      var k := 0;
      while k < |overrides|
        invariant k <= |overrides|
        invariant forall j :: 0 <= j < k ==> !metadataEq(newSpec.metadata, overrides[j].0)
        invariant newSpec == generateSpec(item)
      {
        if metadataEq(newSpec.metadata, overrides[k].0) {
          assert FirstOverride(overrides, newSpec.metadata) == Some(k);
          newSpec := newSpec.(override := Some(Merge(newSpec.override.GetOr(NoOverride), overrides[k].1)));
          break;
        }
        k := k + 1;
      }
      assert newSpec == SpecToStore(overrides, generateSpec(item));
      entries := entries + [(item, newSpec)];
      return true;
    }

    /** `getTools`: the stored items in insertion order. */
    function GetTools(): (r: seq<T>)
      reads this
      ensures |r| == |entries| && forall i :: 0 <= i < |entries| ==> r[i] == entries[i].0
    {
      seq(|entries|, i reads this requires 0 <= i < |entries| => entries[i].0)
    }

    /** `getSpecs`: the stored specs in insertion order, tagged with the tool type. */
    function GetSpecs(): (r: seq<TaggedSpec<U>>)
      reads this
      ensures |r| == |entries|
      ensures forall i :: 0 <= i < |entries| ==> r[i].toolType == toolType && r[i].spec == entries[i].1
    {
      seq(|entries|, i reads this requires 0 <= i < |entries| => TaggedSpec(toolType, entries[i].1))
    }

    /** `getToolsWithSpecs`: items and tagged specs side by side. */
    function GetToolsWithSpecs(): (r: seq<(T, TaggedSpec<U>)>)
      reads this
      ensures |r| == |entries|
      ensures forall i :: 0 <= i < |entries| ==> r[i] == (GetTools()[i], GetSpecs()[i])
    {
      seq(|entries|, i reads this requires 0 <= i < |entries| => (entries[i].0, TaggedSpec(toolType, entries[i].1)))
    }
  }

  /**
   * Adding an item a second time is refused when both equalities are
   * reflexive on it: the first call stores it (if it was not already),
   * the second finds it.
   */
  method AddTwice<T, U>(r: ToolRepository<T, U>, item: T) returns (first: bool, second: bool)
    requires r.Valid()
    requires r.itemEq(item, item) && r.metadataEq(r.generateSpec(item).metadata, r.generateSpec(item).metadata)
    modifies r
    ensures r.Valid()
    ensures !second
    ensures first <==> !old(r.IsStored(item))
    ensures |r.entries| == |old(r.entries)| + (if first then 1 else 0)
    ensures r.overrides == old(r.overrides)
  {
    first := r.Add(item);
    if first {
      assert r.entries[|r.entries| - 1].0 == item;
    }
    second := r.Add(item);
  }

  /**
   * An override registered before an item is added reaches its spec, merged
   * into whatever override was already pending for equal metadata; one
   * registered after does not.
   */
  method OverrideTiming<T, U>(r: ToolRepository<T, U>, item: T, override: PartialDefinition, late: PartialDefinition)
      returns (added: bool)
    requires r.Valid() && !r.IsStored(item)
    requires r.metadataEq(r.generateSpec(item).metadata, r.generateSpec(item).metadata)
    modifies r
    ensures r.Valid() && added
    ensures |r.entries| == |old(r.entries)| + 1
    ensures var spec := r.generateSpec(item);
            var pending := match r.FirstOverride(old(r.overrides), spec.metadata)
                           case Some(i) => Merge(old(r.overrides)[i].1, override)
                           case None => override;
            r.entries[|r.entries| - 1].1.override == Some(Merge(spec.override.GetOr(NoOverride), pending))
  {
    var m := r.generateSpec(item).metadata;
    var first := r.FirstOverride(r.overrides, m);
    r.AddOverride(m, override);
    match first {
      case Some(i) =>
        assert r.metadataEq(m, r.overrides[i].0);
        assert forall j :: 0 <= j < i ==> r.overrides[j] == old(r.overrides)[j];
      case None =>
        assert r.metadataEq(m, r.overrides[|old(r.overrides)|].0);
        assert forall j :: 0 <= j < |old(r.overrides)| ==> r.overrides[j] == old(r.overrides)[j];
    }
    added := r.Add(item);
    r.AddOverride(m, late);
  }
}
