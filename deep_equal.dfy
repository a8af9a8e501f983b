/**
 * Structural equality of JSON-like trees, standing in for `lodash.isequal`:
 * arrays compare element by element, mappings compare by key regardless of
 * the order in which the keys were inserted.
 */
module DeepEquality {
  import opened Wrappers
  import opened Json

  /**
   * Deep equality: scalars are equal when identical; arrays when they have
   * the same length and equal elements; mappings when they have as many keys
   * and each key of the first holds an equal value in the second.
   */
  predicate DeepEqual(a: Node, b: Node)
    decreases a
  {
    match a
    case Arr(xs) =>
      b.Arr? && |xs| == |b.items|
      && forall i :: 0 <= i < |xs| ==> DeepEqual(xs[i], b.items[i])
    case Obj(es) =>
      b.Obj? && |es| == |b.entries|
      && forall i :: 0 <= i < |es| ==>
           HasKey(b.entries, es[i].0) && DeepEqual(es[i].1, Lookup(b.entries, es[i].0).value)
    case _ => a == b
  }

  /** The set of keys of a mapping. */
  function KeySet(es: Entries): (ks: set<string>)
    ensures forall k :: k in ks <==> HasKey(es, k)
    decreases |es|
  {
    if es == [] then {}
    else
      var prefix := es[..|es| - 1];
      var r := KeySet(prefix) + {es[|es| - 1].0};
      assert forall k :: HasKey(es, k) <==> HasKey(prefix, k) || k == es[|es| - 1].0 by {
        forall k ensures HasKey(es, k) <==> HasKey(prefix, k) || k == es[|es| - 1].0 {
          if HasKey(es, k) {
            var i := FindKey(es, k).value;
            if i < |es| - 1 { assert prefix[i].0 == k; }
          }
          if HasKey(prefix, k) {
            assert es[FindKey(prefix, k).value].0 == k;
          }
        }
      }
      r
  }

  /** Distinct keys: as many keys as entries. */
  lemma {:induction false} KeySetSize(es: Entries)
    requires UniqueKeys(es)
    ensures |KeySet(es)| == |es|
    decreases |es|
  {
    if es != [] {
      var prefix := es[..|es| - 1];
      assert UniqueKeys(prefix);
      KeySetSize(prefix);
      assert !HasKey(prefix, es[|es| - 1].0);
    }
  }

  lemma SubsetOfSameSize(a: set<string>, b: set<string>)
    requires a <= b && |a| == |b|
    ensures a == b
  {
    assert |b - a| == |b| - |a|;
  }

  /** On well-formed trees deep equality is reflexive. */
  lemma {:induction false} DeepEqualReflexive(a: Node)
    requires WellFormed(a)
    ensures DeepEqual(a, a)
    decreases a
  {
    match a
    case Arr(xs) =>
      forall i | 0 <= i < |xs| ensures DeepEqual(xs[i], xs[i]) {
        DeepEqualReflexive(xs[i]);
      }
    case Obj(es) =>
      forall i | 0 <= i < |es|
        ensures HasKey(es, es[i].0) && DeepEqual(es[i].1, Lookup(es, es[i].0).value)
      {
        LookupAt(es, i);
        DeepEqualReflexive(es[i].1);
      }
    case _ =>
  }

  /** On well-formed trees deep equality is symmetric. */
  lemma {:induction false} DeepEqualSymmetric(a: Node, b: Node)
    requires WellFormed(a) && WellFormed(b) && DeepEqual(a, b)
    ensures DeepEqual(b, a)
    decreases a
  {
    match a
    case Arr(xs) =>
      forall i | 0 <= i < |xs| ensures DeepEqual(b.items[i], xs[i]) {
        DeepEqualSymmetric(xs[i], b.items[i]);
      }
    case Obj(ea) =>
      var eb := b.entries;
      KeySetSize(ea);
      KeySetSize(eb);
      assert KeySet(ea) <= KeySet(eb) by {
        forall k | k in KeySet(ea) ensures k in KeySet(eb) {
          assert ea[FindKey(ea, k).value].0 == k;
        }
      }
      SubsetOfSameSize(KeySet(ea), KeySet(eb));
      forall j | 0 <= j < |eb|
        ensures HasKey(ea, eb[j].0) && DeepEqual(eb[j].1, Lookup(ea, eb[j].0).value)
      {
        var k := eb[j].0;
        LookupAt(eb, j);
        assert k in KeySet(eb);
        var i := FindKey(ea, k).value;
        LookupAt(ea, i);
        assert DeepEqual(ea[i].1, eb[j].1);
        DeepEqualSymmetric(ea[i].1, eb[j].1);
      }
    case _ =>
  }

  /** Deep equality is transitive. */
  lemma {:induction false} DeepEqualTransitive(a: Node, b: Node, c: Node)
    requires DeepEqual(a, b) && DeepEqual(b, c)
    ensures DeepEqual(a, c)
    decreases a
  {
    match a
    case Arr(xs) =>
      forall i | 0 <= i < |xs| ensures DeepEqual(xs[i], c.items[i]) {
        DeepEqualTransitive(xs[i], b.items[i], c.items[i]);
      }
    case Obj(ea) =>
      var eb, ec := b.entries, c.entries;
      forall i | 0 <= i < |ea|
        ensures HasKey(ec, ea[i].0) && DeepEqual(ea[i].1, Lookup(ec, ea[i].0).value)
      {
        var k := ea[i].0;
        var j := FindKey(eb, k).value;
        assert eb[j].0 == k;
        DeepEqualTransitive(ea[i].1, eb[j].1, Lookup(ec, k).value);
      }
    case _ =>
  }

  /** Insertion order is invisible to deep equality. */
  lemma KeyOrderIgnored(k1: string, v1: Node, k2: string, v2: Node)
    requires k1 != k2 && WellFormed(v1) && WellFormed(v2)
    ensures DeepEqual(Obj([(k1, v1), (k2, v2)]), Obj([(k2, v2), (k1, v1)]))
    ensures Obj([(k1, v1), (k2, v2)]) != Obj([(k2, v2), (k1, v1)])
  {
    DeepEqualReflexive(v1);
    DeepEqualReflexive(v2);
    var a := [(k1, v1), (k2, v2)];
    var b := [(k2, v2), (k1, v1)];
    assert Lookup(b, k1) == Some(v1) by { LookupAt(b, 1); }
    assert Lookup(b, k2) == Some(v2) by { LookupAt(b, 0); }
  }
}
