/**
 * Variable references inside workflow templates
 * (`VariableTemplate` in integration/shortcuts/lib/template.ts): finding the
 * location of every `{Type: "Variable", VariableName: string}` placeholder
 * in a parameter tree, and rebuilding a tree with one location filled in.
 */
module VariableTemplate {
  import opened Wrappers
  import opened Json

  /** The variable name written into placeholders when templates are edited by hand. */
  const PlaceholderVariableName := "var"

  /**
   * The reference-leaf shape: a mapping whose `Type` is the string
   * "Variable" and whose `VariableName` is a string; other keys are allowed.
   */
  predicate IsReferenceLeaf(n: Node) {
    && n.Obj?
    && Lookup(n.entries, "Type") == Some(Str("Variable"))
    && Lookup(n.entries, "VariableName").Some?
    && Lookup(n.entries, "VariableName").value.Str?
  }

  // ---------------------------------------------------------------------
  // Reference discovery
  // ---------------------------------------------------------------------

  /**
   * The paths of all reference leaves in `n`, each prefixed by `path`: a
   * leaf yields its own path and is not descended into, a scalar yields
   * nothing, and any other array or mapping yields the concatenation of its
   * children's paths in entry order.
   */
  function References(n: Node, path: Path): seq<Path>
    decreases n
  {
    if IsReferenceLeaf(n) then [path]
    else
      match n
      case Arr(items) => ItemsReferences(items, path, |items|)
      case Obj(es) => EntriesReferences(es, path, |es|)
      case _ => []
  }

  /** The references of the first `k` array elements; element `i` is under key `String(i)`. */
  function ItemsReferences(items: seq<Node>, path: Path, k: nat): seq<Path>
    requires k <= |items|
    decreases items, k
  {
    if k == 0 then []
    else ItemsReferences(items, path, k - 1) + References(items[k - 1], path + [NatToString(k - 1)])
  }

  /** The references of the first `k` entries of a mapping. */
  function EntriesReferences(es: Entries, path: Path, k: nat): seq<Path>
    requires k <= |es|
    decreases Obj(es), k
  {
    if k == 0 then []
    else EntriesReferences(es, path, k - 1) + References(es[k - 1].1, path + [es[k - 1].0])
  }

  /** `Object.entries(n)`: array elements under their decimal positions, or a mapping's entries. */
  function Children(n: Node): (es: Entries)
    ensures n.Arr? ==> |es| == |n.items|
                       && forall i :: 0 <= i < |es| ==> es[i] == (NatToString(i), n.items[i])
    ensures n.Obj? ==> es == n.entries
    ensures !n.Arr? && !n.Obj? ==> es == []
  {
    match n
    case Arr(items) => seq(|items|, i requires 0 <= i < |items| => (NatToString(i), items[i]))
    case Obj(es) => es
    case _ => []
  }

  /** The references found among the first `k` children of an array or mapping. */
  function ChildrenReferences(n: Node, path: Path, k: nat): seq<Path>
    requires n.Arr? || n.Obj?
    requires k <= |Children(n)|
  {
    match n
    case Arr(items) => ItemsReferences(items, path, k)
    case Obj(es) => EntriesReferences(es, path, k)
  }

  /** `q` extends `path` and the rest of `q` leads from `n` to a reference leaf. */
  predicate LeadsToReference(n: Node, path: Path, q: Path) {
    && |path| <= |q|
    && q[..|path|] == path
    && Resolve(n, q[|path|..]).Some?
    && IsReferenceLeaf(Resolve(n, q[|path|..]).value)
  }

  /**
   * `getVariableReferences`: the loop over `Object.entries` that
   * concatenates each child's references.
   */
  method GetVariableReferences(n: Node, path: Path) returns (paths: seq<Path>)
    ensures paths == References(n, path)
    ensures !n.Arr? && !n.Obj? ==> paths == []
    ensures IsReferenceLeaf(n) ==> paths == [path]
    ensures WellFormed(n) ==> forall q :: q in paths ==> LeadsToReference(n, path, q)
    decreases n
  {
    if !n.Arr? && !n.Obj? {
      return [];
    }
    if IsReferenceLeaf(n) {
      return [path];
    }
    var es := Children(n);
    paths := [];
    var i := 0;
    while i < |es|
      invariant 0 <= i <= |es|
      invariant paths == ChildrenReferences(n, path, i)
    {
      var key, value := es[i].0, es[i].1;
      assert value == if n.Arr? then n.items[i] else n.entries[i].1;
      var found := GetVariableReferences(value, path + [key]);
      paths := paths + found;
      i := i + 1;
    }
    if WellFormed(n) {
      forall q | q in paths ensures LeadsToReference(n, path, q) {
        ReferencesSound(n, path, q);
      }
    }
  }

  /** A reference reached through the child under `key` is reached from its parent. */
  lemma LeadsThroughChild(n: Node, path: Path, key: string, child: Node, q: Path)
    requires LeadsToReference(child, path + [key], q)
    requires Resolve(n, q[|path|..]) == Resolve(child, q[|path| + 1..])
    ensures LeadsToReference(n, path, q)
  {
    assert q[..|path|] == q[..|path| + 1][..|path|];
  }

  /** A reference found in a child of an array is a reference of the array. */
  lemma {:induction false} ItemsReferencesSound(items: seq<Node>, path: Path, k: nat, q: Path)
    requires k <= |items| && q in ItemsReferences(items, path, k)
    requires forall i :: 0 <= i < |items| ==> WellFormed(items[i])
    ensures LeadsToReference(Arr(items), path, q)
    decreases items, k
  {
    var prev := ItemsReferences(items, path, k - 1);
    if q in prev {
      ItemsReferencesSound(items, path, k - 1, q);
    } else {
      ItemReferenceSound(items, path, k - 1, q);
    }
  }

  lemma {:induction false} ItemReferenceSound(items: seq<Node>, path: Path, j: nat, q: Path)
    requires j < |items| && q in References(items[j], path + [NatToString(j)])
    requires WellFormed(items[j])
    ensures LeadsToReference(Arr(items), path, q)
    decreases items, 0
  {
    var key := NatToString(j);
    ReferencesSound(items[j], path + [key], q);
    var p := q[|path|..];
    assert p[0] == key && p[1..] == q[|path| + 1..];
    ParseIndexOfNatToString(j);
    assert Resolve(Arr(items), p) == Resolve(items[j], p[1..]);
    LeadsThroughChild(Arr(items), path, key, items[j], q);
  }

  /** A reference found in an entry of a mapping is a reference of the mapping. */
  lemma {:induction false} EntriesReferencesSound(es: Entries, path: Path, k: nat, q: Path)
    requires k <= |es| && q in EntriesReferences(es, path, k)
    requires UniqueKeys(es) && forall i :: 0 <= i < |es| ==> WellFormed(es[i].1)
    ensures LeadsToReference(Obj(es), path, q)
    decreases Obj(es), k
  {
    var prev := EntriesReferences(es, path, k - 1);
    if q in prev {
      EntriesReferencesSound(es, path, k - 1, q);
    } else {
      EntryReferenceSound(es, path, k - 1, q);
    }
  }

  lemma {:induction false} EntryReferenceSound(es: Entries, path: Path, j: nat, q: Path)
    requires j < |es| && q in References(es[j].1, path + [es[j].0])
    requires UniqueKeys(es) && WellFormed(es[j].1)
    ensures LeadsToReference(Obj(es), path, q)
    decreases Obj(es), 0
  {
    var key := es[j].0;
    ReferencesSound(es[j].1, path + [key], q);
    var p := q[|path|..];
    assert p[0] == key && p[1..] == q[|path| + 1..];
    ResolveEntry(es, j, p);
    LeadsThroughChild(Obj(es), path, key, es[j].1, q);
  }

  /**
   * Every discovered path extends the starting path and leads to a
   * reference leaf of the tree.
   */
  lemma {:induction false} ReferencesSound(n: Node, path: Path, q: Path)
    requires WellFormed(n) && q in References(n, path)
    ensures LeadsToReference(n, path, q)
    decreases n
  {
    if IsReferenceLeaf(n) {
      assert q == path;
      assert q[|path|..] == [];
    } else {
      match n
      case Arr(items) => ItemsReferencesSound(items, path, |items|, q);
      case Obj(es) => EntriesReferencesSound(es, path, |es|, q);
    }
  }

  /** The references of an early element are among those of a longer prefix. */
  lemma {:induction false} ItemsReferencesInclude(items: seq<Node>, path: Path, k: nat, j: nat, q: Path)
    requires j < k <= |items| && q in References(items[j], path + [NatToString(j)])
    ensures q in ItemsReferences(items, path, k)
    decreases k
  {
    if j < k - 1 {
      ItemsReferencesInclude(items, path, k - 1, j, q);
    }
  }

  lemma {:induction false} EntriesReferencesInclude(es: Entries, path: Path, k: nat, j: nat, q: Path)
    requires j < k <= |es| && q in References(es[j].1, path + [es[j].0])
    ensures q in EntriesReferences(es, path, k)
    decreases k
  {
    if j < k - 1 {
      EntriesReferencesInclude(es, path, k - 1, j, q);
    }
  }

  /** No proper prefix of `p` leads from `n` to a reference leaf. */
  predicate NotUnderReference(n: Node, p: Path) {
    forall m :: 0 <= m < |p| ==>
      !(Resolve(n, p[..m]).Some? && IsReferenceLeaf(Resolve(n, p[..m]).value))
  }

  /**
   * Conversely, every reference leaf that does not sit inside another
   * reference leaf is discovered.
   */
  lemma {:induction false} ReferencesComplete(n: Node, path: Path, p: Path)
    requires Resolve(n, p).Some? && IsReferenceLeaf(Resolve(n, p).value)
    requires NotUnderReference(n, p)
    ensures path + p in References(n, path)
    decreases p
  {
    if p == [] {
      assert path + p == path;
    } else {
      assert p[..0] == [];
      assert !IsReferenceLeaf(n);
      var key, rest := p[0], p[1..];
      assert path + p == (path + [key]) + rest;
      match n
      case Arr(items) =>
        var j := ParseIndex(key).value;
        var child := items[j];
        forall m | 0 <= m < |rest|
          ensures !(Resolve(child, rest[..m]).Some? && IsReferenceLeaf(Resolve(child, rest[..m]).value))
        {
          assert p[..m + 1] == [key] + rest[..m];
          assert Resolve(n, p[..m + 1]) == Resolve(child, rest[..m]);
        }
        ReferencesComplete(child, path + [key], rest);
        ItemsReferencesInclude(items, path, |items|, j, path + p);
      case Obj(es) =>
        var j := FindKey(es, key).value;
        var child := es[j].1;
        forall m | 0 <= m < |rest|
          ensures !(Resolve(child, rest[..m]).Some? && IsReferenceLeaf(Resolve(child, rest[..m]).value))
        {
          assert p[..m + 1] == [key] + rest[..m];
          assert Resolve(n, p[..m + 1]) == Resolve(child, rest[..m]);
        }
        ReferencesComplete(child, path + [key], rest);
        EntriesReferencesInclude(es, path, |es|, j, path + p);
    }
  }

  // ---------------------------------------------------------------------
  // Substitution
  // ---------------------------------------------------------------------

  /** Why a substitution path could not be followed. */
  datatype ApplyError =
    | InvalidPath(path: Path)       // the key is not in the mapping or array
    | InvalidArrayIndex(key: string) // an array key that is not a number
    | NotAnObject(key: string)       // `in` used on a scalar

  /** `{...s}` of a string: one entry per character, under its position. */
  function StringSpread(s: string): Entries {
    seq(|s|, i requires 0 <= i < |s| => (NatToString(i), Str([s[i]])))
  }

  /** The spread of a string has unique digit keys, none of them `VariableName`, and scalar values. */
  lemma StringSpreadWellFormed(s: string)
    ensures WellFormed(Obj(StringSpread(s)))
    ensures !HasKey(StringSpread(s), "VariableName")
  {
    var spread := StringSpread(s);
    forall i, j | 0 <= i < j < |spread| ensures spread[i].0 != spread[j].0 {
      if spread[i].0 == spread[j].0 { NatToStringInjective(i, j); }
    }
    forall i | 0 <= i < |spread| ensures spread[i].0 != "VariableName" {
      assert AllDigits(spread[i].0);
      assert !IsDigit("VariableName"[0]);
    }
  }

  /** Setting a well-formed value in a well-formed mapping keeps it well-formed. */
  lemma SetWellFormed(es: Entries, k: string, v: Node)
    ensures WellFormed(Obj(es)) && WellFormed(v) ==> WellFormed(Obj(Set(es, k, v)))
  {
    if WellFormed(Obj(es)) && WellFormed(v) {
      var r := Set(es, k, v);
      forall i | 0 <= i < |r| ensures WellFormed(r[i].1) {
        if i < |es| && es[i].0 != k {
          assert r[i] == es[i];
        } else {
          assert Lookup(r, r[i].0) == Some(v);
          LookupAt(r, i);
        }
      }
    }
  }

  /** Replacing an element of a well-formed array by a well-formed value keeps it well-formed. */
  lemma ReplaceItemWellFormed(items: seq<Node>, index: nat, c: Node)
    requires index < |items|
    ensures WellFormed(Arr(items)) && WellFormed(c) ==> WellFormed(Arr(items[..index] + [c] + items[index + 1..]))
  {
    var r := items[..index] + [c] + items[index + 1..];
    assert forall i :: 0 <= i < |r| ==> r[i] == (if i == index then c else items[i]);
  }

  /**
   * Filling the hole at the end of a path: an array gets `variableId`
   * appended; anything else becomes a copy of its spread with `VariableName`
   * set to `variableId`.
   */
  function FillHole(n: Node, variableId: string): (r: Node)
    ensures n.Arr? ==> r.Arr? && |r.items| == |n.items| + 1
                       && r.items[..|n.items|] == n.items && r.items[|n.items|] == Str(variableId)
    ensures !n.Arr? ==> r.Obj? && Lookup(r.entries, "VariableName") == Some(Str(variableId))
    ensures n.Obj? ==> forall k :: k != "VariableName" ==> Lookup(r.entries, k) == Lookup(n.entries, k)
    ensures n.Obj? ==> forall k :: HasKey(r.entries, k) <==> HasKey(n.entries, k) || k == "VariableName"
    ensures WellFormed(n) ==> WellFormed(r)
  {
    match n
    case Arr(items) =>
      var r := items + [Str(variableId)];
      assert forall i :: 0 <= i < |r| ==> r[i] == if i < |items| then items[i] else Str(variableId);
      Arr(r)
    case Obj(es) =>
      SetWellFormed(es, "VariableName", Str(variableId));
      Obj(Set(es, "VariableName", Str(variableId)))
    case Str(s) =>
      StringSpreadWellFormed(s);
      SetWellFormed(StringSpread(s), "VariableName", Str(variableId));
      Obj(Set(StringSpread(s), "VariableName", Str(variableId)))
    case _ => Obj([("VariableName", Str(variableId))])
  }

  /** The key is in the array as the `in` operator sees it. */
  predicate InArray(key: string, items: seq<Node>) {
    (ParseIndex(key).Some? && ParseIndex(key).value < |items|) || key == "length"
  }

  /**
   * `applyVariableReferenceToPath`: a copy of `n` with the location at
   * `path` filled with `variableId`, rebuilt along the path; the input is a
   * value and is left as it was.
   */
  function Apply(n: Node, path: Path, variableId: string): (r: Result<Node, ApplyError>)
    ensures r.Ok? && WellFormed(n) ==> WellFormed(r.value)
    decreases path
  {
    if path == [] then Ok(FillHole(n, variableId))
    else
      var key, rest := path[0], path[1..];
      match n
      case Arr(items) =>
        if !InArray(key, items) then Err(InvalidPath(path))
        else if key == "length" then Err(InvalidArrayIndex(key))
        else
          var index := ParseIndex(key).value;
          (match Apply(items[index], rest, variableId)
           case Ok(c) =>
             ReplaceItemWellFormed(items, index, c);
             Ok(Arr(items[..index] + [c] + items[index + 1..]))
           case Err(e) => Err(e))
      case Obj(es) =>
        (match Lookup(es, key)
         case Some(child) =>
           (match Apply(child, rest, variableId)
            case Ok(c) =>
              SetWellFormed(es, key, c);
              Ok(Obj(Set(es, key, c)))
            case Err(e) => Err(e))
         case None => Err(InvalidPath(path)))
      case _ => Err(NotAnObject(key))
  }

  /** A missing mapping key fails with the remaining path. */
  lemma ApplyFailsOnMissingKey(es: Entries, path: Path, variableId: string)
    requires path != [] && !HasKey(es, path[0])
    ensures Apply(Obj(es), path, variableId) == Err(InvalidPath(path))
  {
  }

  /** An array key that is not a position of the array fails. */
  lemma ApplyFailsOnNonIndex(items: seq<Node>, path: Path, variableId: string)
    requires path != [] && (ParseIndex(path[0]).None? || ParseIndex(path[0]).value >= |items|)
    ensures Apply(Arr(items), path, variableId) ==
              if path[0] == "length" then Err(InvalidArrayIndex(path[0])) else Err(InvalidPath(path))
  {
  }

  /** `in` on a scalar throws. */
  lemma ApplyFailsOnScalar(n: Node, path: Path, variableId: string)
    requires path != [] && !n.Arr? && !n.Obj?
    ensures Apply(n, path, variableId) == Err(NotAnObject(path[0]))
  {
  }

  /**
   * Along a non-empty path only the child named by the head changes: an
   * array keeps its length and every other element; a mapping keeps its
   * keys and every other value.
   */
  lemma ApplyChangesOnlyHead(n: Node, path: Path, variableId: string)
    requires path != [] && Apply(n, path, variableId).Ok?
    ensures var r := Apply(n, path, variableId).value;
            match n
            case Arr(items) =>
              && ParseIndex(path[0]).Some?
              && var i := ParseIndex(path[0]).value;
              && i < |items|
              && r.Arr? && |r.items| == |items|
              && Apply(items[i], path[1..], variableId) == Ok(r.items[i])
              && forall j :: 0 <= j < |items| && j != i ==> r.items[j] == items[j]
            case Obj(es) =>
              && HasKey(es, path[0])
              && r.Obj? && |r.entries| == |es|
              && Apply(Lookup(es, path[0]).value, path[1..], variableId) == Ok(Lookup(r.entries, path[0]).value)
              && (forall k :: k != path[0] ==> Lookup(r.entries, k) == Lookup(es, k))
              && (forall j :: 0 <= j < |es| ==> r.entries[j].0 == es[j].0)
            case _ => false
  {
  }

  /**
   * Any path that resolves can be filled, and afterwards it resolves to the
   * filled-in version of what was there.
   */
  lemma {:induction false} ApplyAtResolvable(n: Node, p: Path, variableId: string)
    requires Resolve(n, p).Some?
    ensures Apply(n, p, variableId).Ok?
    ensures Resolve(Apply(n, p, variableId).value, p) == Some(FillHole(Resolve(n, p).value, variableId))
    decreases p
  {
    if p != [] {
      var key, rest := p[0], p[1..];
      match n
      case Arr(items) =>
        var i := ParseIndex(key).value;
        ApplyAtResolvable(items[i], rest, variableId);
      case Obj(es) =>
        ApplyAtResolvable(Lookup(es, key).value, rest, variableId);
    }
  }

  /**
   * Filling a discovered reference never fails, and the leaf then names
   * `variableId`, keeps its other keys, and is still a reference leaf.
   */
  lemma ApplyAtReference(n: Node, q: Path, variableId: string)
    requires WellFormed(n) && q in References(n, [])
    ensures Apply(n, q, variableId).Ok?
    ensures Resolve(n, q).Some? && IsReferenceLeaf(Resolve(n, q).value)
    ensures var leaf := Resolve(n, q).value;
            var filled := Resolve(Apply(n, q, variableId).value, q);
            && filled.Some? && filled.value.Obj?
            && Lookup(filled.value.entries, "VariableName") == Some(Str(variableId))
            && (forall k :: k != "VariableName" ==> Lookup(filled.value.entries, k) == Lookup(leaf.entries, k))
            && IsReferenceLeaf(filled.value)
  {
    ReferencesSound(n, [], q);
    assert q[0..] == q;
    ApplyAtResolvable(n, q, variableId);
  }

  /** Neither path is a prefix of the other: they part at some position. */
  predicate Diverge(p: Path, q: Path)
    decreases |p|
  {
    p != [] && q != [] && (p[0] != q[0] || Diverge(p[1..], q[1..]))
  }

  lemma SetTwice(es: Entries, k: string, v: Node, w: Node)
    ensures Set(Set(es, k, v), k, w) == Set(es, k, w)
  {
    match FindKey(es, k)
    case Some(i) =>
      assert FindKey(Set(es, k, v), k) == Some(i) by {
        assert Set(es, k, v) == es[i := (k, v)];
        assert forall j :: 0 <= j < |es| ==> Set(es, k, v)[j].0 == es[j].0;
      }
    case None =>
      var r := es + [(k, v)];
      assert FindKey(r, k) == Some(|es|) by {
        assert r[|es|].0 == k;
        assert forall j :: 0 <= j < |es| ==> r[j] == es[j];
      }
  }

  lemma SetCommutes(es: Entries, k1: string, v1: Node, k2: string, v2: Node)
    requires k1 != k2 && HasKey(es, k1) && HasKey(es, k2)
    ensures Set(Set(es, k1, v1), k2, v2) == Set(Set(es, k2, v2), k1, v1)
  {
    var i1, i2 := FindKey(es, k1).value, FindKey(es, k2).value;
    FindKeyIgnoresOther(es, i1, k1, v1, k2);
    FindKeyIgnoresOther(es, i2, k2, v2, k1);
    assert es[i1 := (k1, v1)][i2 := (k2, v2)] == es[i2 := (k2, v2)][i1 := (k1, v1)];
  }

  /** One step of a substitution into an array, read in both directions. */
  lemma ApplyArrayStep(items: seq<Node>, p: Path, a: string)
    requires p != []
    ensures Apply(Arr(items), p, a).Ok? <==>
              ParseIndex(p[0]).Some? && ParseIndex(p[0]).value < |items|
              && Apply(items[ParseIndex(p[0]).value], p[1..], a).Ok?
    ensures Apply(Arr(items), p, a).Ok? ==>
              var i := ParseIndex(p[0]).value;
              Apply(Arr(items), p, a).value == Arr(items[i := Apply(items[i], p[1..], a).value])
  {
    if ParseIndex(p[0]).Some? && ParseIndex(p[0]).value < |items| {
      var i := ParseIndex(p[0]).value;
      assert p[0] != "length";
      if Apply(items[i], p[1..], a).Ok? {
        var c := Apply(items[i], p[1..], a).value;
        assert items[..i] + [c] + items[i + 1..] == items[i := c];
      }
    }
  }

  /** One step of a substitution into a mapping, read in both directions. */
  lemma ApplyObjectStep(es: Entries, p: Path, a: string)
    requires p != []
    ensures Apply(Obj(es), p, a).Ok? <==>
              HasKey(es, p[0]) && Apply(Lookup(es, p[0]).value, p[1..], a).Ok?
    ensures Apply(Obj(es), p, a).Ok? ==>
              Apply(Obj(es), p, a).value == Obj(Set(es, p[0], Apply(Lookup(es, p[0]).value, p[1..], a).value))
  {
  }

  lemma {:induction false} ApplyCommutesInArray(items: seq<Node>, p: Path, a: string, q: Path, b: string)
    requires Diverge(p, q)
    requires Apply(Arr(items), p, a).Ok? && Apply(Arr(items), q, b).Ok?
    ensures Apply(Apply(Arr(items), p, a).value, q, b).Ok?
    ensures Apply(Apply(Arr(items), p, a).value, q, b) == Apply(Apply(Arr(items), q, b).value, p, a)
    decreases |p|, 0
  {
    ApplyArrayStep(items, p, a);
    ApplyArrayStep(items, q, b);
    var i, j := ParseIndex(p[0]).value, ParseIndex(q[0]).value;
    var cp, cq := Apply(items[i], p[1..], a).value, Apply(items[j], q[1..], b).value;
    var np, nq := items[i := cp], items[j := cq];
    ApplyArrayStep(np, q, b);
    ApplyArrayStep(nq, p, a);
    if p[0] != q[0] {
      assert i != j;
      assert np[j := cq] == nq[i := cp];
    } else {
      ApplyCommutes(items[i], p[1..], a, q[1..], b);
      assert np[i := Apply(cp, q[1..], b).value] == nq[i := Apply(cq, p[1..], a).value];
    }
  }

  lemma {:induction false} ApplyCommutesInObject(es: Entries, p: Path, a: string, q: Path, b: string)
    requires Diverge(p, q)
    requires Apply(Obj(es), p, a).Ok? && Apply(Obj(es), q, b).Ok?
    ensures Apply(Apply(Obj(es), p, a).value, q, b).Ok?
    ensures Apply(Apply(Obj(es), p, a).value, q, b) == Apply(Apply(Obj(es), q, b).value, p, a)
    decreases |p|, 0
  {
    ApplyObjectStep(es, p, a);
    ApplyObjectStep(es, q, b);
    var cp := Apply(Lookup(es, p[0]).value, p[1..], a).value;
    var cq := Apply(Lookup(es, q[0]).value, q[1..], b).value;
    var np, nq := Set(es, p[0], cp), Set(es, q[0], cq);
    ApplyObjectStep(np, q, b);
    ApplyObjectStep(nq, p, a);
    if p[0] != q[0] {
      SetCommutes(es, p[0], cp, q[0], cq);
    } else {
      var child := Lookup(es, p[0]).value;
      ApplyCommutes(child, p[1..], a, q[1..], b);
      SetTwice(es, p[0], cp, Apply(cp, q[1..], b).value);
      SetTwice(es, q[0], cq, Apply(cq, p[1..], a).value);
    }
  }

  /**
   * Substitutions at diverging paths commute: filling them in either order
   * gives the same tree.
   */
  lemma {:induction false} ApplyCommutes(n: Node, p: Path, a: string, q: Path, b: string)
    requires Diverge(p, q)
    requires Apply(n, p, a).Ok? && Apply(n, q, b).Ok?
    ensures Apply(Apply(n, p, a).value, q, b).Ok?
    ensures Apply(Apply(n, p, a).value, q, b) == Apply(Apply(n, q, b).value, p, a)
    decreases |p|, 1
  {
    match n
    case Arr(items) => ApplyCommutesInArray(items, p, a, q, b);
    case Obj(es) => ApplyCommutesInObject(es, p, a, q, b);
  }
}
