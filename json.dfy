/**
 * JSON-like trees as the workflow templates hold them: scalars, ordered
 * arrays and mappings whose string keys keep their insertion order.
 * Array positions are named by canonical decimal strings, as
 * `Object.entries` and the `in` operator name them.
 */
module Json {
  import opened Wrappers

  /** A JSON-like value. Numbers are modelled as integers. */
  datatype Node =
    | Null
    | Bool(b: bool)
    | Num(n: int)
    | Str(s: string)
    | Arr(items: seq<Node>)
    | Obj(entries: seq<(string, Node)>)

  /** The entries of a mapping, in insertion order. */
  type Entries = seq<(string, Node)>

  /** A location inside a tree: one key per level, array positions as decimal strings. */
  type Path = seq<string>

  // ---------------------------------------------------------------------
  // Keys of a mapping
  // ---------------------------------------------------------------------

  /** No key occurs twice among the entries. */
  predicate UniqueKeys(es: Entries) {
    forall i, j :: 0 <= i < j < |es| ==> es[i].0 != es[j].0
  }

  /** Every mapping anywhere inside `n` has unique keys. */
  predicate WellFormed(n: Node)
    decreases n
  {
    match n
    case Arr(items) => forall i :: 0 <= i < |items| ==> WellFormed(items[i])
    case Obj(es) => UniqueKeys(es) && forall i :: 0 <= i < |es| ==> WellFormed(es[i].1)
    case _ => true
  }

  function FindKeyFrom(es: Entries, k: string, from: nat): (r: Option<nat>)
    requires from <= |es|
    ensures r.Some? ==> from <= r.value < |es| && es[r.value].0 == k
                        && forall j :: from <= j < r.value ==> es[j].0 != k
    ensures r.None? ==> forall j :: from <= j < |es| ==> es[j].0 != k
    decreases |es| - from
  {
    if from == |es| then None
    else if es[from].0 == k then Some(from)
    else FindKeyFrom(es, k, from + 1)
  }

  /** The position of the first entry with key `k`, if any. */
  function FindKey(es: Entries, k: string): (r: Option<nat>)
    ensures r.Some? ==> r.value < |es| && es[r.value].0 == k
                        && forall j :: 0 <= j < r.value ==> es[j].0 != k
    ensures r.None? <==> forall j :: 0 <= j < |es| ==> es[j].0 != k
  {
    FindKeyFrom(es, k, 0)
  }

  /** `k` is one of the keys. */
  predicate HasKey(es: Entries, k: string) {
    FindKey(es, k).Some?
  }

  /** The value stored under `k` (the source's `object[k]`). */
  function Lookup(es: Entries, k: string): (r: Option<Node>)
    ensures r.Some? <==> HasKey(es, k)
  {
    match FindKey(es, k)
    case Some(i) => Some(es[i].1)
    case None => None
  }

  lemma LookupAt(es: Entries, i: nat)
    requires UniqueKeys(es) && i < |es|
    ensures FindKey(es, es[i].0) == Some(i)
    ensures Lookup(es, es[i].0) == Some(es[i].1)
  {
  }

  /**
   * `{...object, [k]: v}`: an existing key keeps its position and gets the
   * new value; a new key is appended.
   */
  function Set(es: Entries, k: string, v: Node): (r: Entries)
    ensures Lookup(r, k) == Some(v)
    ensures forall k' :: k' != k ==> Lookup(r, k') == Lookup(es, k')
    ensures |r| == if HasKey(es, k) then |es| else |es| + 1
    ensures forall i :: 0 <= i < |es| && es[i].0 != k ==> r[i] == es[i]
    ensures forall i :: 0 <= i < |es| ==> r[i].0 == es[i].0
    ensures UniqueKeys(es) ==> UniqueKeys(r)
  {
    match FindKey(es, k)
    case Some(i) =>
      var r := es[i := (k, v)];
      assert forall j :: 0 <= j < |es| ==> r[j].0 == es[j].0;
      assert FindKey(r, k) == Some(i);
      assert forall k' :: k' != k ==> FindKey(r, k') == FindKey(es, k') by {
        forall k' | k' != k ensures FindKey(r, k') == FindKey(es, k') {
          FindKeyIgnoresOther(es, i, k, v, k');
        }
      }
      r
    case None =>
      var r := es + [(k, v)];
      assert r[|es|].0 == k;
      assert FindKey(r, k) == Some(|es|);
      assert forall k' :: k' != k ==> FindKey(r, k') == FindKey(es, k') by {
        forall k' | k' != k ensures FindKey(r, k') == FindKey(es, k') {
          FindKeyIgnoresAppend(es, k, v, k');
        }
      }
      r
  }

  lemma FindKeyIgnoresOther(es: Entries, i: nat, k: string, v: Node, k': string)
    requires i < |es| && es[i].0 == k && k' != k
    ensures FindKey(es[i := (k, v)], k') == FindKey(es, k')
  {
    var r := es[i := (k, v)];
    assert forall j :: 0 <= j < |es| ==> (r[j].0 == k' <==> es[j].0 == k');
    var a, b := FindKey(r, k'), FindKey(es, k');
    if a.Some? && b.Some? {
      assert !(a.value < b.value) && !(b.value < a.value);
    }
  }

  lemma FindKeyIgnoresAppend(es: Entries, k: string, v: Node, k': string)
    requires k' != k
    ensures FindKey(es + [(k, v)], k') == FindKey(es, k')
  {
    var r := es + [(k, v)];
    assert forall j :: 0 <= j < |es| ==> r[j] == es[j];
    assert r[|es|].0 != k';
    var a, b := FindKey(r, k'), FindKey(es, k');
    if a.Some? {
      assert a.value < |es|;
      assert b.Some? && !(a.value < b.value) && !(b.value < a.value);
    } else {
      assert b.None?;
    }
  }

  /**
   * `Object.fromEntries(pairs)`: later pairs overwrite earlier ones with
   * the same key, which keeps the position of its first occurrence.
   */
  function FromEntries(pairs: Entries): (r: Entries)
    ensures UniqueKeys(r)
    decreases |pairs|
  {
    if pairs == [] then []
    else
      var prefix := pairs[..|pairs| - 1];
      var last := pairs[|pairs| - 1];
      Set(FromEntries(prefix), last.0, last.1)
  }

  /** With distinct keys, `Object.fromEntries` gives back exactly its pairs. */
  lemma {:induction false} FromEntriesOfUnique(pairs: Entries)
    requires UniqueKeys(pairs)
    ensures FromEntries(pairs) == pairs
    decreases |pairs|
  {
    if pairs != [] {
      var prefix := pairs[..|pairs| - 1];
      var last := pairs[|pairs| - 1];
      assert UniqueKeys(prefix);
      FromEntriesOfUnique(prefix);
      assert FindKey(prefix, last.0).None?;
      assert prefix + [last] == pairs;
    }
  }

  /** `Object.fromEntries` holds exactly the keys of its pairs. */
  lemma FromEntriesKeys(pairs: Entries)
    ensures forall k :: HasKey(FromEntries(pairs), k) <==> exists i :: 0 <= i < |pairs| && pairs[i].0 == k
  {
    forall k ensures HasKey(FromEntries(pairs), k) <==> exists i :: 0 <= i < |pairs| && pairs[i].0 == k {
      FromEntriesHasKey(pairs, k);
    }
  }

  lemma {:induction false} FromEntriesHasKey(pairs: Entries, k: string)
    ensures HasKey(FromEntries(pairs), k) <==> exists i :: 0 <= i < |pairs| && pairs[i].0 == k
    decreases |pairs|
  {
    if pairs != [] {
      var prefix := pairs[..|pairs| - 1];
      var last := pairs[|pairs| - 1];
      var f := FromEntries(prefix);
      assert FromEntries(pairs) == Set(f, last.0, last.1);
      FromEntriesHasKey(prefix, k);
      if k == last.0 {
        assert pairs[|pairs| - 1].0 == k;
      } else {
        assert HasKey(FromEntries(pairs), k) == HasKey(f, k);
        KeyOfPrefix(pairs, prefix, k);
      }
    }
  }

  lemma KeyOfPrefix(pairs: Entries, prefix: Entries, k: string)
    requires pairs != [] && prefix == pairs[..|pairs| - 1] && pairs[|pairs| - 1].0 != k
    ensures (exists i :: 0 <= i < |pairs| && pairs[i].0 == k) <==> exists i :: 0 <= i < |prefix| && prefix[i].0 == k
  {
    if i :| 0 <= i < |pairs| && pairs[i].0 == k {
      assert prefix[i].0 == k;
    }
  }

  /** Under `Object.fromEntries`, a key holds the value of the last pair that names it. */
  lemma {:induction false} FromEntriesLastWins(pairs: Entries, i: nat)
    requires i < |pairs| && forall j :: i < j < |pairs| ==> pairs[j].0 != pairs[i].0
    ensures Lookup(FromEntries(pairs), pairs[i].0) == Some(pairs[i].1)
    decreases |pairs|
  {
    var prefix := pairs[..|pairs| - 1];
    if i < |pairs| - 1 {
      assert prefix[i] == pairs[i];
      assert forall j :: i < j < |prefix| ==> prefix[j] == pairs[j];
      FromEntriesLastWins(prefix, i);
    }
  }

  // ---------------------------------------------------------------------
  // Array positions as decimal strings
  // ---------------------------------------------------------------------

  predicate IsDigit(c: char) {
    '0' <= c <= '9'
  }

  predicate AllDigits(s: string) {
    forall i :: 0 <= i < |s| ==> IsDigit(s[i])
  }

  function Digit(d: nat): (c: char)
    requires d < 10
    ensures IsDigit(c) && (c as int) - ('0' as int) == d
  {
    ['0', '1', '2', '3', '4', '5', '6', '7', '8', '9'][d]
  }

  /** The decimal rendering of a natural number (`String(n)`). */
  function NatToString(n: nat): (s: string)
    ensures |s| > 0 && AllDigits(s)
    decreases n
  {
    if n < 10 then [Digit(n)] else NatToString(n / 10) + [Digit(n % 10)]
  }

  /** The value of a string of decimal digits. */
  function DigitsValue(s: string): nat
    requires AllDigits(s)
    decreases |s|
  {
    if s == [] then 0
    else DigitsValue(s[..|s| - 1]) * 10 + ((s[|s| - 1] as int) - ('0' as int))
  }

  /**
   * The array position a key names, if it is a canonical array index (the
   * property names an array owns: no sign, no leading zero, no blanks).
   */
  function ParseIndex(key: string): (r: Option<nat>)
    ensures r.Some? ==> NatToString(r.value) == key
  {
    if |key| > 0 && AllDigits(key) && NatToString(DigitsValue(key)) == key
    then Some(DigitsValue(key))
    else None
  }

  lemma {:induction false} DigitsValueOfNatToString(n: nat)
    ensures DigitsValue(NatToString(n)) == n
    decreases n
  {
    if n >= 10 {
      DigitsValueOfNatToString(n / 10);
      var s := NatToString(n);
      assert s[..|s| - 1] == NatToString(n / 10);
    }
  }

  /** Decimal rendering and index parsing are inverse. */
  lemma ParseIndexOfNatToString(n: nat)
    ensures ParseIndex(NatToString(n)) == Some(n)
  {
    DigitsValueOfNatToString(n);
  }

  lemma NatToStringInjective(a: nat, b: nat)
    requires NatToString(a) == NatToString(b)
    ensures a == b
  {
    ParseIndexOfNatToString(a);
    ParseIndexOfNatToString(b);
  }

  // ---------------------------------------------------------------------
  // Following a path
  // ---------------------------------------------------------------------

  /** The subtree of `n` at `p`, or None if some segment does not name a child. */
  function Resolve(n: Node, p: Path): Option<Node>
    decreases p
  {
    if p == [] then Some(n)
    else
      match n
      case Arr(items) =>
        (match ParseIndex(p[0])
         case Some(i) => if i < |items| then Resolve(items[i], p[1..]) else None
         case None => None)
      case Obj(es) =>
        (match Lookup(es, p[0])
         case Some(c) => Resolve(c, p[1..])
         case None => None)
      case _ => None
  }

  /**
   * One step down a mapping: the first key of a path selects the first
   * entry that carries it.
   */
  lemma ResolveEntry(es: Entries, i: nat, p: Path)
    requires i < |es| && p != [] && p[0] == es[i].0
    requires forall j :: 0 <= j < i ==> es[j].0 != es[i].0
    ensures Resolve(Obj(es), p) == Resolve(es[i].1, p[1..])
  {
    LookupEntry(es, i);
  }

  /** Following a one-key path to the first entry carrying that key. */
  lemma ResolveKey(es: Entries, i: nat, key: string)
    requires i < |es| && es[i].0 == key
    requires forall j :: 0 <= j < i ==> es[j].0 != key
    ensures Resolve(Obj(es), [key]) == Some(es[i].1)
  {
    LookupEntry(es, i);
  }

  /** The first entry carrying a key is the one a lookup finds. */
  lemma LookupEntry(es: Entries, i: nat)
    requires i < |es|
    requires forall j :: 0 <= j < i ==> es[j].0 != es[i].0
    ensures Lookup(es, es[i].0) == Some(es[i].1)
  {
    var r := FindKey(es, es[i].0);
    assert r.Some?;
    assert !(r.value < i);
  }

  /** `n[k]` on a mapping; nothing on any other value. */
  function Field(n: Node, k: string): (r: Option<Node>)
    ensures r.Some? <==> n.Obj? && HasKey(n.entries, k)
    ensures n.Obj? ==> r == Resolve(n, [k])
  {
    assert [k][1..] == [];
    if n.Obj? then Lookup(n.entries, k) else None
  }

  /** Resolving a concatenated path resolves the second part from where the first ends. */
  lemma {:induction false} ResolveAppend(n: Node, p: Path, q: Path)
    requires Resolve(n, p).Some?
    ensures Resolve(n, p + q) == Resolve(Resolve(n, p).value, q)
    decreases p
  {
    if p == [] {
      assert p + q == q;
    } else {
      assert (p + q)[0] == p[0] && (p + q)[1..] == p[1..] + q;
      match n
      case Arr(items) =>
        var i := ParseIndex(p[0]).value;
        ResolveAppend(items[i], p[1..], q);
      case Obj(es) =>
        ResolveAppend(Lookup(es, p[0]).value, p[1..], q);
    }
  }
}
