/** `fix_exercise_names` (fix_utf8_encoding.py:50-62): a walk over a loaded
    JSON document that repairs, in place, every string stored directly under
    the key `'es'`. */
module ExerciseNames {
  import opened JsonValue
  import opened TextRepair

  const Es := "es"

  // ---------------------------------------------------------------- the value-level walk

  /** What the walk makes of a value: under `'es'` a string is repaired, any
      other value is walked into; list items are walked into; scalars stay. */
  function FixTree(table: Table, j: Json): Json
    decreases j, 1
  {
    match j
    case JObj(entries) => JObj(FixEntries(table, j, entries))
    case JList(items) => JList(FixItems(table, j, items))
    case _ => j
  }

  function FixEntries(table: Table, ghost parent: Json, entries: seq<(string, Json)>): seq<(string, Json)>
    requires forall e :: e in entries ==> e.1 < parent
    decreases parent, 0, |entries|
  {
    if entries == [] then []
    else
      var e := entries[0];
      var fixed := if e.0 == Es && e.1.JStr? then (e.0, JStr(ApplyTable(table, e.1.s))) else (e.0, FixTree(table, e.1));
      [fixed] + FixEntries(table, parent, entries[1..])
  }

  function FixItems(table: Table, ghost parent: Json, items: seq<Json>): seq<Json>
    requires forall x :: x in items ==> x < parent
    decreases parent, 0, |items|
  {
    if items == [] then []
    else
      assert items[0] in items;
      assert forall x :: x in items[1..] ==> x in items;
      [FixTree(table, items[0])] + FixItems(table, parent, items[1..])
  }

  /** `b` is `a` with at most the strings stored directly under `'es'`
      replaced: the same constructors, keys in the same order, lists of the
      same length, every other scalar equal. */
  predicate OnlyEsChanged(a: Json, b: Json)
    decreases a
  {
    match a
    case JObj(ea) =>
      && b.JObj? && |ea| == |b.entries|
      && forall i :: 0 <= i < |ea| ==>
           && ea[i].0 == b.entries[i].0
           && if ea[i].0 == Es && ea[i].1.JStr? then b.entries[i].1.JStr?
              else OnlyEsChanged(ea[i].1, b.entries[i].1)
    case JList(xs) =>
      && b.JList? && |xs| == |b.items|
      && forall i :: 0 <= i < |xs| ==> OnlyEsChanged(xs[i], b.items[i])
    case _ => a == b
  }

  /** The walk changes nothing but strings directly under `'es'`. */
  lemma {:induction false} FixTreeOnlyEs(table: Table, j: Json)
    ensures OnlyEsChanged(j, FixTree(table, j))
    decreases j, 1
  {
    match j
    case JObj(entries) =>
      FixEntriesOnlyEs(table, j, entries);
    case JList(items) =>
      FixItemsOnlyEs(table, j, items);
    case _ =>
  }

  lemma {:induction false} FixEntriesOnlyEs(table: Table, parent: Json, entries: seq<(string, Json)>)
    requires forall e :: e in entries ==> e.1 < parent
    ensures var r := FixEntries(table, parent, entries);
      && |r| == |entries|
      && forall i :: 0 <= i < |entries| ==>
           && entries[i].0 == r[i].0
           && if entries[i].0 == Es && entries[i].1.JStr? then r[i].1.JStr?
              else OnlyEsChanged(entries[i].1, r[i].1)
    decreases parent, 0, |entries|
  {
    if entries != [] {
      assert entries[0] in entries;
      if !(entries[0].0 == Es && entries[0].1.JStr?) {
        FixTreeOnlyEs(table, entries[0].1);
      }
      assert forall e :: e in entries[1..] ==> e in entries;
      FixEntriesOnlyEs(table, parent, entries[1..]);
    }
  }

  lemma {:induction false} FixItemsOnlyEs(table: Table, parent: Json, items: seq<Json>)
    requires forall x :: x in items ==> x < parent
    ensures var r := FixItems(table, parent, items);
      && |r| == |items|
      && forall i :: 0 <= i < |items| ==> OnlyEsChanged(items[i], r[i])
    decreases parent, 0, |items|
  {
    if items != [] {
      assert items[0] in items;
      FixTreeOnlyEs(table, items[0]);
      assert forall x :: x in items[1..] ==> x in items;
      FixItemsOnlyEs(table, parent, items[1..]);
    }
  }

  /** No string under `'es'` holds the marker character `m`. */
  predicate EsUnmarked(j: Json, m: char)
    decreases j
  {
    match j
    case JObj(ea) =>
      forall i :: 0 <= i < |ea| ==>
        if ea[i].0 == Es && ea[i].1.JStr? then m !in ea[i].1.s else EsUnmarked(ea[i].1, m)
    case JList(xs) => forall i :: 0 <= i < |xs| ==> EsUnmarked(xs[i], m)
    case _ => true
  }

  /** When every pattern starts with `m` and no `'es'` string holds `m`, the
      walk returns the document unchanged. */
  lemma {:induction false} FixTreeUnmarked(table: Table, m: char, j: Json)
    requires MarkedPatterns(table, m) && EsUnmarked(j, m)
    ensures FixTree(table, j) == j
    decreases j, 1
  {
    match j
    case JObj(entries) =>
      FixEntriesUnmarked(table, m, j, entries);
    case JList(items) =>
      FixItemsUnmarked(table, m, j, items);
    case _ =>
  }

  lemma {:induction false} FixEntriesUnmarked(table: Table, m: char, parent: Json, entries: seq<(string, Json)>)
    requires forall e :: e in entries ==> e.1 < parent
    requires MarkedPatterns(table, m)
    requires forall i :: 0 <= i < |entries| ==>
      if entries[i].0 == Es && entries[i].1.JStr? then m !in entries[i].1.s else EsUnmarked(entries[i].1, m)
    ensures FixEntries(table, parent, entries) == entries
    decreases parent, 0, |entries|
  {
    if entries != [] {
      var e := entries[0];
      assert e in entries;
      if e.0 == Es && e.1.JStr? {
        ApplyUnmarked(table, m, e.1.s);
      } else {
        FixTreeUnmarked(table, m, e.1);
      }
      assert forall x :: x in entries[1..] ==> x in entries;
      assert forall i :: 0 <= i < |entries[1..]| ==> entries[1..][i] == entries[i + 1];
      FixEntriesUnmarked(table, m, parent, entries[1..]);
    }
  }

  lemma {:induction false} FixItemsUnmarked(table: Table, m: char, parent: Json, items: seq<Json>)
    requires forall x :: x in items ==> x < parent
    requires MarkedPatterns(table, m)
    requires forall i :: 0 <= i < |items| ==> EsUnmarked(items[i], m)
    ensures FixItems(table, parent, items) == items
    decreases parent, 0, |items|
  {
    if items != [] {
      assert items[0] in items;
      FixTreeUnmarked(table, m, items[0]);
      assert forall x :: x in items[1..] ==> x in items;
      assert forall i :: 0 <= i < |items[1..]| ==> items[1..][i] == items[i + 1];
      FixItemsUnmarked(table, m, parent, items[1..]);
    }
  }

  /** The walk entry by entry. */
  lemma {:induction false} FixEntriesAt(table: Table, parent: Json, entries: seq<(string, Json)>)
    requires forall e :: e in entries ==> e.1 < parent
    ensures var r := FixEntries(table, parent, entries);
      && |r| == |entries|
      && forall k :: 0 <= k < |entries| ==>
           r[k] == if entries[k].0 == Es && entries[k].1.JStr? then (Es, JStr(ApplyTable(table, entries[k].1.s)))
                   else (entries[k].0, FixTree(table, entries[k].1))
    decreases |entries|
  {
    if entries != [] {
      assert forall e :: e in entries[1..] ==> e in entries;
      FixEntriesAt(table, parent, entries[1..]);
      assert forall k :: 1 <= k < |entries| ==> entries[1..][k - 1] == entries[k];
    }
  }

  /** The walk item by item. */
  lemma {:induction false} FixItemsAt(table: Table, parent: Json, items: seq<Json>)
    requires forall x :: x in items ==> x < parent
    ensures var r := FixItems(table, parent, items);
      && |r| == |items|
      && forall k :: 0 <= k < |items| ==> r[k] == FixTree(table, items[k])
    decreases |items|
  {
    if items != [] {
      assert forall x :: x in items[1..] ==> x in items;
      FixItemsAt(table, parent, items[1..]);
      assert forall k :: 1 <= k < |items| ==> items[1..][k - 1] == items[k];
    }
  }

  // ---------------------------------------------------------------- the in-place walk

  /** A value held by a container: a scalar, or a reference to a nested dict or list. */
  datatype Val = VNull | VBool(b: bool) | VNum(n: int) | VStr(s: string) | VRef(node: Container)

  /** A dict (keys and values in insertion order) or a list (values only) of
      the loaded document, updated in place. */
  class Container {
    var isDict: bool
    var keys: seq<string>
    var vals: seq<Val>
    ghost var Repr: set<Container>

    /** A tree: every nested container lies in this one's footprint, not
        containing it, and siblings share nothing. */
    ghost predicate Valid()
      reads this, Repr
      decreases Repr
    {
      && this in Repr
      && (if isDict then |keys| == |vals| else keys == [])
      && (forall k :: 0 <= k < |vals| && vals[k].VRef? ==>
            && vals[k].node in Repr && vals[k].node.Repr <= Repr && this !in vals[k].node.Repr
            && vals[k].node.Valid())
      && (forall k, l :: 0 <= k < l < |vals| && vals[k].VRef? && vals[l].VRef? ==>
            vals[k].node.Repr !! vals[l].node.Repr)
    }

    /** The JSON value this container holds. */
    ghost function Model(): Json
      requires Valid()
      reads this, Repr
      decreases Repr, 3
    {
      if isDict then JObj(EntriesModel(|vals|)) else JList(ItemsModel(|vals|))
    }

    ghost function ValModel(k: nat): Json
      requires Valid() && k < |vals|
      reads this, Repr
      decreases Repr, 1
    {
      match vals[k]
      case VNull => JNull
      case VBool(b) => JBool(b)
      case VNum(n) => JNum(n)
      case VStr(s) => JStr(s)
      case VRef(c) => c.Model()
    }

    ghost function ItemsModel(n: nat): (r: seq<Json>)
      requires Valid() && n <= |vals|
      reads this, Repr
      ensures |r| == n && forall k :: 0 <= k < n ==> r[k] == ValModel(k)
      decreases Repr, 2, n
    {
      if n == 0 then [] else ItemsModel(n - 1) + [ValModel(n - 1)]
    }

    ghost function EntriesModel(n: nat): (r: seq<(string, Json)>)
      requires Valid() && isDict && n <= |vals|
      reads this, Repr
      ensures |r| == n && forall k :: 0 <= k < n ==> r[k] == (keys[k], ValModel(k))
      decreases Repr, 2, n
    {
      if n == 0 then [] else EntriesModel(n - 1) + [(keys[n - 1], ValModel(n - 1))]
    }
  }

  /** What the walk makes of a value held under a key: under `'es'` a string
      is repaired, anything else is walked into. */
  function FixVal(table: Table, underEs: bool, j: Json): Json {
    if underEs && j.JStr? then JStr(ApplyTable(table, j.s)) else FixTree(table, j)
  }

  /** `fix_exercise_names`: returns the value it was given; a container is
      repaired in place, so that it then holds what the value-level walk makes
      of what it held. */
  method FixExerciseNames(table: Table, data: Val) returns (r: Val)
    requires data.VRef? ==> data.node.Valid()
    modifies if data.VRef? then data.node.Repr else {}
    ensures r == data
    ensures data.VRef? ==>
      && data.node.Valid() && data.node.Repr == old(data.node.Repr)
      && data.node.Model() == FixTree(table, old(data.node.Model()))
    decreases if data.VRef? then data.node.Repr else {}, 3
  {
    if data.VRef? {
      FixContainer(table, data.node);
    }
    return data;
  }

  /** The loop of `fix_exercise_names` over the entries of a dict or the items of a list. */
  method FixContainer(table: Table, n: Container)
    requires n.Valid()
    modifies n.Repr
    ensures n.Valid() && n.Repr == old(n.Repr)
    ensures n.Model() == FixTree(table, old(n.Model()))
    decreases n.Repr, 2
  {
    ghost var before := n.Model();
    ghost var olds := n.ItemsModel(|n.vals|);
    ghost var oldEntries := if n.isDict then n.EntriesModel(|n.vals|) else [];
    var i := 0;
    while i < |n.vals|
      invariant 0 <= i <= |n.vals| == |olds|
      invariant n.Valid() && n.Repr == old(n.Repr)
      invariant n.isDict == old(n.isDict) && n.keys == old(n.keys)
      invariant forall k :: i <= k < |n.vals| ==> n.ValModel(k) == olds[k]
      invariant forall k :: 0 <= k < i ==> n.ValModel(k) == FixVal(table, n.isDict && n.keys[k] == Es, olds[k])
    {
      FixAt(table, n, i);
      i := i + 1;
    }
    WalkedModel(table, n, before, olds, oldEntries);
  }

  /** Once every entry or item holds what the walk makes of it, the container
      holds what the walk makes of the whole. */
  lemma WalkedModel(table: Table, n: Container, before: Json, olds: seq<Json>, oldEntries: seq<(string, Json)>)
    requires n.Valid() && |olds| == |n.vals|
    requires n.isDict ==> (before == JObj(oldEntries) && |oldEntries| == |olds| &&
                           forall k :: 0 <= k < |olds| ==> oldEntries[k] == (n.keys[k], olds[k]))
    requires !n.isDict ==> before == JList(olds)
    requires forall k :: 0 <= k < |olds| ==> n.ValModel(k) == FixVal(table, n.isDict && n.keys[k] == Es, olds[k])
    ensures n.Model() == FixTree(table, before)
  {
    if n.isDict {
      FixEntriesAt(table, before, oldEntries);
      assert n.EntriesModel(|n.vals|) == FixEntries(table, before, oldEntries);
    } else {
      FixItemsAt(table, before, olds);
      assert n.ItemsModel(|n.vals|) == FixItems(table, before, olds);
    }
  }

  /** One step of the loop: entry or item `i` is repaired or walked into;
      every other entry keeps its value. */
  method FixAt(table: Table, n: Container, i: nat)
    requires n.Valid() && i < |n.vals|
    modifies n.Repr
    ensures n.Valid() && n.Repr == old(n.Repr)
    ensures n.isDict == old(n.isDict) && n.keys == old(n.keys) && |n.vals| == old(|n.vals|)
    ensures forall k :: 0 <= k < |n.vals| && k != i ==> n.ValModel(k) == old(n.ValModel(k))
    ensures n.ValModel(i) == FixVal(table, n.isDict && n.keys[i] == Es, old(n.ValModel(i)))
    decreases n.Repr, 1
  {
    var v := n.vals[i];
    if n.isDict && n.keys[i] == Es && v.VStr? {
      FixStringAt(table, n, i);
    } else if v.VRef? {
      FixChildAt(table, n, i);
    }
  }

  /** A string under `'es'` is replaced by its repair. */
  method FixStringAt(table: Table, n: Container, i: nat)
    requires n.Valid() && i < |n.vals| && n.vals[i].VStr?
    modifies n
    ensures n.Valid() && n.Repr == old(n.Repr)
    ensures n.isDict == old(n.isDict) && n.keys == old(n.keys) && |n.vals| == old(|n.vals|)
    ensures forall k :: 0 <= k < |n.vals| && k != i ==> n.ValModel(k) == old(n.ValModel(k))
    ensures n.ValModel(i) == JStr(ApplyTable(table, old(n.vals[i].s)))
  {
    var fixed := FixCorruptedText(table, JStr(n.vals[i].s));
    n.vals := n.vals[i := VStr(fixed.s)];
    forall k | 0 <= k < |n.vals| && k != i && n.vals[k].VRef?
      ensures n.vals[k].node.Valid() && n.vals[k].node.Model() == old(n.vals[k].node.Model())
    {
      var d := n.vals[k].node;
      assert n !in d.Repr;
    }
  }

  /** A nested dict or list is walked into, in place. */
  method FixChildAt(table: Table, n: Container, i: nat)
    requires n.Valid() && i < |n.vals| && n.vals[i].VRef?
    modifies n.Repr
    ensures n.Valid() && n.Repr == old(n.Repr)
    ensures n.isDict == old(n.isDict) && n.keys == old(n.keys) && n.vals == old(n.vals)
    ensures forall k :: 0 <= k < |n.vals| && k != i ==> n.ValModel(k) == old(n.ValModel(k))
    ensures n.ValModel(i) == FixTree(table, old(n.ValModel(i)))
    decreases n.Repr, 0
  {
    var c := n.vals[i].node;
    var _ := FixExerciseNames(table, n.vals[i]);
    forall k | 0 <= k < |n.vals| && k != i && n.vals[k].VRef?
      ensures n.vals[k].node.Valid() && n.vals[k].node.Model() == old(n.vals[k].node.Model())
      ensures n.vals[k].node.Repr !! c.Repr
    {
      var d := n.vals[k].node;
      assert d.Repr !! c.Repr;
    }
  }
}
