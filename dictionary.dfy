/** The nested translation table and the walk `t` performs over it.

    A table is a tree whose inner nodes are objects (string-keyed) or arrays
    and whose leaves are strings. A walk applies `value?.[k]` once per path
    segment: a missing key, an index past the end, a non-index key on an
    array, or any key applied to a string leaf gives `undefined` (`None`),
    and once `undefined` every later step stays `undefined`. */
module Dictionary {
  import opened Wrappers
  import opened Strings

  datatype Node = Leaf(text: string) | Dict(entries: map<string, Node>) | List(items: seq<Node>)

  /** One step `value?.[k]`. */
  function Step(value: Option<Node>, k: string): (r: Option<Node>)
    ensures value.None? ==> r.None?
    ensures r.Some? && value.value.Dict? ==> k in value.value.entries && r.value == value.value.entries[k]
    ensures r.Some? && value.value.List? ==>
      exists i :: 0 <= i < |value.value.items| && k == NatToString(i) && r.value == value.value.items[i]
    ensures value.Some? && value.value.Leaf? ==> r.None?
    ensures value.Some? && value.value.Dict? ==> (r.Some? <==> k in value.value.entries)
  {
    match value
    case None => None
    case Some(Leaf(_)) => None
    case Some(Dict(m)) => if k in m then Some(m[k]) else None
    case Some(List(xs)) =>
      match ParseIndex(k)
      case Some(i) =>
        if i < |xs| then IndexKeyIsRendering(k, i); Some(xs[i]) else None
      case None => None
  }

  /** On an array, a segment selects an item exactly when it is the rendering
      of an index inside the array: `"0"` picks the first item, while `"01"`,
      `"-1"` and an index past the end pick nothing. */
  lemma {:induction false} IndexStep(xs: seq<Node>, k: string)
    ensures Step(Some(List(xs)), k).Some? <==> exists i :: 0 <= i < |xs| && k == NatToString(i)
    ensures forall i | 0 <= i < |xs| :: Step(Some(List(xs)), NatToString(i)) == Some(xs[i])
  {
    forall i | 0 <= i < |xs|
      ensures Step(Some(List(xs)), NatToString(i)) == Some(xs[i])
    {
      IndexRoundTrip(i);
    }
    if exists i :: 0 <= i < |xs| && k == NatToString(i) {
      var i :| 0 <= i < |xs| && k == NatToString(i);
      IndexRoundTrip(i);
    }
  }

  /** The value reached after applying every segment of `path` in turn.
      Like `?.`, it short-circuits: from `undefined` every walk stays
      `undefined`, and a non-empty walk from a string misses. */
  function Walk(value: Option<Node>, path: seq<string>): (r: Option<Node>)
    ensures value.None? ==> r.None?
    ensures value.Some? && value.value.Leaf? && path != [] ==> r.None?
    ensures path == [] ==> r == value
    decreases path
  {
    if path == [] then value else Walk(Step(value, path[0]), path[1..])
  }

  /** Walking a concatenated path is walking its two halves in turn. */
  lemma {:induction false} WalkAppend(value: Option<Node>, p: seq<string>, q: seq<string>)
    ensures Walk(value, p + q) == Walk(Walk(value, p), q)
    decreases p
  {
    if p != [] {
      assert (p + q)[1..] == p[1..] + q;
      WalkAppend(Step(value, p[0]), p[1..], q);
    } else {
      assert p + q == q;
    }
  }

  /** A walk along a two-segment path is two steps. */
  lemma WalkTwo(value: Option<Node>, a: string, b: string)
    ensures Walk(value, [a, b]) == Step(Step(value, a), b)
  {
    assert [a, b][1..] == [b];
    assert [b][1..] == [];
    assert Walk(Step(value, a), [b]) == Walk(Step(Step(value, a), b), []);
  }

  /** A walk along a three-segment path is three steps. */
  lemma WalkThree(value: Option<Node>, a: string, b: string, c: string)
    ensures Walk(value, [a, b, c]) == Step(Step(Step(value, a), b), c)
  {
    assert [a, b, c][1..] == [b, c];
    WalkTwo(Step(value, a), b, c);
  }

  /** A walk along a four-segment path is four steps. */
  lemma WalkFour(value: Option<Node>, a: string, b: string, c: string, d: string)
    ensures Walk(value, [a, b, c, d]) == Step(Step(Step(Step(value, a), b), c), d)
  {
    assert [a, b, c, d][1..] == [b, c, d];
    assert [b, c, d][1..] == [c, d];
    WalkTwo(Step(Step(value, a), b), c, d);
  }

  /** A miss on any prefix of the path is a miss of the whole walk. */
  lemma MissOnPrefix(value: Option<Node>, p: seq<string>, q: seq<string>)
    requires Walk(value, p) == None
    ensures Walk(value, p + q) == None
  {
    WalkAppend(value, p, q);
  }

  /** JavaScript truthiness of a walk's outcome: `undefined` and the empty
      string are falsy; every other string, every object and every array
      (empty ones included) is truthy. */
  predicate Truthy(value: Option<Node>) {
    value.Some? && value.value != Leaf("")
  }

  /** `value || key`. */
  function OrKey(value: Option<Node>, key: string): (r: Node)
    ensures Truthy(value) ==> r == value.value
    ensures !Truthy(value) ==> r == Leaf(key)
  {
    if Truthy(value) then value.value else Leaf(key)
  }

  /** `t(key)` over the table `root` (`None` when the current language has
      no table): the node at the end of the dot-separated path, or the key
      itself when the walk misses or ends on an empty string. The answer is
      never an empty string unless the key is. */
  function Resolve(root: Option<Node>, key: string): (r: Node)
    ensures r == Leaf(key) || Some(r) == Walk(root, Split(key, '.'))
    ensures r == Leaf("") ==> key == ""
    ensures r != Leaf(key) ==> Truthy(Walk(root, Split(key, '.')))
    ensures Truthy(Walk(root, Split(key, '.'))) ==> r == Walk(root, Split(key, '.')).value
    ensures !Truthy(Walk(root, Split(key, '.'))) ==> r == Leaf(key)
  {
    OrKey(Walk(root, Split(key, '.')), key)
  }

  // ---------------------------------------------------------------------------
  // Shape: two tables with the same key paths
  // ---------------------------------------------------------------------------

  /** `a` and `b` have the same keys at every level, arrays of the same
      length, and leaves in the same places; only the leaf texts differ. */
  predicate SameShape(a: Node, b: Node)
    decreases a
  {
    match a
    case Leaf(_) => b.Leaf?
    case Dict(m) =>
      b.Dict? && m.Keys == b.entries.Keys &&
      forall k :: k in m ==> SameShape(m[k], b.entries[k])
    case List(xs) =>
      b.List? && |xs| == |b.items| &&
      forall i :: 0 <= i < |xs| ==> SameShape(xs[i], b.items[i])
  }

  /** Every string leaf is non-empty, so no successful walk to a leaf falls
      back to the key through `||`. */
  predicate NoEmptyLeaf(n: Node)
  {
    match n
    case Leaf(s) => s != ""
    case Dict(m) => forall k :: k in m ==> NoEmptyLeaf(m[k])
    case List(xs) => forall i :: 0 <= i < |xs| ==> NoEmptyLeaf(xs[i])
  }

  predicate ShapeAgrees(a: Option<Node>, b: Option<Node>) {
    (a.None? && b.None?) || (a.Some? && b.Some? && SameShape(a.value, b.value))
  }

  predicate NoEmptyLeafIn(a: Option<Node>) {
    a.Some? ==> NoEmptyLeaf(a.value)
  }

  lemma StepAgrees(a: Option<Node>, b: Option<Node>, k: string)
    requires ShapeAgrees(a, b)
    ensures ShapeAgrees(Step(a, k), Step(b, k))
  {
  }

  lemma StepKeepsNoEmptyLeaf(a: Option<Node>, k: string)
    requires NoEmptyLeafIn(a)
    ensures NoEmptyLeafIn(Step(a, k))
  {
  }

  /** Tables of the same shape succeed and fail on exactly the same paths,
      and reach nodes of the same shape. */
  lemma {:induction false} WalkAgrees(a: Option<Node>, b: Option<Node>, path: seq<string>)
    requires ShapeAgrees(a, b)
    ensures ShapeAgrees(Walk(a, path), Walk(b, path))
    decreases path
  {
    if path != [] {
      StepAgrees(a, b, path[0]);
      WalkAgrees(Step(a, path[0]), Step(b, path[0]), path[1..]);
    }
  }

  lemma {:induction false} WalkKeepsNoEmptyLeaf(a: Option<Node>, path: seq<string>)
    requires NoEmptyLeafIn(a)
    ensures NoEmptyLeafIn(Walk(a, path))
    decreases path
  {
    if path != [] {
      StepKeepsNoEmptyLeaf(a, path[0]);
      WalkKeepsNoEmptyLeaf(Step(a, path[0]), path[1..]);
    }
  }

  /** For tables of the same shape without empty leaves, a key resolves
      (does not fall back to itself through a miss) in one exactly when it
      does in the other, and to the same kind of node. */
  lemma ResolveAgrees(a: Node, b: Node, key: string)
    requires SameShape(a, b) && NoEmptyLeaf(a) && NoEmptyLeaf(b)
    ensures Truthy(Walk(Some(a), Split(key, '.'))) <==> Truthy(Walk(Some(b), Split(key, '.')))
    ensures Truthy(Walk(Some(a), Split(key, '.'))) ==>
      SameShape(Resolve(Some(a), key), Resolve(Some(b), key))
  {
    var path := Split(key, '.');
    WalkAgrees(Some(a), Some(b), path);
    WalkKeepsNoEmptyLeaf(Some(a), path);
    WalkKeepsNoEmptyLeaf(Some(b), path);
  }
}
