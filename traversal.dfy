/** The walk from the document root to the parent of a finding's location
    (linter.py:51-55): `parent = parent[key]` for every segment, with the
    segment passed through `int()` first when `parent` is a list. */
module Traversal {
  import opened Options
  import opened JsonTree
  import PyInt

  /** The exceptions the walk can raise that `process_results` catches
      (linter.py:67). */
  datatype Failure =
    | MissingKey(key: string)                  // KeyError: key absent from a dict
    | IndexOutOfRange(index: int, length: nat) // IndexError: index outside the list
    | IndexNotSsize(index: int)                // IndexError: index outside Py_ssize_t
    | NotSubscriptable(kind: ScalarKind)       // TypeError: indexing a scalar or None

  /** Where one step, or a whole walk, ends: at a node, at a caught exception,
      or at the `ValueError` of `int()` on a list segment that is not an
      integer or has more than 4300 digits, which nothing catches. */
  datatype Step =
    | Reached(node: Json)
    | Failed(failure: Failure)
    | Raised(segment: string)

  /** Indexes of a list must fit CPython's `Py_ssize_t`, 64 bits wide here:
      `-IndexLimit <= i < IndexLimit`. */
  const IndexLimit: nat := 0x8000_0000_0000_0000

  /** `parent[key]` (linter.py:53-55). A list takes the segment through `int()`,
      so negative values count from the end as in Python; an index outside
      `Py_ssize_t` is refused before the list's length is looked at. */
  function Child(parent: Json, key: string): Step {
    match parent
    case JArr(items) =>
      (match PyInt.ParseInt(key)
       case None => Raised(key)
       case Some(i) =>
         if i < 0 - IndexLimit || IndexLimit <= i then Failed(IndexNotSsize(i))
         else if -|items| <= i < |items| then Reached(items[if i < 0 then |items| + i else i])
         else Failed(IndexOutOfRange(i, |items|)))
    case JObj(fields) =>
      if key in fields then Reached(fields[key]) else Failed(MissingKey(key))
    case _ => Failed(NotSubscriptable(KindOf(parent)))
  }

  /** The node reached from `root` along `keys`, or the first step that did not
      reach one. */
  function Walk(root: Json, keys: seq<string>): Step
    decreases |keys|
  {
    if keys == [] then Reached(root)
    else
      match Child(root, keys[0])
      case Reached(next) => Walk(next, keys[1..])
      case stop => stop
  }

  /** Walking `p + q` is walking `p`, then walking `q` from where `p` ended. */
  lemma {:induction false} WalkAppend(root: Json, p: seq<string>, q: seq<string>)
    ensures Walk(root, p + q) ==
            match Walk(root, p)
            case Reached(node) => Walk(node, q)
            case stop => stop
    decreases |p|
  {
    if p != [] {
      assert (p + q)[0] == p[0];
      assert (p + q)[1..] == p[1..] + q;
      match Child(root, p[0])
      case Reached(next) => WalkAppend(next, p[1..], q);
      case _ =>
    } else {
      assert p + q == q;
    }
  }

  /** An uncaught `ValueError` comes from a segment on the walked path that
      `int()` rejects. */
  lemma {:induction false} RaisedSegment(root: Json, keys: seq<string>, s: string)
    requires Walk(root, keys) == Raised(s)
    ensures s in keys && PyInt.ParseInt(s) == None
    decreases |keys|
  {
    match Child(root, keys[0])
    case Reached(next) =>
      RaisedSegment(next, keys[1..], s);
      assert s in keys[1..];
    case _ =>
  }

  /** A negative segment selects from the end of a list, as `items[-k]` does. */
  lemma NegativeIndexFromEnd(items: seq<Json>, i: int)
    requires -|items| <= i < 0 && PyInt.Abs(i) <= IndexLimit
    ensures Child(JArr(items), PyInt.IntToString(i)) == Reached(items[|items| + i])
  {
    PyInt.ShortRoundTrip(i);
  }

  /** In particular, the segment "-1" picks the last element. */
  lemma MinusOneIsLast(items: seq<Json>)
    requires |items| > 0
    ensures Child(JArr(items), "-1") == Reached(items[|items| - 1])
  {
    assert PyInt.IntToString(-1) == "-1";
    NegativeIndexFromEnd(items, -1);
  }

  /** A segment that reads as an index at or past the end of the list raises
      `IndexError`, which is caught, unless it has more digits than `int()`
      converts, which raises the uncaught `ValueError`. */
  lemma IndexPastEnd(items: seq<Json>, i: nat)
    requires i >= |items|
    ensures Child(JArr(items), PyInt.IntToString(i)) ==
              if !PyInt.WithinLimit(i) then Raised(PyInt.IntToString(i))
              else if i >= IndexLimit then Failed(IndexNotSsize(i))
              else Failed(IndexOutOfRange(i, |items|))
  {
    PyInt.ParseIntRoundTrip(i);
  }

  /** A segment with no digit in it, met at a list, raises the uncaught `ValueError`. */
  lemma NonNumericAtListRaises(items: seq<Json>, key: string)
    requires forall i :: 0 <= i < |key| ==> !PyInt.IsDigit(key[i])
    ensures Child(JArr(items), key) == Raised(key)
  {
    PyInt.NonNumericRejected(key);
  }

  lemma WalkStep(root: Json, keys: seq<string>, i: nat, parent: Json)
    requires i < |keys| && Walk(root, keys[..i]) == Reached(parent)
    ensures Walk(root, keys[..i + 1]) == Child(parent, keys[i])
  {
    var prefix := keys[..i];
    assert keys[..i + 1] == prefix + [keys[i]];
    calc {
      Walk(root, keys[..i + 1]);
      Walk(root, prefix + [keys[i]]);
      { WalkAppend(root, prefix, [keys[i]]); }
      Walk(parent, [keys[i]]);
      { WalkOne(parent, keys[i]); }
      Child(parent, keys[i]);
    }
  }

  lemma WalkOne(node: Json, key: string)
    ensures Walk(node, [key]) == Child(node, key)
  {
    assert [key][1..] == [];
  }

  lemma WalkStops(root: Json, keys: seq<string>, i: nat)
    requires i < |keys| && !Walk(root, keys[..i + 1]).Reached?
    ensures Walk(root, keys) == Walk(root, keys[..i + 1])
  {
    WalkAppend(root, keys[..i + 1], keys[i + 1..]);
    assert keys[..i + 1] + keys[i + 1..] == keys;
  }

  /** `for key in keys: ... parent = parent[key]` (linter.py:51-55), stopping at
      the first step that raises. */
  method WalkTo(root: Json, keys: seq<string>) returns (r: Step)
    ensures r == Walk(root, keys)
  {
    var parent := root;
    var i := 0;
    while i < |keys|
      invariant 0 <= i <= |keys|
      invariant Walk(root, keys[..i]) == Reached(parent)
    {
      var next := Child(parent, keys[i]);
      WalkStep(root, keys, i, parent);
      if !next.Reached? {
        WalkStops(root, keys, i);
        return next;
      }
      parent := next.node;
      i := i + 1;
    }
    assert keys[..i] == keys;
    r := Reached(parent);
  }
}
