/** What one finding prints (linter.py:47-69): walk `path[:-1]` from the root;
    a dict parent with a truthy `"name"` prints that name, any other parent the
    dotted path; a caught `KeyError`, `IndexError` or `TypeError` prints the
    dotted path and the error. */
module Labels {
  import opened Options
  import opened JsonTree
  import opened Traversal
  import opened Output

  /** `path[:-1]`. */
  function Init(path: seq<string>): seq<string> {
    if |path| == 0 then [] else path[..|path| - 1]
  }

  /** `'.'.join(segs)`. */
  function Join(segs: seq<string>): string {
    if segs == [] then ""
    else if |segs| == 1 then segs[0]
    else segs[0] + "." + Join(segs[1..])
  }

  /** `parent.get("name", None)` when `parent` is a dict, kept only when truthy
      (linter.py:58-63). */
  function NameOf(parent: Json): Option<Json> {
    if parent.JObj? && "name" in parent.fields && Truthy(parent.fields["name"])
    then Some(parent.fields["name"])
    else None
  }

  /** The lines printed for a finding at `path`, or the abort its walk causes. */
  function Outcome(root: Json, path: seq<string>): Transcript {
    match Walk(root, Init(path))
    case Reached(parent) =>
      (match NameOf(parent)
       case Some(name) => Transcript([NameLine(name)], None)
       case None => Transcript([PathLine(Join(path))], None))
    case Failed(e) => Transcript([PathLine(Join(path)), ErrorLine(e)], None)
    case Raised(segment) => Transcript([], Some(segment))
  }

  /** The body of `for error in errors:` (linter.py:48-69) for one finding. */
  method ResolveFinding(root: Json, path: seq<string>) returns (lines: seq<Line>, abort: Option<string>)
    ensures Transcript(lines, abort) == Outcome(root, path)
  {
    var walked := WalkTo(root, Init(path));
    match walked
    case Raised(segment) =>
      lines, abort := [], Some(segment);
    case Failed(e) =>
      lines, abort := [PathLine(Join(path)), ErrorLine(e)], None;
    case Reached(node) =>
      var name := if node.JObj? && "name" in node.fields then node.fields["name"] else JNull;
      if Truthy(name) {
        lines, abort := [NameLine(name)], None;
      } else {
        lines, abort := [PathLine(Join(path))], None;
      }
  }

  // ---------------------------------------------------------------------------
  // The shapes a finding's output can take

  /** A `Name:` line is printed exactly when the walk reaches a dict whose
      `"name"` is truthy, and it carries that value. */
  lemma NameLineWhenNamedParent(root: Json, path: seq<string>, v: Json)
    ensures Outcome(root, path) == Transcript([NameLine(v)], None) <==>
            exists fields :: Walk(root, Init(path)) == Reached(JObj(fields)) &&
                             "name" in fields && fields["name"] == v && Truthy(v)
  {
    var w := Walk(root, Init(path));
    if Outcome(root, path) == Transcript([NameLine(v)], None) {
      assert w.Reached? && w.node.JObj?;
      var fields := w.node.fields;
      assert w == Reached(JObj(fields));
    }
  }

  /** When the walk reaches a node, exactly one line is printed, and it is the
      dotted path unless that node is a dict with a truthy `"name"`: a list, a
      scalar, a dict without `"name"` and a falsy name all print the path. */
  lemma OneLineWhenReached(root: Json, path: seq<string>, parent: Json)
    requires Walk(root, Init(path)) == Reached(parent)
    ensures Outcome(root, path).abort == None && |Outcome(root, path).lines| == 1
    ensures Outcome(root, path).lines[0] == PathLine(Join(path)) <==>
            !parent.JObj? || "name" !in parent.fields || !Truthy(parent.fields["name"])
  {
  }

  /** A caught exception prints exactly two lines, the dotted path and the
      error, and the run goes on. */
  lemma TwoLinesWhenCaught(root: Json, path: seq<string>, e: Failure)
    ensures Outcome(root, path) == Transcript([PathLine(Join(path)), ErrorLine(e)], None) <==>
            Walk(root, Init(path)) == Failed(e)
  {
  }

  /** A finding aborts the run exactly when its walk raises the uncaught `ValueError`. */
  lemma AbortIffRaised(root: Json, path: seq<string>)
    ensures Outcome(root, path).abort.Some? <==> Walk(root, Init(path)).Raised?
  {
  }

  /** A run is cut short only by a segment of `path[:-1]` that `int()` rejects. */
  lemma AbortCause(root: Json, path: seq<string>, s: string)
    requires Outcome(root, path).abort == Some(s)
    ensures Outcome(root, path).lines == []
    ensures s in Init(path) && PyInt.ParseInt(s) == None
  {
    RaisedSegment(root, Init(path), s);
  }

  /** The last segment is never looked up: once `path[:-1]` reaches a node, any
      last segment, an absent key included, prints one line without error, and
      a named parent prints the same line whatever that segment is. */
  lemma FinalSegmentNotLookedUp(root: Json, p: seq<string>, s: string, t: string)
    requires Walk(root, p).Reached?
    ensures Outcome(root, p + [s]).abort == None && |Outcome(root, p + [s]).lines| == 1
    ensures Outcome(root, p + [s]).lines[0].NameLine? ==> Outcome(root, p + [s]) == Outcome(root, p + [t])
  {
    assert Init(p + [s]) == p;
    assert Init(p + [t]) == p;
  }

  /** An empty path leaves the parent at the root: it prints the root's truthy
      `"name"` if it has one, otherwise `Path: ` and the empty string. */
  lemma EmptyPath(root: Json)
    ensures Outcome(root, []).abort == None
    ensures NameOf(root) == None ==> Outcome(root, []).lines == [PathLine("")]
    ensures NameOf(root).Some? ==> Outcome(root, []).lines == [NameLine(NameOf(root).value)]
  {
  }

  // ---------------------------------------------------------------------------
  // Worked examples

  lemma JoinThree(a: string, b: string, c: string)
    ensures Join([a, b, c]) == a + "." + b + "." + c
  {
    assert [a, b, c][1..] == [b, c];
    assert [b, c][1..] == [c];
    assert Join([b, c]) == b + "." + c;
  }

  /** A two-step walk through a dict key and then list index 0 or 2. */
  lemma WalkKeyThenIndex(root: Json, key: string, items: seq<Json>, i: nat)
    requires root.JObj? && key in root.fields && root.fields[key] == JArr(items)
    requires i < IndexLimit
    ensures Walk(root, [key, PyInt.IntToString(i)]) ==
            if i < |items| then Reached(items[i]) else Failed(IndexOutOfRange(i, |items|))
  {
    var seg := PyInt.IntToString(i);
    PyInt.ShortRoundTrip(i);
    assert [key, seg][1..] == [seg];
    assert [seg][1..] == [];
    assert Walk(root, [key, seg]) == Walk(JArr(items), [seg]);
    if i < |items| {
      assert Child(JArr(items), seg) == Reached(items[i]);
      assert Walk(JArr(items), [seg]) == Walk(items[i], []);
    }
  }

  lemma UnnamedThree(root: Json, a: string, b: string, c: string, parent: Json)
    requires Walk(root, [a, b]) == Reached(parent) && NameOf(parent) == None
    ensures Outcome(root, [a, b, c]) == Transcript([PathLine(a + "." + b + "." + c)], None)
  {
    assert Init([a, b, c]) == [a, b];
    JoinThree(a, b, c);
  }

  lemma CaughtThree(root: Json, a: string, b: string, c: string, e: Failure)
    requires Walk(root, [a, b]) == Failed(e)
    ensures Outcome(root, [a, b, c]) == Transcript([PathLine(a + "." + b + "." + c), ErrorLine(e)], None)
  {
    assert Init([a, b, c]) == [a, b];
    JoinThree(a, b, c);
  }

  /** `{"info":{"name":"API"},"paths":[{"get":{"summary":"x"}}]}` with the path
      `paths.0.get`: the parent `{"get": ...}` has no `"name"`, so the path is printed. */
  lemma UnnamedParentExample()
    ensures
      var get := JObj(map["summary" := JStr("x")]);
      var root := JObj(map["info" := JObj(map["name" := JStr("API")]),
                           "paths" := JArr([JObj(map["get" := get])])]);
      Outcome(root, ["paths", "0", "get"]) == Transcript([PathLine("paths.0.get")], None)
  {
    var get := JObj(map["summary" := JStr("x")]);
    var parent := JObj(map["get" := get]);
    var root := JObj(map["info" := JObj(map["name" := JStr("API")]),
                         "paths" := JArr([parent])]);
    assert Walk(root, ["paths", "0"]) == Reached(parent) by {
      assert PyInt.IntToString(0) == "0";
      WalkKeyThenIndex(root, "paths", [parent], 0);
    }
    UnnamedThree(root, "paths", "0", "get", parent);
    assert "paths" + "." + "0" + "." + "get" == "paths.0.get";
  }

  /** `items.2.name` where `items` has a single element: index 2 is out of
      range, so the path and an `IndexError` are printed. */
  lemma IndexOutOfRangeExample()
    ensures
      var root := JObj(map["items" := JArr([JObj(map["name" := JStr("only")])])]);
      Outcome(root, ["items", "2", "name"]) ==
        Transcript([PathLine("items.2.name"), ErrorLine(IndexOutOfRange(2, 1))], None)
  {
    var items := [JObj(map["name" := JStr("only")])];
    var root := JObj(map["items" := JArr(items)]);
    assert Walk(root, ["items", "2"]) == Failed(IndexOutOfRange(2, 1)) by {
      assert PyInt.IntToString(2) == "2";
      WalkKeyThenIndex(root, "items", items, 2);
    }
    CaughtThree(root, "items", "2", "name", IndexOutOfRange(2, 1));
    assert "items" + "." + "2" + "." + "name" == "items.2.name";
  }
}
