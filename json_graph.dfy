/**
 * JSON Graph results: paths, the values and sentinels a path can hold, the
 * flat PathValue form a route handler may return, and the nested envelope
 * the router builds from it by inserting every path into one tree.
 */
module JsonGraph {
  import opened Js

  type Path = seq<Key>

  /** What a path of the graph holds: a plain JSON value, or one of the
      three sentinels `$ref`, `$atom` and `$error`. */
  datatype Sentinel =
    | Val(v: Value)
    | Ref(target: seq<Value>)
    | Atom(atom: Value)
    | Error(cause: Value)

  /** `jsonGraph.undefined()`: an atom that carries no value. Unlike a
      missing PathValue (unknown), it says the path is known to be empty. */
  const UndefinedMarker := Atom(Undefined)

  datatype PathValue = PathValue(path: Path, value: Sentinel)

  predicate IsPrefix(a: Path, b: Path) {
    |a| <= |b| && a == b[..|a|]
  }

  /** The requested path `p` is accounted for in `pvs`: some PathValue sits
      at `p` itself or at one of its ancestors. */
  predicate Covers(pvs: seq<PathValue>, p: Path) {
    exists i :: 0 <= i < |pvs| && IsPrefix(pvs[i].path, p)
  }

  /** Reading the path `p` from the value `v`, one property read per key. */
  function ReadPath(v: Value, p: Path): Result<Value>
    decreases |p|
  {
    if p == [] then Ok(v)
    else
      match Get(v, p[0])
      case Err(e) => Err(e)
      case Ok(child) => ReadPath(child, p[1..])
  }

  /** Reading a two-key path is two property reads. */
  lemma ReadPath2(v: Value, a: Key, b: Key)
    ensures ReadPath(v, [a, b]) == match Get(v, a) case Err(e) => Err(e) case Ok(x) => Get(x, b)
  {
    assert [a, b][1..] == [b] && [b][1..] == [];
    match Get(v, a)
    case Err(_) =>
    case Ok(x) =>
      match Get(x, b)
      case Err(_) =>
      case Ok(y) => assert ReadPath(x, [b]) == ReadPath(y, []);
  }

  /** Reading a three-key path is a property read, then a two-key read. */
  lemma ReadPath3(v: Value, a: Key, b: Key, c: Key)
    ensures ReadPath(v, [a, b, c]) == match Get(v, a) case Err(e) => Err(e) case Ok(x) => ReadPath(x, [b, c])
  {
    assert [a, b, c][1..] == [b, c];
  }

  /** The nested form of a JSON Graph (the `jsonGraph` of an envelope). */
  datatype Graph = Leaf(value: Sentinel) | Branch(children: map<Key, Graph>)

  const EmptyGraph := Branch(map[])

  /** What the graph holds at `p`: the sentinel of the leaf found there. */
  function ValueAt(g: Graph, p: Path): Option<Sentinel>
    decreases |p|
  {
    if p == [] then
      (if g.Leaf? then Some(g.value) else None)
    else
      match g
      case Leaf(_) => None
      case Branch(c) => if p[0] in c then ValueAt(c[p[0]], p[1..]) else None
  }

  /** What a reader of the envelope gets for the requested path `p`: the
      leaf at `p`, or the leaf (an atom, an error) met on the way to it. */
  function Resolve(g: Graph, p: Path): Option<Sentinel>
    decreases |p|
  {
    match g
    case Leaf(v) => Some(v)
    case Branch(c) => if p != [] && p[0] in c then Resolve(c[p[0]], p[1..]) else None
  }

  /** The router's merge step: put `v` at `p`, creating the branches on the
      way and replacing whatever stood at `p` or on the way to it. */
  function Insert(g: Graph, p: Path, v: Sentinel): Graph
    decreases |p|
  {
    if p == [] then Leaf(v)
    else
      var c := if g.Branch? then g.children else map[];
      var child := if p[0] in c then c[p[0]] else EmptyGraph;
      Branch(c[p[0] := Insert(child, p[1..], v)])
  }

  /** After an insertion, `p` holds the new value, paths on the line of `p`
      hold nothing, and every path independent of `p` is as it was. */
  lemma {:induction false} ValueAtInsert(g: Graph, p: Path, v: Sentinel, q: Path)
    decreases |p|
    ensures ValueAt(Insert(g, p, v), q) ==
              if q == p then Some(v)
              else if IsPrefix(p, q) || IsPrefix(q, p) then None
              else ValueAt(g, q)
  {
    if p != [] && q != [] {
      var c := if g.Branch? then g.children else map[];
      var child := if p[0] in c then c[p[0]] else EmptyGraph;
      if q[0] == p[0] {
        ValueAtInsert(child, p[1..], v, q[1..]);
        assert q == p <==> q[1..] == p[1..];
        assert IsPrefix(p, q) <==> IsPrefix(p[1..], q[1..]);
        assert IsPrefix(q, p) <==> IsPrefix(q[1..], p[1..]);
      } else {
        assert !IsPrefix(p, q) && !IsPrefix(q, p);
      }
    }
  }

  /** The envelope the router builds from a PathValue array. */
  function Merge(pvs: seq<PathValue>): Graph {
    if pvs == [] then EmptyGraph
    else
      var last := pvs[|pvs| - 1];
      Insert(Merge(pvs[..|pvs| - 1]), last.path, last.value)
  }

  /** No path of `pvs` is a prefix of another (in particular, no path repeats). */
  predicate Independent(pvs: seq<PathValue>) {
    forall i, j :: 0 <= i < |pvs| && 0 <= j < |pvs| && i != j ==> !IsPrefix(pvs[i].path, pvs[j].path)
  }

  /** Some PathValue of `pvs` sits exactly at `q`. */
  predicate HasPath(pvs: seq<PathValue>, q: Path) {
    exists i :: 0 <= i < |pvs| && pvs[i].path == q
  }

  lemma HasPathSnoc(pvs: seq<PathValue>, q: Path)
    requires pvs != []
    ensures HasPath(pvs, q) <==> HasPath(pvs[..|pvs| - 1], q) || pvs[|pvs| - 1].path == q
  {
    var n := |pvs| - 1;
    if HasPath(pvs, q) && pvs[n].path != q {
      var i :| 0 <= i < |pvs| && pvs[i].path == q;
      assert pvs[..n][i] == pvs[i];
    }
    if HasPath(pvs[..n], q) {
      var i :| 0 <= i < n && pvs[..n][i].path == q;
      assert pvs[i].path == q;
    }
  }

  lemma IndependentInit(pvs: seq<PathValue>)
    requires pvs != [] && Independent(pvs)
    ensures Independent(pvs[..|pvs| - 1])
  {
    var init := pvs[..|pvs| - 1];
    forall i, j | 0 <= i < |init| && 0 <= j < |init| && i != j
      ensures !IsPrefix(init[i].path, init[j].path)
    {
      assert init[i] == pvs[i] && init[j] == pvs[j];
    }
  }

  /** A PathValue array and the envelope merged from it describe the same
      values: each path of the array holds its value in the envelope, and
      the envelope holds nothing at any other path. */
  lemma {:induction false} MergeDescribesSameValues(pvs: seq<PathValue>, q: Path)
    requires Independent(pvs)
    ensures ValueAt(Merge(pvs), q).Some? <==> HasPath(pvs, q)
    ensures forall i :: 0 <= i < |pvs| && pvs[i].path == q ==> ValueAt(Merge(pvs), q) == Some(pvs[i].value)
  {
    if pvs != [] {
      var n := |pvs| - 1;
      var init, last := pvs[..n], pvs[n];
      IndependentInit(pvs);
      MergeDescribesSameValues(init, q);
      ValueAtInsert(Merge(init), last.path, last.value, q);
      HasPathSnoc(pvs, q);
      if q == last.path {
        forall i | 0 <= i < n ensures pvs[i].path != q {
          assert !IsPrefix(pvs[i].path, pvs[n].path);
        }
      } else if !(IsPrefix(last.path, q) || IsPrefix(q, last.path)) {
        forall i | 0 <= i < |pvs| && pvs[i].path == q
          ensures ValueAt(Merge(pvs), q) == Some(pvs[i].value)
        {
          assert i < n && init[i] == pvs[i];
        }
      }
    }
  }
}
