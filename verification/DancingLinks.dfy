/** The linked matrix of the dancing-links search: circular doubly linked
    lists whose pointers are indices into one array of nodes. */
module DancingLinks {

  datatype Node = Node(left: nat, right: nat, up: nat, down: nat, col: nat, name: int, size: int)

  type Mesh = seq<Node>

  // ---------- pointer surgery, one node at a time ----------

  predicate InBounds(m: Mesh) {
    forall n :: 0 <= n < |m| ==>
      m[n].left < |m| && m[n].right < |m| && m[n].up < |m| && m[n].down < |m| && m[n].col < |m|
  }

  function Unlink(m: Mesh, j: nat): (r: Mesh)
    requires InBounds(m) && j < |m|
    ensures |r| == |m| && InBounds(r)
  {
    var a := m[m[j].down := m[m[j].down].(up := m[j].up)];
    var b := a[a[j].up := a[a[j].up].(down := a[j].down)];
    b[b[j].col := b[b[j].col].(size := b[b[j].col].size - 1)]
  }

  function Relink(m: Mesh, j: nat): (r: Mesh)
    requires InBounds(m) && j < |m|
    ensures |r| == |m| && InBounds(r)
  {
    var a := m[m[j].col := m[m[j].col].(size := m[m[j].col].size + 1)];
    var b := a[a[j].down := a[a[j].down].(up := j)];
    b[b[j].up := b[b[j].up].(down := j)]
  }

  function UnlinkHeader(m: Mesh, c: nat): (r: Mesh)
    requires InBounds(m) && c < |m|
    ensures |r| == |m| && InBounds(r)
  {
    var a := m[m[c].right := m[m[c].right].(left := m[c].left)];
    a[a[c].left := a[a[c].left].(right := a[c].right)]
  }

  function RelinkHeader(m: Mesh, c: nat): (r: Mesh)
    requires InBounds(m) && c < |m|
    ensures |r| == |m| && InBounds(r)
  {
    var a := m[m[c].right := m[m[c].right].(left := c)];
    a[a[c].left := a[a[c].left].(right := c)]
  }

  lemma RelinkUnlink(m: Mesh, j: nat)
    requires InBounds(m) && j < |m|
    requires m[m[j].down].up == j && m[m[j].up].down == j
    ensures Relink(Unlink(m, j), j) == m
  {
    var u := Unlink(m, j);
    assert u[j].up == m[j].up && u[j].down == m[j].down && u[j].col == m[j].col;
  }

  lemma RelinkUnlinkHeader(m: Mesh, c: nat)
    requires InBounds(m) && c < |m|
    requires m[m[c].right].left == c && m[m[c].left].right == c
    ensures RelinkHeader(UnlinkHeader(m, c), c) == m
  {
    var u := UnlinkHeader(m, c);
    assert u[c].left == m[c].left && u[c].right == m[c].right;
  }

  /** What unlinking a node writes, field by field. */
  lemma UnlinkFields(m: Mesh, j: nat, n: nat)
    requires InBounds(m) && j < |m| && n < |m|
    requires m[m[j].down].up == j && m[m[j].up].down == j
    ensures Unlink(m, j)[n] ==
      Node(m[n].left, m[n].right,
           if n == m[j].down then m[j].up else m[n].up,
           if n == m[j].up then m[j].down else m[n].down,
           m[n].col, m[n].name, if n == m[j].col then m[n].size - 1 else m[n].size)
  {
  }

  lemma UnlinkHeaderFields(m: Mesh, c: nat, n: nat)
    requires InBounds(m) && c < |m| && n < |m|
    requires m[m[c].right].left == c && m[m[c].left].right == c
    ensures UnlinkHeader(m, c)[n] ==
      m[n].(left := if n == m[c].right then m[c].left else m[n].left,
            right := if n == m[c].left then m[c].right else m[n].right)
  {
  }

  // ---------- sequences without repetition ----------

  ghost predicate Distinct<T(!new)>(s: seq<T>) {
    forall i, j :: 0 <= i < j < |s| ==> s[i] != s[j]
  }

  function Without<T(==)>(s: seq<T>, x: T): seq<T> {
    if s == [] then [] else if s[0] == x then s[1..] else [s[0]] + Without(s[1..], x)
  }

  lemma {:induction false} WithoutAt<T(!new)>(s: seq<T>, p: nat)
    requires Distinct(s) && p < |s|
    ensures Without(s, s[p]) == s[..p] + s[p + 1..]
  {
    if p > 0 {
      WithoutAt(s[1..], p - 1);
      assert s[1..][p - 1] == s[p];
      assert [s[0]] + (s[1..][..p - 1] + s[1..][p..]) == s[..p] + s[p + 1..];
    }
  }

  lemma WithoutMembers<T(!new)>(s: seq<T>, x: T)
    requires Distinct(s) && x in s
    ensures Distinct(Without(s, x)) && |Without(s, x)| == |s| - 1
    ensures forall y :: y in Without(s, x) <==> y in s && y != x
  {
    var p :| 0 <= p < |s| && s[p] == x;
    WithoutAt(s, p);
    var w := s[..p] + s[p + 1..];
    forall y ensures y in w <==> y in s && y != x {
      if y in s && y != x {
        var q :| 0 <= q < |s| && s[q] == y;
        assert w[if q < p then q else q - 1] == y;
      }
    }
  }

  // ---------- circular lists, as closed walks ----------

  function Walk(d: nat, v: seq<nat>): (s: seq<nat>)
    ensures |s| == |v| + 2
  {
    [d] + v + [d]
  }

  /** The walk d, v, d follows down forwards and up backwards. */
  ghost predicate VRing(m: Mesh, d: nat, v: seq<nat>) {
    var s := Walk(d, v);
    && d < |m| && (forall i :: 0 <= i < |s| ==> s[i] < |m|)
    && (forall i {:trigger m[s[i]]} :: 0 <= i < |s| - 1 ==> m[s[i]].down == s[i + 1])
    && (forall i {:trigger m[s[i]]} :: 0 < i < |s| ==> m[s[i]].up == s[i - 1])
  }

  /** The walk d, v, d follows right forwards and left backwards. */
  ghost predicate HRing(m: Mesh, d: nat, v: seq<nat>) {
    var s := Walk(d, v);
    && d < |m| && (forall i :: 0 <= i < |s| ==> s[i] < |m|)
    && (forall i {:trigger m[s[i]]} :: 0 <= i < |s| - 1 ==> m[s[i]].right == s[i + 1])
    && (forall i {:trigger m[s[i]]} :: 0 < i < |s| ==> m[s[i]].left == s[i - 1])
  }

  /** Positions of a closed walk over distinct nodes name the same node only at the two ends. */
  lemma WalkDistinct(d: nat, v: seq<nat>, i: nat, k: nat)
    requires Distinct(v) && d !in v && i < k < |v| + 2
    ensures Walk(d, v)[i] == Walk(d, v)[k] ==> i == 0 && k == |v| + 1
  {
    var s := Walk(d, v);
    assert 0 < i <= |v| ==> s[i] == v[i - 1] && s[i] in v;
    assert 0 < k <= |v| ==> s[k] == v[k - 1] && s[k] in v;
  }

  /** Taking v[p] out of the walk: step i of the short walk joins the neighbours of v[p] or
      is a step of the long one. */
  lemma WalkRemove(d: nat, v: seq<nat>, p: nat, i: nat)
    requires Distinct(v) && d !in v && p < |v| && i < |v|
    ensures |Walk(d, v[..p] + v[p + 1..])| == |v| + 1
    ensures
      var s, w := Walk(d, v), Walk(d, v[..p] + v[p + 1..]);
      if i == p then w[i] == s[p] && w[i + 1] == s[p + 2]
      else
        var q := if i < p then i else i + 1;
        w[i] == s[q] && w[i + 1] == s[q + 1] && s[q] != s[p] && s[q + 1] != s[p + 2] && q != p && q != p + 1
  {
    var s, w := Walk(d, v), Walk(d, v[..p] + v[p + 1..]);
    if i < p {
      WalkDistinct(d, v, i, p);
      WalkDistinct(d, v, i + 1, p + 2);
    } else if p < i {
      WalkDistinct(d, v, p, i + 1);
      WalkDistinct(d, v, p + 2, i + 2);
    }
  }

  lemma VRingRemove(m: Mesh, u: Mesh, d: nat, v: seq<nat>, p: nat)
    requires VRing(m, d, v) && Distinct(v) && d !in v && p < |v| && |u| == |m|
    requires v[p] < |m| && (forall n :: 0 <= n < |m| ==>
      && u[n].up == (if n == m[v[p]].down then m[v[p]].up else m[n].up)
      && u[n].down == (if n == m[v[p]].up then m[v[p]].down else m[n].down))
    ensures VRing(u, d, v[..p] + v[p + 1..])
  {
    var s, w := Walk(d, v), Walk(d, v[..p] + v[p + 1..]);
    assert s[p + 1] == v[p];
    assert m[v[p]].up == s[p] && m[v[p]].down == s[p + 2];
    forall i | 0 <= i < |w|
      ensures w[i] < |m|
      ensures i < |w| - 1 ==> u[w[i]].down == w[i + 1]
      ensures 0 < i ==> u[w[i]].up == w[i - 1]
    {
      if i < |v| { WalkRemove(d, v, p, i); }
      if 0 < i { WalkRemove(d, v, p, i - 1); }
    }
  }

  lemma HRingRemove(m: Mesh, u: Mesh, d: nat, v: seq<nat>, p: nat)
    requires HRing(m, d, v) && Distinct(v) && d !in v && p < |v| && |u| == |m|
    requires v[p] < |m| && (forall n :: 0 <= n < |m| ==>
      && u[n].left == (if n == m[v[p]].right then m[v[p]].left else m[n].left)
      && u[n].right == (if n == m[v[p]].left then m[v[p]].right else m[n].right))
    ensures HRing(u, d, v[..p] + v[p + 1..])
  {
    var s, w := Walk(d, v), Walk(d, v[..p] + v[p + 1..]);
    assert s[p + 1] == v[p];
    assert m[v[p]].left == s[p] && m[v[p]].right == s[p + 2];
    forall i | 0 <= i < |w|
      ensures w[i] < |m|
      ensures i < |w| - 1 ==> u[w[i]].right == w[i + 1]
      ensures 0 < i ==> u[w[i]].left == w[i - 1]
    {
      if i < |v| { WalkRemove(d, v, p, i); }
      if 0 < i { WalkRemove(d, v, p, i - 1); }
    }
  }

  /** The neighbours of a list's node are in the list or its head, and point back. */
  lemma VRingNode(m: Mesh, d: nat, v: seq<nat>, j: nat)
    requires VRing(m, d, v) && j in v
    ensures j < |m| && m[j].up < |m| && m[j].down < |m| && m[m[j].down].up == j && m[m[j].up].down == j
    ensures (m[j].up == d || m[j].up in v) && (m[j].down == d || m[j].down in v)
  {
    var s := Walk(d, v);
    var p :| 0 <= p < |v| && v[p] == j;
    assert s[p + 1] == j && (p > 0 ==> s[p] == v[p - 1]) && (p + 1 < |v| ==> s[p + 2] == v[p + 1]);
    assert m[s[p + 1]].down == s[p + 2] && m[s[p + 1]].up == s[p];
    assert m[s[p + 2]].up == j && m[s[p]].down == j;
  }

  lemma HRingNode(m: Mesh, d: nat, v: seq<nat>, j: nat)
    requires HRing(m, d, v) && j in v
    ensures j < |m| && m[j].left < |m| && m[j].right < |m| && m[m[j].right].left == j && m[m[j].left].right == j
    ensures (m[j].left == d || m[j].left in v) && (m[j].right == d || m[j].right in v)
  {
    var s := Walk(d, v);
    var p :| 0 <= p < |v| && v[p] == j;
    assert s[p + 1] == j && (p > 0 ==> s[p] == v[p - 1]) && (p + 1 < |v| ==> s[p + 2] == v[p + 1]);
    assert m[s[p + 1]].right == s[p + 2] && m[s[p + 1]].left == s[p];
    assert m[s[p + 2]].left == j && m[s[p]].right == j;
  }

  /** A list whose nodes keep their up and down links is still linked. */
  lemma SameVRing(m: Mesh, u: Mesh, d: nat, v: seq<nat>)
    requires VRing(m, d, v) && |m| == |u|
    requires u[d].up == m[d].up && u[d].down == m[d].down
    requires forall n :: n in v && n < |m| ==> u[n].up == m[n].up && u[n].down == m[n].down
    ensures VRing(u, d, v)
  {
    var s := Walk(d, v);
    forall i | 0 <= i < |s| ensures s[i] < |m| && u[s[i]].up == m[s[i]].up && u[s[i]].down == m[s[i]].down {
      assert 0 < i <= |v| ==> s[i] == v[i - 1] && s[i] in v;
    }
  }

  lemma SameHRing(m: Mesh, u: Mesh, d: nat, v: seq<nat>)
    requires HRing(m, d, v) && |m| == |u|
    requires u[d].left == m[d].left && u[d].right == m[d].right
    requires forall n :: n in v && n < |m| ==> u[n].left == m[n].left && u[n].right == m[n].right
    ensures HRing(u, d, v)
  {
    var s := Walk(d, v);
    forall i | 0 <= i < |s| ensures s[i] < |m| && u[s[i]].left == m[s[i]].left && u[s[i]].right == m[s[i]].right {
      assert 0 < i <= |v| ==> s[i] == v[i - 1] && s[i] in v;
    }
  }

  // ---------- the matrix: what never changes, and what covering changes ----------

  /** The fixed part: the header ring's root, the headers, and for every other node its row,
      its column, and the rest of its row in the order met going right. */
  datatype Shape = Shape(root: nat, cols: set<nat>, rowOf: map<nat, nat>, col: map<nat, nat>, tail: map<nat, seq<nat>>)

  ghost predicate WFShape(sh: Shape) {
    && sh.root !in sh.cols
    && sh.rowOf.Keys == sh.col.Keys == sh.tail.Keys
    && (forall n :: n in sh.col ==> n != sh.root && n !in sh.cols && sh.col[n] in sh.cols)
    && (forall n :: n in sh.tail ==> Distinct(sh.tail[n]))
    && (forall n, j {:trigger j in sh.tail[n]} :: n in sh.tail ==>
          (j in sh.tail[n] <==> j in sh.rowOf && sh.rowOf[j] == sh.rowOf[n] && j != n))
  }

  /** The changing part: the headers in the header ring, and the nodes below every header. */
  datatype View = View(hdrs: seq<nat>, vert: map<nat, seq<nat>>)

  ghost predicate RowsLinked(m: Mesh, sh: Shape) {
    forall n :: n in sh.tail ==> n < |m| && n in sh.col && m[n].col == sh.col[n] && HRing(m, n, sh.tail[n])
  }

  ghost predicate ColumnLinked(m: Mesh, sh: Shape, d: nat, v: seq<nat>) {
    && VRing(m, d, v) && m[d].size == |v| && Distinct(v)
    && (forall n :: n in v ==> n in sh.col && sh.col[n] == d)
  }

  ghost predicate ColumnsLinked(m: Mesh, sh: Shape, vert: map<nat, seq<nat>>) {
    && vert.Keys == sh.cols
    && (forall d :: d in vert ==> ColumnLinked(m, sh, d, vert[d]))
  }

  ghost predicate HeadersLinked(m: Mesh, sh: Shape, hdrs: seq<nat>) {
    && HRing(m, sh.root, hdrs) && Distinct(hdrs)
    && (forall d :: d in hdrs ==> d in sh.cols)
  }

  /** Every list of the mesh is linked as shape and view say, and every size field counts its column. */
  ghost predicate Linked(m: Mesh, sh: Shape, v: View) {
    && InBounds(m) && WFShape(sh) && RowsLinked(m, sh)
    && ColumnsLinked(m, sh, v.vert) && HeadersLinked(m, sh, v.hdrs)
  }

  // ---------- unlinking keeps the matrix linked ----------

  /** Unlinking changes no left, right, col or name field. */
  ghost predicate SameSides(m: Mesh, u: Mesh) {
    |u| == |m| && forall n :: 0 <= n < |m| ==>
      u[n].left == m[n].left && u[n].right == m[n].right && u[n].col == m[n].col && u[n].name == m[n].name
  }

  lemma SameSidesRows(m: Mesh, u: Mesh, sh: Shape)
    requires RowsLinked(m, sh) && SameSides(m, u)
    ensures RowsLinked(u, sh)
  {
    forall n | n in sh.tail ensures HRing(u, n, sh.tail[n]) {
      SameHRing(m, u, n, sh.tail[n]);
    }
  }

  /** The columns without node j. */
  function Drop(sh: Shape, vert: map<nat, seq<nat>>, j: nat): map<nat, seq<nat>>
    requires j in sh.col && sh.col[j] in vert
  {
    vert[sh.col[j] := Without(vert[sh.col[j]], j)]
  }

  /** u is m with node j taken out of column d, as far as up, down and size go. */
  ghost predicate TakenOut(m: Mesh, u: Mesh, d: nat, j: nat) {
    |u| == |m| && j < |m| && forall n :: 0 <= n < |m| ==>
      && u[n].up == (if n == m[j].down then m[j].up else m[n].up)
      && u[n].down == (if n == m[j].up then m[j].down else m[n].down)
      && u[n].size == (if n == d then m[n].size - 1 else m[n].size)
  }

  lemma UnlinkWrites(m: Mesh, d: nat, v: seq<nat>, j: nat)
    requires InBounds(m) && VRing(m, d, v) && j in v && j < |m| && m[j].col == d
    ensures SameSides(m, Unlink(m, j)) && Relink(Unlink(m, j), j) == m
    ensures TakenOut(m, Unlink(m, j), d, j)
  {
    VRingNode(m, d, v, j);
    RelinkUnlink(m, j);
    forall n | 0 <= n < |m|
      ensures Unlink(m, j)[n] ==
        Node(m[n].left, m[n].right,
             if n == m[j].down then m[j].up else m[n].up,
             if n == m[j].up then m[j].down else m[n].down,
             m[n].col, m[n].name, if n == m[j].col then m[n].size - 1 else m[n].size)
    {
      UnlinkFields(m, j, n);
    }
  }

  lemma TakenOutOwn(m: Mesh, u: Mesh, sh: Shape, d: nat, v: seq<nat>, j: nat)
    requires ColumnLinked(m, sh, d, v) && j in v && d !in v && TakenOut(m, u, d, j)
    ensures ColumnLinked(u, sh, d, Without(v, j))
  {
    var p :| 0 <= p < |v| && v[p] == j;
    WithoutAt(v, p);
    WithoutMembers(v, j);
    VRingRemove(m, u, d, v, p);
  }

  lemma TakenOutOther(m: Mesh, u: Mesh, sh: Shape, d: nat, v: seq<nat>, j: nat, e: nat, w: seq<nat>)
    requires VRing(m, d, v) && j in v && TakenOut(m, u, d, j)
    requires ColumnLinked(m, sh, e, w) && e != d && e !in v && d !in w && forall n :: n in w ==> n !in v
    ensures ColumnLinked(u, sh, e, w)
  {
    VRingNode(m, d, v, j);
    SameVRing(m, u, e, w);
  }

  lemma UnlinkColumns(m: Mesh, u: Mesh, sh: Shape, vert: map<nat, seq<nat>>, j: nat)
    requires WFShape(sh) && ColumnsLinked(m, sh, vert) && j in sh.col && j in vert[sh.col[j]]
    requires TakenOut(m, u, sh.col[j], j)
    ensures ColumnsLinked(u, sh, Drop(sh, vert, j))
  {
    var d, vert' := sh.col[j], Drop(sh, vert, j);
    assert ColumnLinked(m, sh, d, vert[d]);
    forall e | e in vert' ensures ColumnLinked(u, sh, e, vert'[e]) {
      assert ColumnLinked(m, sh, e, vert[e]);
      if e == d {
        assert vert'[e] == Without(vert[d], j);
        TakenOutOwn(m, u, sh, d, vert[d], j);
      } else {
        assert vert'[e] == vert[e];
        TakenOutOther(m, u, sh, d, vert[d], j, e, vert[e]);
      }
    }
  }

  lemma TakenOutLinked(m: Mesh, u: Mesh, sh: Shape, v: View, j: nat)
    requires Linked(m, sh, v) && j in sh.col && j in v.vert[sh.col[j]]
    requires InBounds(u) && SameSides(m, u) && TakenOut(m, u, sh.col[j], j)
    ensures Linked(u, sh, View(v.hdrs, Drop(sh, v.vert, j)))
  {
    UnlinkColumns(m, u, sh, v.vert, j);
    SameSidesRows(m, u, sh);
    SameHRing(m, u, sh.root, v.hdrs);
  }

  lemma UnlinkKeeps(m: Mesh, sh: Shape, v: View, j: nat)
    requires Linked(m, sh, v) && j in sh.col && j in v.vert[sh.col[j]]
    ensures Linked(Unlink(m, j), sh, View(v.hdrs, Drop(sh, v.vert, j)))
    ensures SameSides(m, Unlink(m, j)) && Relink(Unlink(m, j), j) == m
  {
    var d := sh.col[j];
    assert j < |m| && m[j].col == d by { assert j in sh.tail; }
    assert VRing(m, d, v.vert[d]) by { assert ColumnLinked(m, sh, d, v.vert[d]); }
    UnlinkWrites(m, d, v.vert[d], j);
    TakenOutLinked(m, Unlink(m, j), sh, v, j);
  }

  ghost predicate Within(m: Mesh, js: seq<nat>) { forall k :: 0 <= k < |js| ==> js[k] < |m| }

  ghost function UnlinkAll(m: Mesh, js: seq<nat>): (r: Mesh)
    requires InBounds(m) && Within(m, js)
    ensures |r| == |m| && InBounds(r)
    decreases js
  {
    if js == [] then m else Unlink(UnlinkAll(m, js[..|js| - 1]), js[|js| - 1])
  }

  ghost function RelinkAll(m: Mesh, js: seq<nat>): (r: Mesh)
    requires InBounds(m) && Within(m, js)
    ensures |r| == |m| && InBounds(r)
    decreases js
  {
    if js == [] then m else RelinkAll(Relink(m, js[|js| - 1]), js[..|js| - 1])
  }

  ghost predicate InColumns(sh: Shape, vert: map<nat, seq<nat>>, js: seq<nat>) {
    forall j :: j in js ==> j in sh.col && sh.col[j] in vert && j in vert[sh.col[j]]
  }

  ghost function DropAll(sh: Shape, vert: map<nat, seq<nat>>, js: seq<nat>): (r: map<nat, seq<nat>>)
    requires InColumns(sh, vert, js)
    ensures r.Keys == vert.Keys
  {
    if js == [] then vert else Drop(sh, DropAll(sh, vert, js[..|js| - 1]), js[|js| - 1])
  }

  lemma {:induction false} DropAllMembers(sh: Shape, vert: map<nat, seq<nat>>, js: seq<nat>, d: nat)
    requires d in vert && Distinct(vert[d]) && Distinct(js) && InColumns(sh, vert, js)
    requires forall n :: n in vert[d] ==> n in sh.col && sh.col[n] == d
    ensures Distinct(DropAll(sh, vert, js)[d])
    ensures forall n :: n in DropAll(sh, vert, js)[d] <==> n in vert[d] && n !in js
    ensures (forall j :: j in js ==> sh.col[j] != d) ==> DropAll(sh, vert, js)[d] == vert[d]
  {
    if js != [] {
      var ks, j := js[..|js| - 1], js[|js| - 1];
      assert js == ks + [j];
      DropAllMembers(sh, vert, ks, d);
      if sh.col[j] == d {
        assert j !in ks;
        WithoutMembers(DropAll(sh, vert, ks)[d], j);
      }
    }
  }

  lemma SameSidesTransitive(m: Mesh, u: Mesh, w: Mesh)
    requires SameSides(m, u) && SameSides(u, w)
    ensures SameSides(m, w)
  {
  }

  lemma {:induction false} UnlinkAllKeeps(m: Mesh, sh: Shape, v: View, js: seq<nat>)
    requires Linked(m, sh, v) && Distinct(js) && InColumns(sh, v.vert, js)
    ensures Within(m, js)
    ensures Linked(UnlinkAll(m, js), sh, View(v.hdrs, DropAll(sh, v.vert, js)))
    ensures SameSides(m, UnlinkAll(m, js)) && RelinkAll(UnlinkAll(m, js), js) == m
  {
    assert Within(m, js) by {
      forall k | 0 <= k < |js| ensures js[k] < |m| { assert js[k] in js && js[k] in sh.tail; }
    }
    if js != [] {
      var ks, j := js[..|js| - 1], js[|js| - 1];
      UnlinkAllKeeps(m, sh, v, ks);
      var w, u := UnlinkAll(m, ks), UnlinkAll(m, js);
      assert j in DropAll(sh, v.vert, ks)[sh.col[j]] by {
        assert ColumnLinked(m, sh, sh.col[j], v.vert[sh.col[j]]);
        DropAllMembers(sh, v.vert, ks, sh.col[j]);
      }
      UnlinkKeeps(w, sh, View(v.hdrs, DropAll(sh, v.vert, ks)), j);
      SameSidesTransitive(m, w, u);
    }
  }

  // ---------- covering a column ----------

  /** u is m with header c taken out of the header ring. */
  ghost predicate HeaderOut(m: Mesh, u: Mesh, c: nat) {
    |u| == |m| && c < |m| && forall n :: 0 <= n < |m| ==>
      && u[n] == m[n].(left := u[n].left, right := u[n].right)
      && u[n].left == (if n == m[c].right then m[c].left else m[n].left)
      && u[n].right == (if n == m[c].left then m[c].right else m[n].right)
  }

  lemma UnlinkHeaderWrites(m: Mesh, d: nat, v: seq<nat>, c: nat)
    requires InBounds(m) && HRing(m, d, v) && c in v
    ensures c < |m| && HeaderOut(m, UnlinkHeader(m, c), c) && RelinkHeader(UnlinkHeader(m, c), c) == m
  {
    HRingNode(m, d, v, c);
    RelinkUnlinkHeader(m, c);
    forall n | 0 <= n < |m|
      ensures UnlinkHeader(m, c)[n] ==
        m[n].(left := if n == m[c].right then m[c].left else m[n].left,
              right := if n == m[c].left then m[c].right else m[n].right)
    {
      UnlinkHeaderFields(m, c, n);
    }
  }

  lemma HeaderOutRing(m: Mesh, u: Mesh, d: nat, v: seq<nat>, c: nat)
    requires HRing(m, d, v) && Distinct(v) && d !in v && c in v && HeaderOut(m, u, c)
    ensures HRing(u, d, Without(v, c))
  {
    var p :| 0 <= p < |v| && v[p] == c;
    WithoutAt(v, p);
    HRingRemove(m, u, d, v, p);
  }

  lemma HeaderOutRows(m: Mesh, u: Mesh, sh: Shape, hdrs: seq<nat>, c: nat)
    requires WFShape(sh) && RowsLinked(m, sh) && HeadersLinked(m, sh, hdrs) && c in hdrs && HeaderOut(m, u, c)
    ensures RowsLinked(u, sh)
  {
    HRingNode(m, sh.root, hdrs, c);
    forall n | n in sh.tail ensures HRing(u, n, sh.tail[n]) {
      assert n in sh.col;
      SameHRing(m, u, n, sh.tail[n]);
    }
  }

  lemma HeaderOutColumns(m: Mesh, u: Mesh, sh: Shape, vert: map<nat, seq<nat>>, c: nat)
    requires ColumnsLinked(m, sh, vert) && HeaderOut(m, u, c)
    ensures ColumnsLinked(u, sh, vert)
  {
    forall d | d in vert ensures ColumnLinked(u, sh, d, vert[d]) {
      assert ColumnLinked(m, sh, d, vert[d]);
      SameVRing(m, u, d, vert[d]);
    }
  }

  lemma UnlinkHeaderKeeps(m: Mesh, sh: Shape, v: View, c: nat)
    requires Linked(m, sh, v) && c in v.hdrs
    ensures c < |m| && Linked(UnlinkHeader(m, c), sh, View(Without(v.hdrs, c), v.vert))
    ensures RelinkHeader(UnlinkHeader(m, c), c) == m
    ensures HeaderOut(m, UnlinkHeader(m, c), c)
  {
    UnlinkHeaderWrites(m, sh.root, v.hdrs, c);
    WithoutMembers(v.hdrs, c);
    HeaderOutRing(m, UnlinkHeader(m, c), sh.root, v.hdrs, c);
    HeaderOutRows(m, UnlinkHeader(m, c), sh, v.hdrs, c);
    HeaderOutColumns(m, UnlinkHeader(m, c), sh, v.vert, c);
  }

  /** The nodes met by the two loops over column s: the tails of the rows of s, top to bottom. */
  ghost function Victims(sh: Shape, s: seq<nat>): seq<nat>
    requires forall n :: n in s ==> n in sh.tail
  {
    if s == [] then [] else Victims(sh, s[..|s| - 1]) + sh.tail[s[|s| - 1]]
  }

  ghost predicate OnePerColumn(sh: Shape) {
    forall n, k ::
      n in sh.col && k in sh.col && n in sh.rowOf && k in sh.rowOf &&
      sh.rowOf[n] == sh.rowOf[k] && sh.col[n] == sh.col[k]
      ==> n == k
  }

  lemma DistinctConcat<T(!new)>(a: seq<T>, b: seq<T>)
    requires Distinct(a) && Distinct(b) && forall x :: x in a ==> x !in b
    ensures Distinct(a + b)
  {
    forall i, j | 0 <= i < j < |a + b| ensures (a + b)[i] != (a + b)[j] {
      if i < |a| <= j { assert a[i] in a && b[j - |a|] in b; }
    }
  }

  lemma {:induction false} VictimsMembers(sh: Shape, s: seq<nat>, c: nat)
    requires WFShape(sh) && OnePerColumn(sh) && Distinct(s)
    requires forall n :: n in s ==> n in sh.col && sh.col[n] == c
    ensures Distinct(Victims(sh, s))
    ensures forall j :: j in Victims(sh, s) <==> exists n :: n in s && j in sh.tail[n]
  {
    if s != [] {
      var s', n := s[..|s| - 1], s[|s| - 1];
      assert s == s' + [n] && n !in s';
      VictimsMembers(sh, s', c);
      var a, b := Victims(sh, s'), sh.tail[n];
      forall j | j in a ensures j !in b {
        var k :| k in s' && j in sh.tail[k];
        assert sh.rowOf[k] != sh.rowOf[n];
      }
      assert Distinct(b);
      DistinctConcat(a, b);
    }
  }
}
