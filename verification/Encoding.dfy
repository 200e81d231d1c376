/** The matrix under construction: its lists, the index from names to headers, and the row of each pick. */
module Encoding {
  import opened DancingLinks
  import opened Assembly
  import opened SudokuRules
  import EC = ExactCover

  /** The first cur nodes hold a linked matrix with every header in the ring and every node in its column. */
  ghost predicate Built(m: Mesh, sh: Shape, v: View, cur: nat) {
    && Linked(m, sh, v) && OnePerColumn(sh) && sh.root == 0 < cur <= |m|
    && (forall d :: d in sh.cols ==> d < cur && d in v.hdrs)
    && (forall n :: n in sh.col ==> n < cur && sh.col[n] in v.vert && n in v.vert[sh.col[n]])
  }

  /** The matrix with all its rows on offer. */
  ghost function Whole(m: Mesh, sh: Shape, v: View): EC.Snap { EC.Snap(m, v, sh.rowOf.Values) }

  lemma BuiltGood(m: Mesh, sh: Shape, v: View, cur: nat)
    requires Built(m, sh, v, cur)
    ensures EC.Good(sh, Whole(m, sh, v))
  {
  }

  /** A header called name, alone and not in the header ring. */
  function NewColumn(m: Mesh, c: nat, name: int): (r: Mesh)
    requires InBounds(m) && c < |m|
    ensures |r| == |m| && InBounds(r)
  {
    m[c := Node(c, c, c, c, c, name, 0)]
  }

  ghost predicate SameNamesBelow(m: Mesh, u: Mesh, cur: nat) {
    |m| == |u| && cur <= |m| && forall n :: 0 <= n < cur ==> u[n].name == m[n].name
  }

  lemma BuiltFresh(m: Mesh, sh: Shape, v: View, cur: nat, x: nat)
    requires Built(m, sh, v, cur) && cur <= x < |m|
    ensures Lists(m, sh, v) && Fresh(m, sh, x) && x !in v.hdrs && sh.root !in sh.col && sh.root < |m|
    ensures forall n, j :: n in sh.tail && j in sh.tail[n] ==> j in sh.col
  {
    assert forall n :: n in sh.tail ==> n in sh.col;
    forall n, j | n in sh.tail && j in sh.tail[n] ensures j in sh.col && j < cur {
      assert j in sh.rowOf;
    }
  }

  ghost function ColumnShape(sh: Shape, c: nat): Shape { sh.(cols := sh.cols + {c}) }
  ghost function ColumnView(v: View, c: nat): View { View(v.hdrs + [c], v.vert[c := []]) }

  lemma ColumnAppended(m: Mesh, sh: Shape, v: View, cur: nat, name: int)
    requires Built(m, sh, v, cur) && cur < |m|
    ensures
      var u := PutLeft(NewColumn(m, cur, name), 0, cur);
      && Built(u, ColumnShape(sh, cur), ColumnView(v, cur), cur + 1)
      && u[cur].name == name && SameNamesBelow(m, u, cur)
  {
    hide HRing, VRing;
    var a := NewColumn(m, cur, name);
    BuiltFresh(m, sh, v, cur, cur);
    FreshWrite(m, a, sh, v, cur);
    RootLeft(a, sh, v.hdrs, cur);
    PutLeftJoins(a, 0, cur);
    var u := PutLeft(a, 0, cur);
    HeaderJoins(a, u, sh, v, cur);
    ColumnShapeOk(sh, v, cur, cur);
  }

  lemma RootLeft(m: Mesh, sh: Shape, hdrs: seq<nat>, x: nat)
    requires HeadersLinked(m, sh, hdrs) && x != sh.root && x !in hdrs
    ensures sh.root < |m| && m[sh.root].left != x
  {
    var s := Walk(sh.root, hdrs);
    assert m[s[|hdrs| + 1]].left == s[|hdrs|];
    assert hdrs != [] ==> s[|hdrs|] == hdrs[|hdrs| - 1] && s[|hdrs|] in hdrs;
  }

  lemma ColumnShapeOk(sh: Shape, v: View, c: nat, cur: nat)
    requires WFShape(sh) && OnePerColumn(sh) && c != sh.root && c !in sh.cols && c !in sh.col
    ensures WFShape(ColumnShape(sh, c)) && OnePerColumn(ColumnShape(sh, c))
  {
  }

  // ---------- one more row ----------

  /** As Built, but some of the last nodes may be in no row yet. */
  ghost predicate Growing(m: Mesh, sh: Shape, v: View, cur: nat) {
    && Lists(m, sh, v) && sh.root == 0 < cur <= |m| && sh.root !in sh.cols
    && (forall d :: d in sh.cols ==> d < cur && d in v.hdrs)
    && (forall n :: n in sh.col ==>
          n < cur && n != 0 && n !in sh.cols && sh.col[n] in sh.cols && sh.col[n] in v.vert && n in v.vert[sh.col[n]])
    && (forall n :: n in sh.tail ==> n in sh.col)
    && (forall n, j :: n in sh.tail && j in sh.tail[n] ==> j in sh.col)
  }

  lemma BuiltGrowing(m: Mesh, sh: Shape, v: View, cur: nat)
    requires Built(m, sh, v, cur)
    ensures Growing(m, sh, v, cur)
  {
    hide HRing, VRing;
    if cur < |m| { BuiltFresh(m, sh, v, cur, cur); }
    forall n, j | n in sh.tail && j in sh.tail[n] ensures j in sh.col { assert j in sh.rowOf; }
  }

  /** Left, right and name fields, except at x, are those of m. */
  ghost predicate SidesExcept(m: Mesh, u: Mesh, x: nat) {
    |u| == |m| && forall n :: 0 <= n < |m| && n != x ==>
      u[n].name == m[n].name && u[n].left == m[n].left && u[n].right == m[n].right && u[n].col == m[n].col
  }

  ghost predicate Single(m: Mesh, x: nat, d: nat, name: int) {
    x < |m| && m[x].name == name && m[x].left == x && m[x].right == x && m[x].col == d
  }

  lemma GrowingFresh(m: Mesh, sh: Shape, v: View, cur: nat)
    requires Growing(m, sh, v, cur) && cur < |m|
    ensures Fresh(m, sh, cur) && Lists(m, sh, v) && InBounds(m)
  {
    hide RowsLinked, ColumnsLinked, HeadersLinked;
    forall n | n in sh.tail ensures n != cur && cur !in sh.tail[n] {
      assert n in sh.col && (cur in sh.tail[n] ==> cur in sh.col);
    }
  }

  lemma NodeGrown(m: Mesh, sh: Shape, v: View, cur: nat, d: nat, name: int)
    requires Growing(m, sh, v, cur) && cur < |m| && d in sh.cols
    ensures InBounds(m) && d < |m| && d in v.vert
    ensures
      var u := NewRow(m, d, cur, name);
      && Growing(u, WithNode(sh, d, cur), BelowWith(v, d, cur), cur + 1)
      && SidesExcept(m, u, cur) && Single(u, cur, d, name)
  {
    hide HRing, VRing, Lists;
    GrowingFresh(m, sh, v, cur);
    NewRowLists(m, sh, v, d, cur, name);
  }

  /** The shape and the lists after one pick's four nodes a, a+1, a+2 and a+3 joined the columns ds. */
  ghost function PickNodes(sh: Shape, a: nat, ds: seq<nat>): Shape
    requires |ds| == 4
  {
    WithNodes(sh, a, ds[0], a + 1, ds[1], a + 2, ds[2], a + 3, ds[3])
  }

  ghost function PickShape(sh: Shape, a: nat, ds: seq<nat>, r: nat): Shape
    requires |ds| == 4
  {
    WithRow(PickNodes(sh, a, ds), a, a + 1, a + 2, a + 3, r)
  }

  lemma GrowingLoose(m: Mesh, sh: Shape, v: View, cur: nat, old': Shape, a: nat)
    requires Growing(m, sh, v, cur) && old'.col.Keys <= sh.col.Keys && sh.tail == old'.tail && a in sh.col
    requires a !in old'.col && forall n :: n in old'.tail ==> n in old'.col
    requires forall n, j :: n in old'.tail && j in old'.tail[n] ==> j in old'.col
    requires m[a].col == sh.col[a]
    ensures Loose(m, sh, a)
  {
  }

  lemma Tied(m: Mesh, a: nat)
    requires InBounds(m) && a + 3 < |m| && forall x :: a <= x < a + 4 ==> m[x].left == m[x].right == x
    ensures
      var u := PutLeft(PutLeft(PutLeft(m, a, a + 1), a, a + 2), a, a + 3);
      Ring4(u, a, a + 1, a + 2, a + 3) && OnlySidesOf(m, u, a, a + 1, a + 2, a + 3)
  {
    hide PutLeft;
    assert m[a].left == a;
    PutLeftJoins(m, a, a + 1);
    var m1 := PutLeft(m, a, a + 1);
    assert m1[a].left == a + 1;
    PutLeftJoins(m1, a, a + 2);
    var m2 := PutLeft(m1, a, a + 2);
    assert m2[a].left == a + 2;
    PutLeftJoins(m2, a, a + 3);
    var u := PutLeft(m2, a, a + 3);
    FourTied(m, m1, m2, u, a, a + 1, a + 2, a + 3);
    FourTiedOnly(m, m1, m2, u, a, a + 1, a + 2, a + 3);
  }

  lemma PickShapeOk(sh: Shape, a: nat, ds: seq<nat>, r: nat)
    requires WFShape(sh) && OnePerColumn(sh) && |ds| == 4 && Distinct(ds)
    requires forall d :: d in ds ==> d in sh.cols
    requires forall x :: a <= x < a + 4 ==> x !in sh.cols && x !in sh.col && x != sh.root
    requires r !in sh.rowOf.Values
    ensures WFShape(PickShape(sh, a, ds, r)) && OnePerColumn(PickShape(sh, a, ds, r))
  {
    var t := PickShape(sh, a, ds, r);
    PickShapeIs(sh, a, ds, r);
    hide IsWithRow, PickShape, WithRow;
    WithRowShape(sh, t, a, a + 1, a + 2, a + 3, r);
    PickShapeOnce(sh, a, ds, r);
  }

  lemma PickShapeOnce(sh: Shape, a: nat, ds: seq<nat>, r: nat)
    requires WFShape(sh) && OnePerColumn(sh) && |ds| == 4 && Distinct(ds)
    requires forall x :: a <= x < a + 4 ==> x !in sh.col
    requires r !in sh.rowOf.Values
    ensures OnePerColumn(PickShape(sh, a, ds, r))
  {
    WithRowOnce(sh, a, ds[0], a + 1, ds[1], a + 2, ds[2], a + 3, ds[3], r);
  }

  lemma PickShapeIs(sh: Shape, a: nat, ds: seq<nat>, r: nat)
    requires WFShape(sh) && |ds| == 4
    requires forall d :: d in ds ==> d in sh.cols
    requires forall x :: a <= x < a + 4 ==> x !in sh.cols && x !in sh.col && x != sh.root
    requires r !in sh.rowOf.Values
    ensures IsWithRow(sh, PickShape(sh, a, ds, r), a, a + 1, a + 2, a + 3, r)
  {
    var t := PickShape(sh, a, ds, r);
    assert ds[0] in ds && ds[1] in ds && ds[2] in ds && ds[3] in ds;
    assert t.col == sh.col[a := ds[0]][a + 1 := ds[1]][a + 2 := ds[2]][a + 3 := ds[3]];
    forall n | n in t.col ensures t.col[n] in sh.cols {
      if n in sh.col { assert t.col[n] == sh.col[n]; }
    }
  }

  function FourNodes(m: Mesh, a: nat, ds: seq<nat>, names: seq<int>): (r: Mesh)
    requires InBounds(m) && a + 4 <= |m| && |ds| == |names| == 4 && forall k :: 0 <= k < 4 ==> ds[k] < |m|
    ensures |r| == |m| && InBounds(r)
  {
    NewRow(NewRow(NewRow(NewRow(m, ds[0], a, names[0]), ds[1], a + 1, names[1]),
                  ds[2], a + 2, names[2]), ds[3], a + 3, names[3])
  }

  ghost function FourView(v: View, a: nat, ds: seq<nat>): View
    requires |ds| == 4 && forall k :: 0 <= k < 4 ==> ds[k] in v.vert
  {
    BelowWith(BelowWith(BelowWith(BelowWith(v, ds[0], a), ds[1], a + 1), ds[2], a + 2), ds[3], a + 3)
  }

  ghost predicate FourSingles(m: Mesh, u: Mesh, a: nat, ds: seq<nat>, names: seq<int>)
    requires |ds| == |names| == 4
  {
    && (forall k :: 0 <= k < 4 ==> Single(u, a + k, ds[k], names[k]))
    && |u| == |m| && forall n :: 0 <= n < |m| && n != a && n != a + 1 && n != a + 2 && n != a + 3 ==>
         u[n].name == m[n].name && u[n].col == m[n].col
  }

  lemma FourGrown(m: Mesh, sh: Shape, v: View, a: nat, ds: seq<nat>, names: seq<int>)
    requires Growing(m, sh, v, a) && a + 4 <= |m| && |ds| == |names| == 4
    requires forall k :: 0 <= k < 4 ==> ds[k] in sh.cols
    ensures InBounds(m) && forall k :: 0 <= k < 4 ==> ds[k] < |m| && ds[k] in v.vert
    ensures Growing(FourNodes(m, a, ds, names), PickNodes(sh, a, ds), FourView(v, a, ds), a + 4)
    ensures FourSingles(m, FourNodes(m, a, ds, names), a, ds, names)
  {
    hide Growing, NewRow, InBounds;
    NodeGrown(m, sh, v, a, ds[0], names[0]);
    var m1, sh1, v1 := NewRow(m, ds[0], a, names[0]), WithNode(sh, ds[0], a), BelowWith(v, ds[0], a);
    NodeGrown(m, sh, v, a, ds[1], names[1]);
    NodeGrown(m, sh, v, a, ds[2], names[2]);
    NodeGrown(m, sh, v, a, ds[3], names[3]);
    NodeGrown(m1, sh1, v1, a + 1, ds[1], names[1]);
    var m2, sh2, v2 := NewRow(m1, ds[1], a + 1, names[1]), WithNode(sh1, ds[1], a + 1), BelowWith(v1, ds[1], a + 1);
    NodeGrown(m2, sh2, v2, a + 2, ds[2], names[2]);
    var m3, sh3, v3 := NewRow(m2, ds[2], a + 2, names[2]), WithNode(sh2, ds[2], a + 2), BelowWith(v2, ds[2], a + 2);
    NodeGrown(m3, sh3, v3, a + 3, ds[3], names[3]);
  }

  /** The mesh after one pick's nodes are made and tied into a row. */
  function PickMesh(m: Mesh, a: nat, ds: seq<nat>, names: seq<int>): (r: Mesh)
    requires InBounds(m) && a + 4 <= |m| && |ds| == |names| == 4 && forall k :: 0 <= k < 4 ==> ds[k] < |m|
    ensures |r| == |m| && InBounds(r)
  {
    PutLeft(PutLeft(PutLeft(FourNodes(m, a, ds, names), a, a + 1), a, a + 2), a, a + 3)
  }

  lemma PickNodesIs(sh: Shape, a: nat, ds: seq<nat>, k: nat)
    requires |ds| == 4 && k < 4
    ensures
      var t := PickNodes(sh, a, ds);
      t.tail == sh.tail && sh.col.Keys <= t.col.Keys && a + k in t.col && t.col[a + k] == ds[k]
  {
    assert PickNodes(sh, a, ds).col == sh.col[a := ds[0]][a + 1 := ds[1]][a + 2 := ds[2]][a + 3 := ds[3]];
  }

  lemma BuiltTails(m: Mesh, sh: Shape, v: View, a: nat)
    requires Built(m, sh, v, a)
    ensures (forall x :: a <= x ==> x !in sh.col) && forall n :: n in sh.tail ==> n in sh.col
    ensures forall n, j :: n in sh.tail && j in sh.tail[n] ==> j in sh.col
  {
    forall n, j | n in sh.tail && j in sh.tail[n] ensures j in sh.col { assert j in sh.rowOf; }
  }

  lemma PickLoose(m: Mesh, f: Mesh, sh: Shape, v: View, a: nat, ds: seq<nat>, names: seq<int>, k: nat)
    requires Built(m, sh, v, a) && a + 4 <= |m| && |ds| == |names| == 4 && k < 4
    requires forall i :: 0 <= i < 4 ==> ds[i] in v.vert
    requires Growing(f, PickNodes(sh, a, ds), FourView(v, a, ds), a + 4) && FourSingles(m, f, a, ds, names)
    ensures Loose(f, PickNodes(sh, a, ds), a + k)
  {
    hide Growing, FourView, Built, PickNodes;
    BuiltTails(m, sh, v, a);
    PickNodesIs(sh, a, ds, k);
    assert Single(f, a + k, ds[k], names[k]);
    GrowingLoose(f, PickNodes(sh, a, ds), FourView(v, a, ds), a + 4, sh, a + k);
  }

  lemma PickLists(m: Mesh, f: Mesh, u: Mesh, sh: Shape, v: View, a: nat, ds: seq<nat>, names: seq<int>, r: nat)
    requires Built(m, sh, v, a) && a + 4 <= |m| && |ds| == |names| == 4
    requires forall i :: 0 <= i < 4 ==> ds[i] in v.vert
    requires Growing(f, PickNodes(sh, a, ds), FourView(v, a, ds), a + 4) && FourSingles(m, f, a, ds, names)
    requires InBounds(u) && OnlySidesOf(f, u, a, a + 1, a + 2, a + 3) && Ring4(u, a, a + 1, a + 2, a + 3)
    ensures Lists(u, PickShape(sh, a, ds, r), FourView(v, a, ds))
  {
    hide Built, FourSingles, FourView, Lists, Loose, PickNodes, WithRow, OnlySidesOf, Ring4, InBounds;
    PickLoose(m, f, sh, v, a, ds, names, 0);
    PickLoose(m, f, sh, v, a, ds, names, 1);
    PickLoose(m, f, sh, v, a, ds, names, 2);
    PickLoose(m, f, sh, v, a, ds, names, 3);
    RowAdded(f, u, PickNodes(sh, a, ds), FourView(v, a, ds), a, a + 1, a + 2, a + 3, r);
  }

  lemma PickColumns(f: Mesh, sh: Shape, v: View, a: nat, ds: seq<nat>, r: nat)
    requires |ds| == 4 && (forall i :: 0 <= i < 4 ==> ds[i] in v.vert)
    requires Growing(f, PickNodes(sh, a, ds), FourView(v, a, ds), a + 4)
    ensures
      var t, w := PickShape(sh, a, ds, r), FourView(v, a, ds);
      && t.root == 0 && (forall d :: d in t.cols ==> d < a + 4 && d in w.hdrs)
      && forall n :: n in t.col ==> n < a + 4 && t.col[n] in w.vert && n in w.vert[t.col[n]]
  {
    hide PickNodes, FourView, Lists;
  }

  lemma BuiltDistinct(m: Mesh, sh: Shape, v: View, a: nat, ds: seq<nat>)
    requires Built(m, sh, v, a) && |ds| == 4 && forall k :: 0 <= k < 4 ==> ds[k] in sh.cols
    ensures WFShape(sh) && OnePerColumn(sh) && (forall d :: d in ds ==> d in sh.cols)
    ensures forall x :: a <= x ==> x !in sh.cols && x !in sh.col && x != sh.root
  {
  }

  lemma PickAdded(m: Mesh, sh: Shape, v: View, a: nat, ds: seq<nat>, names: seq<int>, r: nat)
    requires Built(m, sh, v, a) && a + 4 <= |m| && |ds| == |names| == 4 && Distinct(ds)
    requires (forall k :: 0 <= k < 4 ==> ds[k] in sh.cols) && r !in sh.rowOf.Values
    ensures InBounds(m) && forall k :: 0 <= k < 4 ==> ds[k] < |m| && ds[k] in v.vert
    ensures Built(PickMesh(m, a, ds, names), PickShape(sh, a, ds, r), FourView(v, a, ds), a + 4)
    ensures SameNamesBelow(m, PickMesh(m, a, ds, names), a)
    ensures forall k :: 0 <= k < 4 ==> PickMesh(m, a, ds, names)[a + k].name == names[k]
  {
    hide *;
    BuiltGrowing(m, sh, v, a);
    BuiltDistinct(m, sh, v, a, ds);
    FourGrown(m, sh, v, a, ds, names);
    var f := FourNodes(m, a, ds, names);
    SinglesSelf(m, f, a, ds, names);
    Tied(f, a);
    PickMeshIs(m, a, ds, names);
    var u := PickMesh(m, a, ds, names);
    PickLists(m, f, u, sh, v, a, ds, names, r);
    PickShapeOk(sh, a, ds, r);
    PickColumns(f, sh, v, a, ds, r);
    MakeBuilt(u, PickShape(sh, a, ds, r), FourView(v, a, ds), a + 4);
    PickNames(m, f, u, a, ds, names);
  }

  lemma PickMeshIs(m: Mesh, a: nat, ds: seq<nat>, names: seq<int>)
    requires InBounds(m) && a + 4 <= |m| && |ds| == |names| == 4 && forall k :: 0 <= k < 4 ==> ds[k] < |m|
    ensures PickMesh(m, a, ds, names) ==
      PutLeft(PutLeft(PutLeft(FourNodes(m, a, ds, names), a, a + 1), a, a + 2), a, a + 3)
    ensures InBounds(PickMesh(m, a, ds, names))
  {
    hide PutLeft, FourNodes, InBounds;
  }

  lemma MakeBuilt(m: Mesh, sh: Shape, v: View, cur: nat)
    requires Lists(m, sh, v) && WFShape(sh) && OnePerColumn(sh) && sh.root == 0 < cur <= |m|
    requires forall d :: d in sh.cols ==> d < cur && d in v.hdrs
    requires forall n :: n in sh.col ==> n < cur && sh.col[n] in v.vert && n in v.vert[sh.col[n]]
    ensures Built(m, sh, v, cur)
  {
  }

  lemma PickNames(m: Mesh, f: Mesh, u: Mesh, a: nat, ds: seq<nat>, names: seq<int>)
    requires |ds| == |names| == 4 && a + 4 <= |m| == |f|
    requires FourSingles(m, f, a, ds, names) && OnlySidesOf(f, u, a, a + 1, a + 2, a + 3)
    ensures SameNamesBelow(m, u, a) && forall k :: 0 <= k < 4 ==> u[a + k].name == names[k]
  {
    forall k | 0 <= k < 4 ensures u[a + k].name == names[k] {
      assert Single(f, a + k, ds[k], names[k]);
    }
  }

  lemma SinglesSelf(m: Mesh, f: Mesh, a: nat, ds: seq<nat>, names: seq<int>)
    requires |ds| == |names| == 4 && FourSingles(m, f, a, ds, names)
    ensures a + 3 < |f| && forall x :: a <= x < a + 4 ==> f[x].left == f[x].right == x
  {
    assert Single(f, a + 0, ds[0], names[0]) && Single(f, a + 1, ds[1], names[1]);
    assert Single(f, a + 2, ds[2], names[2]) && Single(f, a + 3, ds[3], names[3]);
  }

  // ---------- names, headers and picks ----------

  const NAMES := 400

  /** cols maps each name in use to its header, and 0 stands for a name not in use. */
  ghost predicate Indexed(m: Mesh, sh: Shape, cols: seq<nat>) {
    && |cols| == NAMES
    && (forall k :: 0 <= k < NAMES && cols[k] != 0 ==>
          cols[k] in sh.cols && cols[k] < |m| && m[cols[k]].name == k)
    && (forall c :: c in sh.cols ==> c != 0 && c < |m| && 0 <= m[c].name < NAMES && cols[m[c].name] == c)
  }

  /** The four names a pick covers: its cell, and its value in the cell's row, column and box. */
  function NameOf(p: Pick, q: nat): (k: nat)
    requires p.cell < CELLS && q < 4
  {
    if q == 0 then p.cell else UnitName(q - 1, Unit(q - 1, p.cell), p.val)
  }

  lemma NameOfBounds(p: Pick, q: nat, q': nat)
    requires p.cell < CELLS && p.val <= 9 && q < 4 && q' < 4
    ensures NameOf(p, q) < NAMES && (NameOf(p, q) == NameOf(p, q') ==> q == q')
    ensures q == 0 <==> NameOf(p, q) < 100
    ensures q > 0 ==> NameOf(p, q) % 10 == p.val % 10
  {
    if q > 0 { NameDecodes(q - 1, Unit(q - 1, p.cell), p.val, q - 1, 0, 0); }
    if q' > 0 { NameDecodes(q' - 1, Unit(q' - 1, p.cell), p.val, q' - 1, 0, 0); }
    if q > 0 && q' > 0 {
      NameDecodes(q - 1, Unit(q - 1, p.cell), p.val, q' - 1, Unit(q' - 1, p.cell), p.val);
    }
  }

  lemma CoversNameOf(p: Pick, k: nat)
    requires p.cell < CELLS
    ensures Covers(p, k) <==> exists q :: 0 <= q < 4 && k == NameOf(p, q)
  {
    if Covers(p, k) && k != p.cell {
      var kind :| 0 <= kind < 3 && k == UnitName(kind, Unit(kind, p.cell), p.val);
      assert k == NameOf(p, kind + 1);
    }
    if k == p.cell { assert k == NameOf(p, 0); }
    forall q | 0 <= q < 4 && k == NameOf(p, q) ensures Covers(p, k) {
      if q > 0 { assert k == UnitName(q - 1, Unit(q - 1, p.cell), p.val); }
    }
  }

  /** Node n has one of the names of its pick, and is below the header of that name. */
  ghost predicate NodeCoded(m: Mesh, sh: Shape, cols: seq<nat>, opts: seq<Pick>, n: nat) {
    && n < |m| && n in sh.rowOf && n in sh.col && sh.rowOf[n] < |opts| && opts[sh.rowOf[n]].cell < CELLS
    && exists q :: 0 <= q < 4 && m[n].name == NameOf(opts[sh.rowOf[n]], q)
         && m[n].name < |cols| && sh.col[n] == cols[m[n].name]
  }

  /** Row r is pick opts[r]: its node at[r] + q has the pick's q-th name. */
  ghost predicate RowCoded(m: Mesh, sh: Shape, opts: seq<Pick>, at: seq<nat>, r: nat, q: nat) {
    && r < |opts| == |at| && q < 4 && opts[r].cell < CELLS && 1 <= opts[r].val <= 9
    && at[r] + q in sh.rowOf && sh.rowOf[at[r] + q] == r && at[r] + q < |m|
    && m[at[r] + q].name == NameOf(opts[r], q)
  }

  ghost predicate Coded(m: Mesh, sh: Shape, cols: seq<nat>, opts: seq<Pick>, at: seq<nat>) {
    && |at| == |opts|
    && (forall n :: n in sh.rowOf ==> NodeCoded(m, sh, cols, opts, n))
    && (forall r, q :: 0 <= r < |opts| && 0 <= q < 4 ==> RowCoded(m, sh, opts, at, r, q))
  }

  ghost predicate Ready(m: Mesh, sh: Shape, v: View, cur: nat, cols: seq<nat>, opts: seq<Pick>, at: seq<nat>) {
    Built(m, sh, v, cur) && Indexed(m, sh, cols) && Coded(m, sh, cols, opts, at)
  }

  lemma ColumnIndexed(m: Mesh, u: Mesh, sh: Shape, cols: seq<nat>, opts: seq<Pick>, at: seq<nat>, cur: nat, k: nat)
    requires Indexed(m, sh, cols) && Coded(m, sh, cols, opts, at) && SameNamesBelow(m, u, cur)
    requires 0 < cur < |m| && k < NAMES && cols[k] == 0 && u[cur].name == k
    requires (forall c :: c in sh.cols ==> c < cur)
      && forall n :: n in sh.rowOf ==> n in sh.col && n < cur && sh.col[n] in sh.cols
    requires sh.root == 0 && 0 !in sh.cols
    ensures Indexed(u, ColumnShape(sh, cur), cols[k := cur]) && Coded(u, ColumnShape(sh, cur), cols[k := cur], opts, at)
  {
    var sh', cols' := ColumnShape(sh, cur), cols[k := cur];
    forall n | n in sh'.rowOf ensures NodeCoded(u, sh', cols', opts, n) {
      assert NodeCoded(m, sh, cols, opts, n);
      var q :| 0 <= q < 4 && m[n].name == NameOf(opts[sh.rowOf[n]], q)
               && m[n].name < |cols| && sh.col[n] == cols[m[n].name];
      assert u[n].name == m[n].name != k;
      assert u[n].name == NameOf(opts[sh'.rowOf[n]], q) && sh'.col[n] == cols'[u[n].name];
    }
    forall r, q | 0 <= r < |opts| && 0 <= q < 4 ensures RowCoded(u, sh', opts, at, r, q) {
      assert RowCoded(m, sh, opts, at, r, q);
    }
  }

  lemma PickColumnsDistinct(m: Mesh, sh: Shape, cols: seq<nat>, p: Pick, ds: seq<nat>)
    requires Indexed(m, sh, cols) && p.cell < CELLS && p.val <= 9 && |ds| == 4
    requires forall q :: 0 <= q < 4 ==> NameOf(p, q) < NAMES && ds[q] == cols[NameOf(p, q)] != 0
    ensures Distinct(ds) && forall q :: 0 <= q < 4 ==> ds[q] in sh.cols
  {
    forall i, j | 0 <= i < j < 4 ensures ds[i] != ds[j] {
      NameOfBounds(p, i, j);
      assert m[ds[i]].name == NameOf(p, i) && m[ds[j]].name == NameOf(p, j);
    }
  }

  lemma PickShapeMaps(sh: Shape, a: nat, ds: seq<nat>, r: nat)
    requires |ds| == 4
    ensures
      var t := PickShape(sh, a, ds, r);
      && t.cols == sh.cols && t.root == sh.root
      && (forall n :: a <= n < a + 4 ==> n in t.rowOf && t.rowOf[n] == r && n in t.col && t.col[n] == ds[n - a])
      && (forall n :: n in t.rowOf ==> n in sh.rowOf || a <= n < a + 4)
      && (forall n :: n in sh.rowOf && !(a <= n < a + 4) ==> n in t.rowOf && t.rowOf[n] == sh.rowOf[n])
      && (forall n :: n in sh.col && !(a <= n < a + 4) ==> n in t.col && t.col[n] == sh.col[n])
  {
    assert PickShape(sh, a, ds, r).col == sh.col[a := ds[0]][a + 1 := ds[1]][a + 2 := ds[2]][a + 3 := ds[3]];
  }

  ghost predicate PickJoins(m: Mesh, u: Mesh, sh: Shape, cols: seq<nat>, opts: seq<Pick>,
    at: seq<nat>, a: nat, p: Pick, ds: seq<nat>) {
    && Coded(m, sh, cols, opts, at) && SameNamesBelow(m, u, a) && a + 4 <= |m|
    && p.cell < CELLS && 1 <= p.val <= 9 && |ds| == 4 && |cols| == NAMES
    && (forall q :: 0 <= q < 4 ==> NameOf(p, q) < NAMES && ds[q] == cols[NameOf(p, q)])
    && (forall n :: a <= n < a + 4 ==> u[n].name == NameOf(p, n - a))
    && (forall n :: n in sh.rowOf ==> n < a)
  }

  lemma PickNodeCoded(m: Mesh, u: Mesh, sh: Shape, cols: seq<nat>, opts: seq<Pick>,
    at: seq<nat>, a: nat, p: Pick, ds: seq<nat>, n: nat)
    requires PickJoins(m, u, sh, cols, opts, at, a, p, ds) && n in PickShape(sh, a, ds, |opts|).rowOf
    ensures NodeCoded(u, PickShape(sh, a, ds, |opts|), cols, opts + [p], n)
  {
    hide PickShape, NameOf, RowCoded, Unit;
    var t, opts' := PickShape(sh, a, ds, |opts|), opts + [p];
    PickShapeMaps(sh, a, ds, |opts|);
    if n in sh.rowOf {
      assert NodeCoded(m, sh, cols, opts, n);
      var q :| 0 <= q < 4 && m[n].name == NameOf(opts[sh.rowOf[n]], q)
               && m[n].name < |cols| && sh.col[n] == cols[m[n].name];
      assert opts'[t.rowOf[n]] == opts[sh.rowOf[n]];
      assert u[n].name == NameOf(opts'[t.rowOf[n]], q) && t.col[n] == cols[u[n].name];
    } else {
      assert opts'[t.rowOf[n]] == p;
      assert u[n].name == NameOf(opts'[t.rowOf[n]], n - a) && t.col[n] == cols[u[n].name];
    }
  }

  lemma PickRowCoded(m: Mesh, u: Mesh, sh: Shape, cols: seq<nat>, opts: seq<Pick>,
    at: seq<nat>, a: nat, p: Pick, ds: seq<nat>, r: nat, q: nat)
    requires PickJoins(m, u, sh, cols, opts, at, a, p, ds) && r <= |opts| && q < 4
    ensures RowCoded(u, PickShape(sh, a, ds, |opts|), opts + [p], at + [a], r, q)
  {
    hide PickShape, NameOf, NodeCoded, Unit;
    PickShapeMaps(sh, a, ds, |opts|);
    if r < |opts| {
      assert RowCoded(m, sh, opts, at, r, q);
    } else {
      assert u[a + q].name == NameOf(p, q);
    }
  }

  lemma PickCoded(m: Mesh, u: Mesh, sh: Shape, cols: seq<nat>, opts: seq<Pick>,
    at: seq<nat>, a: nat, p: Pick, ds: seq<nat>)
    requires Indexed(m, sh, cols) && PickJoins(m, u, sh, cols, opts, at, a, p, ds)
    requires forall c :: c in sh.cols ==> c < a
    ensures Indexed(u, PickShape(sh, a, ds, |opts|), cols)
    ensures Coded(u, PickShape(sh, a, ds, |opts|), cols, opts + [p], at + [a])
  {
    hide PickShape, NameOf, NodeCoded, RowCoded;
    PickShapeMaps(sh, a, ds, |opts|);
    var t := PickShape(sh, a, ds, |opts|);
    forall n | n in t.rowOf ensures NodeCoded(u, t, cols, opts + [p], n) {
      PickNodeCoded(m, u, sh, cols, opts, at, a, p, ds, n);
    }
    forall s, q | 0 <= s < |opts + [p]| && 0 <= q < 4 ensures RowCoded(u, t, opts + [p], at + [a], s, q) {
      PickRowCoded(m, u, sh, cols, opts, at, a, p, ds, s, q);
    }
  }

  lemma ReadyFacts(m: Mesh, sh: Shape, v: View, cur: nat, cols: seq<nat>, opts: seq<Pick>, at: seq<nat>)
    requires Ready(m, sh, v, cur, cols, opts, at)
    ensures Built(m, sh, v, cur) && Indexed(m, sh, cols) && Coded(m, sh, cols, opts, at)
    ensures InBounds(m) && sh.root == 0 < cur <= |m| && 0 !in sh.cols && |cols| == NAMES
    ensures (forall c :: c in sh.cols ==> c < cur)
      && forall n :: n in sh.rowOf ==> n in sh.col && n < cur && sh.col[n] in sh.cols
    ensures forall k :: 0 <= k < NAMES ==> cols[k] < |m|
  {
    hide Coded, Lists;
    forall n | n in sh.rowOf ensures n in sh.col && n < cur && sh.col[n] in sh.cols {}
  }

  lemma MakeReady(m: Mesh, sh: Shape, v: View, cur: nat, cols: seq<nat>, opts: seq<Pick>, at: seq<nat>)
    requires Built(m, sh, v, cur) && Indexed(m, sh, cols) && Coded(m, sh, cols, opts, at)
    ensures Ready(m, sh, v, cur, cols, opts, at)
  {
  }

  lemma FreshRow(m: Mesh, sh: Shape, cols: seq<nat>, opts: seq<Pick>, at: seq<nat>)
    requires Coded(m, sh, cols, opts, at)
    ensures |opts| !in sh.rowOf.Values
  {
    forall n | n in sh.rowOf ensures sh.rowOf[n] != |opts| { assert NodeCoded(m, sh, cols, opts, n); }
  }

  // ---------- the finished matrix stands for the board ----------

  ghost predicate Encodes(b: seq<int>, m: Mesh, sh: Shape, v: View, cols: seq<nat>, opts: seq<Pick>, at: seq<nat>) {
    && IsBoard(b) && Indexed(m, sh, cols) && Coded(m, sh, cols, opts, at)
    && (forall d :: d in sh.cols <==> d in v.hdrs) && (forall n :: n in sh.col ==> sh.col[n] in sh.cols)
    && (forall k :: 0 <= k < NAMES ==> (cols[k] != 0 <==> Needed(b, k)))
    && (forall p :: Candidate(b, p) <==> p in opts) && Distinct(opts)
  }

  lemma HitsName(m: Mesh, sh: Shape, cols: seq<nat>, opts: seq<Pick>, at: seq<nat>, r: nat, k: nat)
    requires Indexed(m, sh, cols) && Coded(m, sh, cols, opts, at) && r < |opts| && k < NAMES && cols[k] != 0
    requires (forall n :: n in sh.rowOf ==> n in sh.col) && forall n :: n in sh.col ==> sh.col[n] in sh.cols
    ensures opts[r].cell < CELLS && (EC.Hits(sh, r, cols[k]) <==> Covers(opts[r], k))
  {
    hide NameOf, Covers;
    assert RowCoded(m, sh, opts, at, r, 0);
    CoversNameOf(opts[r], k);
    if EC.Hits(sh, r, cols[k]) {
      var n :| n in sh.rowOf && n in sh.col && sh.rowOf[n] == r && sh.col[n] == cols[k];
      assert NodeCoded(m, sh, cols, opts, n);
      var q :| 0 <= q < 4 && m[n].name == NameOf(opts[sh.rowOf[n]], q)
               && m[n].name < |cols| && sh.col[n] == cols[m[n].name];
      assert m[cols[m[n].name]].name == m[n].name;
    }
    if Covers(opts[r], k) {
      var q :| 0 <= q < 4 && k == NameOf(opts[r], q);
      assert RowCoded(m, sh, opts, at, r, q);
      assert NodeCoded(m, sh, cols, opts, at[r] + q);
    }
  }

  lemma NeededBounds(b: seq<int>, k: int)
    requires |b| == CELLS && Needed(b, k)
    ensures 0 <= k < NAMES
  {
    if !(0 <= k < CELLS) {
      var kind, u, v :| 0 <= kind < 3 && 0 <= u < 9 && 1 <= v <= 9 && k == UnitName(kind, u, v) && !Seen(b, kind, u, v);
      NameDecodes(kind, u, v, kind, u, v);
    }
  }

  ghost predicate EncodesOk(b: seq<int>, m: Mesh, sh: Shape, v: View, cols: seq<nat>, opts: seq<Pick>, at: seq<nat>) {
    && Encodes(b, m, sh, v, cols, opts, at) && sh.rowOf.Keys == sh.col.Keys
  }

  ghost function PickSet(opts: seq<Pick>, sel: set<nat>): set<Pick> {
    set r | r in sel && r < |opts| :: opts[r]
  }

  ghost function RowSet(opts: seq<Pick>, ps: set<Pick>): set<nat> {
    set r | 0 <= r < |opts| && opts[r] in ps
  }

  lemma RowIds(m: Mesh, sh: Shape, cols: seq<nat>, opts: seq<Pick>, at: seq<nat>, r: nat)
    requires Coded(m, sh, cols, opts, at)
    ensures r in sh.rowOf.Values <==> r < |opts|
  {
    if r in sh.rowOf.Values {
      var n :| n in sh.rowOf && sh.rowOf[n] == r;
      assert NodeCoded(m, sh, cols, opts, n);
    }
    if r < |opts| { assert RowCoded(m, sh, opts, at, r, 0); }
  }

  /** Row r of the matrix meets the header of name k exactly when its pick covers k. */
  lemma EncodedHits(b: seq<int>, m: Mesh, sh: Shape, v: View, cols: seq<nat>, opts: seq<Pick>,
    at: seq<nat>, r: nat, k: int)
    requires EncodesOk(b, m, sh, v, cols, opts, at) && r < |opts| && Needed(b, k)
    ensures 0 <= k < NAMES && cols[k] in v.hdrs && (EC.Hits(sh, r, cols[k]) <==> Covers(opts[r], k))
  {
    hide Coded, Covers, Candidate, EC.Hits, Distinct;
    NeededBounds(b, k);
    HitsName(m, sh, cols, opts, at, r, k);
  }

  /** The rows of an exact cover of the matrix are picks that exactly cover what the board lacks. */
  lemma CoverToPicks(b: seq<int>, m: Mesh, sh: Shape, v: View, cols: seq<nat>, opts: seq<Pick>,
    at: seq<nat>, sel: set<nat>)
    requires EncodesOk(b, m, sh, v, cols, opts, at) && EC.IsExactCover(sh, Whole(m, sh, v), sel)
    ensures IsPickCover(b, PickSet(opts, sel))
  {
    hide Coded, Covers, Needed, Candidate, EC.Hits, Distinct, Indexed;
    var ps := PickSet(opts, sel);
    forall p | p in ps ensures Candidate(b, p) {
      var r :| r in sel && r < |opts| && opts[r] == p;
      assert p in opts;
    }
    forall k | Needed(b, k) ensures exists p :: p in ps && Covers(p, k) {
      NeededBounds(b, k);
      IndexedNeeded(b, m, sh, v, cols, opts, at, k);
      var r :| r in sel && EC.Hits(sh, r, cols[k]);
      RowIds(m, sh, cols, opts, at, r);
      EncodedHits(b, m, sh, v, cols, opts, at, r, k);
      assert opts[r] in ps;
    }
    forall k, p, q | Needed(b, k) && p in ps && q in ps && Covers(p, k) && Covers(q, k) ensures p == q {
      var r :| r in sel && r < |opts| && opts[r] == p;
      var s :| s in sel && s < |opts| && opts[s] == q;
      EncodedHits(b, m, sh, v, cols, opts, at, r, k);
      EncodedHits(b, m, sh, v, cols, opts, at, s, k);
    }
  }

  lemma IndexedNeeded(b: seq<int>, m: Mesh, sh: Shape, v: View, cols: seq<nat>, opts: seq<Pick>, at: seq<nat>, k: nat)
    requires Encodes(b, m, sh, v, cols, opts, at) && k < NAMES && Needed(b, k)
    ensures k < |cols| && cols[k] in v.hdrs
  {
    hide Coded, Needed, Candidate;
  }

  lemma HeaderNeeded(b: seq<int>, m: Mesh, sh: Shape, v: View, cols: seq<nat>, opts: seq<Pick>, at: seq<nat>, d: nat)
    requires Encodes(b, m, sh, v, cols, opts, at) && d in sh.cols
    ensures d < |m| && 0 <= m[d].name < NAMES == |cols| && cols[m[d].name] == d && Needed(b, m[d].name)
  {
    hide Coded, Needed, Candidate;
  }

  /** And picks that exactly cover what the board lacks are an exact cover of the matrix. */
  lemma PicksToCover(b: seq<int>, m: Mesh, sh: Shape, v: View, cols: seq<nat>, opts: seq<Pick>,
    at: seq<nat>, ps: set<Pick>)
    requires EncodesOk(b, m, sh, v, cols, opts, at) && IsPickCover(b, ps)
    ensures EC.IsExactCover(sh, Whole(m, sh, v), RowSet(opts, ps))
  {
    hide Coded, Covers, Needed, Candidate, EC.Hits, Indexed;
    var sel := RowSet(opts, ps);
    forall r | r in sel ensures r in sh.rowOf.Values { RowIds(m, sh, cols, opts, at, r); }
    forall d | d in v.hdrs ensures exists r :: r in sel && EC.Hits(sh, r, d) {
      HeaderNeeded(b, m, sh, v, cols, opts, at, d);
      var p :| p in ps && Covers(p, m[d].name);
      assert Candidate(b, p) && p in opts;
      var r :| 0 <= r < |opts| && opts[r] == p;
      EncodedHits(b, m, sh, v, cols, opts, at, r, m[d].name);
      assert r in sel;
    }
    forall d: nat, r: nat, s: nat | r in sel && s in sel && EC.Hits(sh, r, d) && EC.Hits(sh, s, d) ensures r == s {
      HitsColumn(sh, r, d);
      HeaderNeeded(b, m, sh, v, cols, opts, at, d);
      EncodedHits(b, m, sh, v, cols, opts, at, r, m[d].name);
      EncodedHits(b, m, sh, v, cols, opts, at, s, m[d].name);
      assert opts[r] == opts[s];
    }
  }

  lemma HitsColumn(sh: Shape, r: nat, d: nat)
    requires EC.Hits(sh, r, d) && forall n :: n in sh.col ==> sh.col[n] in sh.cols
    ensures d in sh.cols
  {
  }

  // ---------- which names the constructor has seen so far ----------

  ghost predicate NeededUnit(b: seq<int>, k: int, u: nat, v: nat)
    requires |b| == CELLS
  {
    exists kind :: 0 <= kind < 3 && k == UnitName(kind, u, v) && !Seen(b, kind, u, v)
  }

  /** k is an empty cell, or is among the first t pairs of unit and value, in the order of the loops. */
  ghost predicate NeededBelow(b: seq<int>, k: int, t: nat)
    requires |b| == CELLS
  {
    || (0 <= k < CELLS && b[k] == 0)
    || exists u, v :: 0 <= u < 9 && 1 <= v <= 9 && 9 * u + v - 1 < t && NeededUnit(b, k, u, v)
  }

  lemma NotNeededYet(b: seq<int>, i: nat, v: nat, t: nat)
    requires |b| == CELLS && i < 9 && 1 <= v <= 9 && t == 9 * i + v - 1
    ensures forall kind :: 0 <= kind < 3 ==> UnitName(kind, i, v) < NAMES && !NeededBelow(b, UnitName(kind, i, v), t)
  {
    hide Seen;
    forall kind | 0 <= kind < 3 ensures UnitName(kind, i, v) < NAMES && !NeededBelow(b, UnitName(kind, i, v), t) {
      hide UnitName;
      NameDecodes(kind, i, v, kind, i, v);
      forall kind', u, w | 0 <= kind' < 3 && 0 <= u < 9 && 1 <= w <= 9 && UnitName(kind, i, v) == UnitName(kind', u, w)
        ensures u == i && w == v
      {
        NameDecodes(kind, i, v, kind', u, w);
      }
    }
  }

  lemma NeededBelowStep(b: seq<int>, i: nat, v: nat, t: nat)
    requires |b| == CELLS && i < 9 && 1 <= v <= 9 && t == 9 * i + v - 1
    ensures forall k :: NeededBelow(b, k, t + 1) <==> NeededBelow(b, k, t) || NeededUnit(b, k, i, v)
  {
    hide NeededUnit;
    forall k | NeededBelow(b, k, t + 1) && !NeededBelow(b, k, t) ensures NeededUnit(b, k, i, v) {
      var u, w :| 0 <= u < 9 && 1 <= w <= 9 && 9 * u + w - 1 < t + 1 && NeededUnit(b, k, u, w);
      assert u == i && w == v;
    }
    forall k | NeededBelow(b, k, t) && !(0 <= k < CELLS && b[k] == 0) ensures NeededBelow(b, k, t + 1) {
      var u, w :| 0 <= u < 9 && 1 <= w <= 9 && 9 * u + w - 1 < t && NeededUnit(b, k, u, w);
    }
  }

  lemma NeededBelowAll(b: seq<int>)
    requires |b| == CELLS
    ensures forall k :: NeededBelow(b, k, 81) <==> Needed(b, k)
  {
    hide Seen, UnitName;
    forall k | NeededBelow(b, k, 81) ensures Needed(b, k) {
      if !(0 <= k < CELLS && b[k] == 0) {
        var u, v :| 0 <= u < 9 && 1 <= v <= 9 && 9 * u + v - 1 < 81 && NeededUnit(b, k, u, v);
      }
    }
    forall k | Needed(b, k) ensures NeededBelow(b, k, 81) {
      if !(0 <= k < CELLS && b[k] == 0) {
        var kind, u, v :| 0 <= kind < 3 && 0 <= u < 9 && 1 <= v <= 9
                          && k == UnitName(kind, u, v) && !Seen(b, kind, u, v);
        assert NeededUnit(b, k, u, v) && 9 * u + v - 1 < 81;
      }
    }
  }

  lemma UnitNames(i: nat, v: nat)
    requires i < 9 && 1 <= v <= 9
    ensures UnitName(0, i, v) != UnitName(1, i, v) && UnitName(1, i, v) != UnitName(2, i, v)
    ensures UnitName(0, i, v) != UnitName(2, i, v)
    ensures forall kind :: 0 <= kind < 3 ==> UnitName(kind, i, v) < NAMES
  {
  }

  lemma NeededUnitIs(b: seq<int>, i: nat, v: nat)
    requires |b| == CELLS && i < 9 && 1 <= v <= 9
    ensures forall k :: NeededUnit(b, k, i, v) <==>
      || (k == UnitName(0, i, v) && !Seen(b, 0, i, v))
      || (k == UnitName(1, i, v) && !Seen(b, 1, i, v))
      || (k == UnitName(2, i, v) && !Seen(b, 2, i, v))
  {
    hide UnitName, Seen;
  }

  /** p comes before value v of cell i, in the order of the loops. */
  ghost predicate Before(p: Pick, i: nat, v: nat) { p.cell < i || (p.cell == i && p.val < v) }

  lemma BeforeStep(i: nat, v: nat)
    ensures forall p :: Before(p, i, v + 1) <==> Before(p, i, v) || p == Pick(i, v)
  {
  }

  lemma BeforeEnds(b: seq<int>, i: nat)
    requires |b| == CELLS && i <= CELLS
    ensures forall p :: Candidate(b, p) ==> p.cell < CELLS && !Before(p, 0, 1)
    ensures forall p :: Candidate(b, p) ==> (Before(p, i + 1, 1) <==> Before(p, i, 10))
    ensures i < CELLS && b[i] != 0 ==> forall p :: Candidate(b, p) ==> (Before(p, i + 1, 1) <==> Before(p, i, 1))
  {
  }

  /** Every name of a candidate is needed. */
  lemma CandidateNames(b: seq<int>, p: Pick)
    requires |b| == CELLS && Candidate(b, p)
    ensures forall q :: 0 <= q < 4 ==> NameOf(p, q) < NAMES && Needed(b, NameOf(p, q))
  {
    hide Seen, Unit;
    forall q | 0 <= q < 4 ensures NameOf(p, q) < NAMES && Needed(b, NameOf(p, q)) {
      if q > 0 {
        NameDecodes(q - 1, Unit(q - 1, p.cell), p.val, q - 1, 0, 0);
        assert !Seen(b, q - 1, Unit(q - 1, p.cell), p.val);
      }
    }
  }

  lemma RootAlone(m: Mesh)
    requires InBounds(m) && |m| > 1
    ensures NewColumn(m, 0, 0)[0] == Node(0, 0, 0, 0, 0, 0, 0)
  {
  }

  lemma ReadyRoot(m: Mesh, sh: Shape, v: View, cur: nat, cols: seq<nat>, opts: seq<Pick>, at: seq<nat>)
    requires Ready(m, sh, v, cur, cols, opts, at)
    ensures sh.root == 0
  {
  }

  lemma ReadyStart(m: Mesh, cols: seq<nat>)
    requires InBounds(m) && |m| > 1 && m[0] == Node(0, 0, 0, 0, 0, 0, 0)
    requires |cols| == NAMES && forall k :: 0 <= k < NAMES ==> cols[k] == 0
    ensures Ready(m, Shape(0, {}, map[], map[], map[]), View([], map[]), 1, cols, [], [])
  {
    assert Walk(0, []) == [0, 0];
  }

  lemma EncodesAll(b: seq<int>, m: Mesh, sh: Shape, v: View, cur: nat, cols: seq<nat>, opts: seq<Pick>, at: seq<nat>)
    requires IsBoard(b) && Ready(m, sh, v, cur, cols, opts, at) && Distinct(opts)
    requires forall k :: 0 <= k < NAMES ==> (cols[k] != 0 <==> Needed(b, k))
    requires forall p :: p in opts <==> Candidate(b, p)
    ensures EncodesOk(b, m, sh, v, cols, opts, at)
  {
    hide Needed, Candidate, Lists, Coded, Indexed, Distinct;
    ReadyParts(m, sh, v, cur);
  }

  lemma ReadyParts(m: Mesh, sh: Shape, v: View, cur: nat)
    requires Built(m, sh, v, cur)
    ensures (forall d :: d in sh.cols <==> d in v.hdrs) && (forall n :: n in sh.col ==> sh.col[n] in sh.cols)
    ensures sh.rowOf.Keys == sh.col.Keys
  {
  }
}
