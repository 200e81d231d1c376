/** Building a linked matrix: a header joins the header ring, a node joins the bottom of its
    column, and four fresh nodes are tied into a row. */
module Assembly {
  import opened DancingLinks

  /** put_left: x goes to the left of old in old's row or in the header ring. */
  function PutLeft(m: Mesh, at: nat, x: nat): (r: Mesh)
    requires InBounds(m) && at < |m| && x < |m|
    ensures |r| == |m| && InBounds(r)
  {
    var a := m[x := m[x].(left := m[at].left)];
    var b := a[x := a[x].(right := at)];
    var c := b[b[at].left := b[b[at].left].(right := x)];
    c[at := c[at].(left := x)]
  }

  /** put_up: x goes above old in old's column, which for a header is the bottom. */
  function PutUp(m: Mesh, at: nat, x: nat): (r: Mesh)
    requires InBounds(m) && at < |m| && x < |m|
    ensures |r| == |m| && InBounds(r)
  {
    var a := m[x := m[x].(up := m[at].up)];
    var b := a[x := a[x].(down := at)];
    var c := b[b[at].up := b[b[at].up].(down := x)];
    var d := c[at := c[at].(up := x)];
    var e := d[at := d[at].(size := d[at].size + 1)];
    e[x := e[x].(col := at)]
  }

  /** x is joined to the left of d: its old left neighbour, x and d point at each other. */
  ghost predicate JoinedLeft(m: Mesh, u: Mesh, d: nat, x: nat) {
    && |u| == |m| && d < |m| && x < |m|
    && forall n :: 0 <= n < |m| ==>
      && u[n] == m[n].(left := u[n].left, right := u[n].right)
      && u[n].left == (if n == d then x else if n == x then m[d].left else m[n].left)
      && u[n].right == (if n == x then d else if n == m[d].left then x else m[n].right)
  }

  ghost predicate JoinedUp(m: Mesh, u: Mesh, d: nat, x: nat) {
    && |u| == |m| && d < |m| && x < |m|
    && forall n :: 0 <= n < |m| ==>
      && u[n] == m[n].(up := u[n].up, down := u[n].down, size := u[n].size, col := u[n].col)
      && u[n].up == (if n == d then x else if n == x then m[d].up else m[n].up)
      && u[n].down == (if n == x then d else if n == m[d].up then x else m[n].down)
      && u[n].size == (if n == d then m[n].size + 1 else m[n].size)
      && u[n].col == (if n == x then d else m[n].col)
  }

  lemma PutLeftJoins(m: Mesh, d: nat, x: nat)
    requires InBounds(m) && d < |m| && x < |m| && x != d && m[d].left != x
    ensures JoinedLeft(m, PutLeft(m, d, x), d, x)
  {
    forall n | 0 <= n < |m|
      ensures PutLeft(m, d, x)[n] == m[n].(
        left := if n == d then x else if n == x then m[d].left else m[n].left,
        right := if n == x then d else if n == m[d].left then x else m[n].right)
    {
    }
  }

  lemma PutUpJoins(m: Mesh, d: nat, x: nat)
    requires InBounds(m) && d < |m| && x < |m| && x != d && m[d].up != x
    ensures JoinedUp(m, PutUp(m, d, x), d, x)
  {
    forall n | 0 <= n < |m|
      ensures PutUp(m, d, x)[n] == m[n].(
        up := if n == d then x else if n == x then m[d].up else m[n].up,
        down := if n == x then d else if n == m[d].up then x else m[n].down,
        size := if n == d then m[n].size + 1 else m[n].size,
        col := if n == x then d else m[n].col)
    {
    }
  }

  lemma HRingAppend(m: Mesh, u: Mesh, d: nat, v: seq<nat>, x: nat)
    requires HRing(m, d, v) && Distinct(v) && d !in v && x != d && x !in v && JoinedLeft(m, u, d, x)
    ensures HRing(u, d, v + [x])
  {
    var s, w := Walk(d, v), Walk(d, v + [x]);
    assert m[s[|v| + 1]].left == s[|v|];
    forall i | 0 <= i < |w|
      ensures w[i] < |m|
      ensures i < |w| - 1 ==> u[w[i]].right == w[i + 1]
      ensures 0 < i ==> u[w[i]].left == w[i - 1]
    {
      if i <= |v| {
        assert w[i] == s[i] && w[i] != x;
        if i < |v| { WalkDistinct(d, v, i, |v|); }
        if 0 < i { WalkDistinct(d, v, i, |v| + 1); }
      }
    }
  }

  lemma VRingAppend(m: Mesh, u: Mesh, d: nat, v: seq<nat>, x: nat)
    requires VRing(m, d, v) && Distinct(v) && d !in v && x != d && x !in v && JoinedUp(m, u, d, x)
    ensures VRing(u, d, v + [x])
  {
    var s, w := Walk(d, v), Walk(d, v + [x]);
    assert m[s[|v| + 1]].up == s[|v|];
    forall i | 0 <= i < |w|
      ensures w[i] < |m|
      ensures i < |w| - 1 ==> u[w[i]].down == w[i + 1]
      ensures 0 < i ==> u[w[i]].up == w[i - 1]
    {
      if i <= |v| {
        assert w[i] == s[i] && w[i] != x;
        if i < |v| { WalkDistinct(d, v, i, |v|); }
        if 0 < i { WalkDistinct(d, v, i, |v| + 1); }
      }
    }
  }

  /** Every list is linked, whether or not the shape knows the row of every node yet. */
  ghost predicate Lists(m: Mesh, sh: Shape, v: View) {
    InBounds(m) && RowsLinked(m, sh) && ColumnsLinked(m, sh, v.vert) && HeadersLinked(m, sh, v.hdrs)
  }

  /** Node x is in no list. */
  ghost predicate Fresh(m: Mesh, sh: Shape, x: nat) {
    && x < |m| && x != sh.root && x !in sh.cols && x !in sh.col && sh.root !in sh.cols
    && (forall n :: n in sh.col ==> n !in sh.cols)
    && (forall n :: n in sh.tail ==> n != x && x !in sh.tail[n])
  }

  /** Writing a node that is in no list disturbs no list. */
  lemma FreshWrite(m: Mesh, u: Mesh, sh: Shape, v: View, x: nat)
    requires Lists(m, sh, v) && Fresh(m, sh, x) && InBounds(u) && |u| == |m|
    requires forall n :: 0 <= n < |m| && n != x ==> u[n] == m[n]
    ensures Lists(u, sh, v)
  {
    forall n | n in sh.tail ensures HRing(u, n, sh.tail[n]) { SameHRing(m, u, n, sh.tail[n]); }
    forall d | d in v.vert ensures ColumnLinked(u, sh, d, v.vert[d]) {
      assert ColumnLinked(m, sh, d, v.vert[d]);
      SameVRing(m, u, d, v.vert[d]);
    }
    SameHRing(m, u, sh.root, v.hdrs);
  }

  lemma JoinedHeaderColumns(m: Mesh, u: Mesh, sh: Shape, vert: map<nat, seq<nat>>, x: nat)
    requires ColumnsLinked(m, sh, vert) && Fresh(m, sh, x) && JoinedLeft(m, u, sh.root, x)
    requires m[x].up == m[x].down == x && m[x].size == 0
    ensures ColumnsLinked(u, sh.(cols := sh.cols + {x}), vert[x := []])
  {
    var sh', vert' := sh.(cols := sh.cols + {x}), vert[x := []];
    forall d | d in vert' ensures ColumnLinked(u, sh', d, vert'[d]) {
      if d == x {
        assert Walk(x, []) == [x, x];
      } else {
        assert ColumnLinked(m, sh, d, vert[d]);
        SameVRing(m, u, d, vert[d]);
      }
    }
  }

  lemma JoinedHeaderRows(m: Mesh, u: Mesh, sh: Shape, hdrs: seq<nat>, x: nat)
    requires RowsLinked(m, sh) && HeadersLinked(m, sh, hdrs) && Fresh(m, sh, x) && JoinedLeft(m, u, sh.root, x)
    requires sh.root !in sh.col && forall n, j :: n in sh.tail && j in sh.tail[n] ==> j in sh.col
    ensures RowsLinked(u, sh)
  {
    var s := Walk(sh.root, hdrs);
    assert m[s[|hdrs| + 1]].left == s[|hdrs|];
    assert hdrs != [] ==> s[|hdrs|] == hdrs[|hdrs| - 1] && hdrs[|hdrs| - 1] in hdrs;
    var l := m[sh.root].left;
    assert l == sh.root || l in sh.cols;
    forall n | n in sh.tail ensures HRing(u, n, sh.tail[n]) {
      assert n in sh.col;
      SameHRing(m, u, n, sh.tail[n]);
    }
  }

  /** A fresh header joins the end of the header ring. */
  lemma HeaderJoins(m: Mesh, u: Mesh, sh: Shape, v: View, x: nat)
    requires Lists(m, sh, v) && Fresh(m, sh, x) && JoinedLeft(m, u, sh.root, x) && InBounds(u)
    requires m[x].up == m[x].down == x && m[x].size == 0 && sh.root !in sh.col
    requires forall n, j :: n in sh.tail && j in sh.tail[n] ==> j in sh.col
    ensures Lists(u, sh.(cols := sh.cols + {x}), View(v.hdrs + [x], v.vert[x := []]))
  {
    JoinedHeaderColumns(m, u, sh, v.vert, x);
    JoinedHeaderRows(m, u, sh, v.hdrs, x);
    HRingAppend(m, u, sh.root, v.hdrs, x);
  }

  lemma JoinedNodeColumns(m: Mesh, u: Mesh, sh: Shape, vert: map<nat, seq<nat>>, d: nat, x: nat)
    requires ColumnsLinked(m, sh, vert) && Fresh(m, sh, x) && d in sh.cols && JoinedUp(m, u, d, x)
    ensures ColumnsLinked(u, sh.(col := sh.col[x := d]), vert[d := vert[d] + [x]])
  {
    var sh', vert' := sh.(col := sh.col[x := d]), vert[d := vert[d] + [x]];
    assert ColumnLinked(m, sh, d, vert[d]);
    var s := Walk(d, vert[d]);
    assert m[s[|vert[d]| + 1]].up == s[|vert[d]|];
    assert vert[d] != [] ==> s[|vert[d]|] == vert[d][|vert[d]| - 1] && vert[d][|vert[d]| - 1] in vert[d];
    assert m[d].up == d || m[d].up in vert[d];
    forall e | e in vert' ensures ColumnLinked(u, sh', e, vert'[e]) {
      assert ColumnLinked(m, sh, e, vert[e]);
      if e == d {
        VRingAppend(m, u, d, vert[d], x);
        assert vert'[e] == vert[d] + [x];
      } else {
        assert vert'[e] == vert[e];
        SameVRing(m, u, e, vert[e]);
      }
    }
  }

  /** A fresh node joins the bottom of column d. */
  lemma NodeJoins(m: Mesh, u: Mesh, sh: Shape, v: View, d: nat, x: nat)
    requires Lists(m, sh, v) && Fresh(m, sh, x) && d in sh.cols && JoinedUp(m, u, d, x) && InBounds(u)
    ensures Lists(u, sh.(col := sh.col[x := d]), View(v.hdrs, v.vert[d := v.vert[d] + [x]]))
  {
    JoinedNodeColumns(m, u, sh, v.vert, d, x);
    forall n | n in sh.tail ensures HRing(u, n, sh.tail[n]) { SameHRing(m, u, n, sh.tail[n]); }
    SameHRing(m, u, sh.root, v.hdrs);
  }

  /** The four nodes are one ring under right and left. */
  ghost predicate Ring4(m: Mesh, a: nat, b: nat, c: nat, d: nat) {
    && a < |m| && b < |m| && c < |m| && d < |m|
    && m[a].right == b && m[b].right == c && m[c].right == d && m[d].right == a
    && m[a].left == d && m[b].left == a && m[c].left == b && m[d].left == c
  }

  /** u differs from m at most in the left and right links of the four nodes. */
  ghost predicate OnlySidesOf(m: Mesh, u: Mesh, a: nat, b: nat, c: nat, d: nat) {
    |u| == |m| && forall n :: 0 <= n < |m| ==>
      && u[n] == m[n].(left := u[n].left, right := u[n].right)
      && (n != a && n != b && n != c && n != d ==> u[n] == m[n])
  }

  /** Four single nodes after joining b, c and d, in turn, to the left of a. */
  lemma FourTied(m: Mesh, m1: Mesh, m2: Mesh, u: Mesh, a: nat, b: nat, c: nat, d: nat)
    requires a < |m| && m[a].left == m[a].right == a
    requires a != b && a != c && a != d && b != c && b != d && c != d
    requires JoinedLeft(m, m1, a, b) && JoinedLeft(m1, m2, a, c) && JoinedLeft(m2, u, a, d)
    ensures Ring4(u, a, b, c, d)
  {
    assert m1[a].left == b && m1[a].right == b && m1[b].left == a && m1[b].right == a;
    assert m2[a].left == c && m2[a].right == b && m2[b].left == a && m2[b].right == c;
    assert m2[c].left == b && m2[c].right == a;
  }

  lemma FourTiedOnly(m: Mesh, m1: Mesh, m2: Mesh, u: Mesh, a: nat, b: nat, c: nat, d: nat)
    requires a < |m| && m[a].left == m[a].right == a
    requires a != b && a != c && a != d && b != c && b != d && c != d
    requires JoinedLeft(m, m1, a, b) && JoinedLeft(m1, m2, a, c) && JoinedLeft(m2, u, a, d)
    ensures OnlySidesOf(m, u, a, b, c, d)
  {
    assert m1[a].left == b && m2[a].left == c;
    forall n | 0 <= n < |m|
      ensures u[n] == m[n].(left := u[n].left, right := u[n].right)
      ensures n != a && n != b && n != c && n != d ==> u[n] == m[n]
    {
      assert m1[n] == m[n].(left := m1[n].left, right := m1[n].right);
      assert m2[n] == m1[n].(left := m2[n].left, right := m2[n].right);
    }
  }

  lemma Ring4Walks(m: Mesh, a: nat, b: nat, c: nat, d: nat)
    requires Ring4(m, a, b, c, d)
    ensures HRing(m, a, [b, c, d])
  {
    assert Walk(a, [b, c, d]) == [a, b, c, d, a];
  }

  // ---------- a new row of four nodes ----------

  /** A fresh single node named name at the bottom of column d. */
  function NewRow(m: Mesh, d: nat, x: nat, name: int): (r: Mesh)
    requires InBounds(m) && d < |m| && x < |m|
    ensures |r| == |m| && InBounds(r)
  {
    PutUp(m[x := Node(x, x, x, x, d, name, 0)], d, x)
  }

  function WithNode(sh: Shape, d: nat, x: nat): Shape { sh.(col := sh.col[x := d]) }

  function BelowWith(v: View, d: nat, x: nat): View
    requires d in v.vert
  {
    v.(vert := v.vert[d := v.vert[d] + [x]])
  }

  lemma NewRowLists(m: Mesh, sh: Shape, v: View, d: nat, x: nat, name: int)
    requires Lists(m, sh, v) && Fresh(m, sh, x) && d in sh.cols
    ensures d < |m| && d in v.vert && Lists(NewRow(m, d, x, name), WithNode(sh, d, x), BelowWith(v, d, x))
    ensures
      var u := NewRow(m, d, x, name);
      && u[x].name == name && u[x].left == u[x].right == x && u[x].col == d
      && forall n :: 0 <= n < |m| && n != x ==>
           u[n].name == m[n].name && u[n].left == m[n].left && u[n].right == m[n].right && u[n].col == m[n].col
  {
    assert ColumnLinked(m, sh, d, v.vert[d]);
    var a := m[x := Node(x, x, x, x, d, name, 0)];
    FreshWrite(m, a, sh, v, x);
    assert a[d].up != x by {
      assert ColumnLinked(a, sh, d, v.vert[d]);
      var s := Walk(d, v.vert[d]);
      assert a[s[|v.vert[d]| + 1]].up == s[|v.vert[d]|];
      assert v.vert[d] != [] ==> s[|v.vert[d]|] == v.vert[d][|v.vert[d]| - 1] && s[|v.vert[d]|] in v.vert[d];
    }
    PutUpJoins(a, d, x);
    NodeJoins(a, PutUp(a, d, x), sh, v, d, x);
  }

  function WithRow(sh: Shape, a: nat, b: nat, c: nat, d: nat, r: nat): Shape {
    sh.(rowOf := sh.rowOf[a := r][b := r][c := r][d := r],
        tail := sh.tail[a := [b, c, d]][b := [c, d, a]][c := [d, a, b]][d := [a, b, c]])
  }

  /** x is below a header but in no row yet. */
  ghost predicate Loose(m: Mesh, sh: Shape, x: nat) {
    && x < |m| && x in sh.col && m[x].col == sh.col[x] && x != sh.root && x !in sh.cols
    && (forall n :: n in sh.tail ==> n != x && x !in sh.tail[n])
  }

  lemma RowAddedRows(m: Mesh, u: Mesh, sh: Shape, a: nat, b: nat, c: nat, d: nat, r: nat)
    requires RowsLinked(m, sh) && OnlySidesOf(m, u, a, b, c, d) && Ring4(u, a, b, c, d)
    requires a != b && a != c && a != d && b != c && b != d && c != d
    requires Loose(m, sh, a) && Loose(m, sh, b) && Loose(m, sh, c) && Loose(m, sh, d)
    ensures RowsLinked(u, WithRow(sh, a, b, c, d, r))
  {
    hide HRing;
    var sh' := WithRow(sh, a, b, c, d, r);
    Ring4Walks(u, a, b, c, d);
    Ring4Walks(u, b, c, d, a);
    Ring4Walks(u, c, d, a, b);
    Ring4Walks(u, d, a, b, c);
    forall n | n in sh'.tail ensures n < |u| && n in sh'.col && u[n].col == sh'.col[n] && HRing(u, n, sh'.tail[n]) {
      if n in sh.tail {
        assert sh'.tail[n] == sh.tail[n];
        SameHRing(m, u, n, sh.tail[n]);
      }
    }
  }

  lemma RowAdded(m: Mesh, u: Mesh, sh: Shape, v: View, a: nat, b: nat, c: nat, d: nat, r: nat)
    requires Lists(m, sh, v) && InBounds(u) && OnlySidesOf(m, u, a, b, c, d) && Ring4(u, a, b, c, d)
    requires a != b && a != c && a != d && b != c && b != d && c != d
    requires Loose(m, sh, a) && Loose(m, sh, b) && Loose(m, sh, c) && Loose(m, sh, d)
    ensures Lists(u, WithRow(sh, a, b, c, d, r), v)
  {
    hide VRing, RowsLinked;
    var sh' := WithRow(sh, a, b, c, d, r);
    RowAddedRows(m, u, sh, a, b, c, d, r);
    forall e | e in v.vert ensures ColumnLinked(u, sh', e, v.vert[e]) {
      assert ColumnLinked(m, sh, e, v.vert[e]);
      VRingBounds(m, e, v.vert[e]);
      SameVRing(m, u, e, v.vert[e]);
    }
    SameHRing(m, u, sh.root, v.hdrs);
  }

  lemma VRingBounds(m: Mesh, d: nat, v: seq<nat>)
    requires VRing(m, d, v)
    ensures d < |m|
  {
  }

  function WithNodes(sh: Shape, a: nat, da: nat, b: nat, db: nat, c: nat, dc: nat, d: nat, dd: nat): Shape {
    WithNode(WithNode(WithNode(WithNode(sh, da, a), db, b), dc, c), dd, d)
  }

  lemma WithRowKeys(sh: Shape, a: nat, b: nat, c: nat, d: nat, r: nat)
    ensures WithRow(sh, a, b, c, d, r).rowOf.Keys == sh.rowOf.Keys + {a, b, c, d}
    ensures WithRow(sh, a, b, c, d, r).tail.Keys == sh.tail.Keys + {a, b, c, d}
    ensures a in sh.rowOf || b in sh.rowOf || c in sh.rowOf || d in sh.rowOf ||
      forall n :: n in sh.rowOf ==> WithRow(sh, a, b, c, d, r).rowOf[n] == sh.rowOf[n]
  {
  }

  lemma WithRowTails(sh: Shape, t: Shape, a: nat, b: nat, c: nat, d: nat, r: nat, n: nat, j: nat)
    requires WFShape(sh) && t.rowOf == WithRow(sh, a, b, c, d, r).rowOf && t.tail == WithRow(sh, a, b, c, d, r).tail
    requires a != b && a != c && a != d && b != c && b != d && c != d
    requires a !in sh.tail && b !in sh.tail && c !in sh.tail && d !in sh.tail && r !in sh.rowOf.Values
    requires n in t.tail
    ensures n in t.rowOf && (j in t.tail[n] <==> j in t.rowOf && t.rowOf[j] == t.rowOf[n] && j != n)
  {
    if n in sh.tail {
      assert t.tail[n] == sh.tail[n] && t.rowOf[n] == sh.rowOf[n];
      assert sh.rowOf[n] in sh.rowOf.Values;
    } else if j in sh.rowOf {
      assert sh.rowOf[j] in sh.rowOf.Values;
    }
  }

  /** t is sh with the loose nodes a, b, c, d made into row r. */
  ghost predicate IsWithRow(sh: Shape, t: Shape, a: nat, b: nat, c: nat, d: nat, r: nat) {
    && WFShape(sh) && t.root == sh.root && t.cols == sh.cols
    && t.rowOf == WithRow(sh, a, b, c, d, r).rowOf && t.tail == WithRow(sh, a, b, c, d, r).tail
    && a != b && a != c && a != d && b != c && b != d && c != d
    && (forall x :: x in {a, b, c, d} ==> x !in sh.cols && x !in sh.col && x != sh.root)
    && t.col.Keys == sh.col.Keys + {a, b, c, d} && r !in sh.rowOf.Values
    && (forall n :: n in t.col ==> t.col[n] in sh.cols)
  }

  lemma IsWithRowCols(sh: Shape, t: Shape, a: nat, b: nat, c: nat, d: nat, r: nat)
    requires IsWithRow(sh, t, a, b, c, d, r)
    ensures t.root !in t.cols && t.rowOf.Keys == t.col.Keys == t.tail.Keys
    ensures forall n :: n in t.col ==> n != t.root && n !in t.cols && t.col[n] in t.cols
    ensures forall n :: n in t.tail ==> Distinct(t.tail[n])
  {
    WithRowKeys(sh, a, b, c, d, r);
    forall n | n in t.col ensures n != t.root && n !in t.cols && t.col[n] in t.cols {
      if n !in {a, b, c, d} { assert n in sh.col; }
    }
    forall n | n in t.tail ensures Distinct(t.tail[n]) { WithRowDistinct(sh, a, b, c, d, r, n); }
  }

  lemma IsWithRowTails(sh: Shape, t: Shape, a: nat, b: nat, c: nat, d: nat, r: nat)
    requires IsWithRow(sh, t, a, b, c, d, r)
    ensures t.rowOf.Keys == t.tail.Keys
    ensures forall n, j {:trigger j in t.tail[n]} :: n in t.tail ==>
      (j in t.tail[n] <==> j in t.rowOf && t.rowOf[j] == t.rowOf[n] && j != n)
  {
    WithRowKeys(sh, a, b, c, d, r);
    assert a in {a, b, c, d} && b in {a, b, c, d} && c in {a, b, c, d} && d in {a, b, c, d};
    forall n, j | n in t.tail ensures j in t.tail[n] <==> j in t.rowOf && t.rowOf[j] == t.rowOf[n] && j != n {
      WithRowTails(sh, t, a, b, c, d, r, n, j);
    }
  }

  lemma WithRowShape(sh: Shape, t: Shape, a: nat, b: nat, c: nat, d: nat, r: nat)
    requires IsWithRow(sh, t, a, b, c, d, r)
    ensures WFShape(t)
  {
    hide IsWithRow, Distinct;
    IsWithRowCols(sh, t, a, b, c, d, r);
    IsWithRowTails(sh, t, a, b, c, d, r);
  }

  lemma WithRowDistinct(sh: Shape, a: nat, b: nat, c: nat, d: nat, r: nat, n: nat)
    requires a != b && a != c && a != d && b != c && b != d && c != d
    requires n in WithRow(sh, a, b, c, d, r).tail && forall k :: k in sh.tail ==> Distinct(sh.tail[k])
    ensures Distinct(WithRow(sh, a, b, c, d, r).tail[n])
  {
  }

  lemma WithRowOnce(sh: Shape, a: nat, da: nat, b: nat, db: nat, c: nat, dc: nat, d: nat, dd: nat, r: nat)
    requires WFShape(sh) && OnePerColumn(sh)
    requires da != db && da != dc && da != dd && db != dc && db != dd && dc != dd
    requires forall x :: x == a || x == b || x == c || x == d ==> x !in sh.col
    requires r !in sh.rowOf.Values
    ensures OnePerColumn(WithRow(WithNodes(sh, a, da, b, db, c, dc, d, dd), a, b, c, d, r))
  {
  }
}
