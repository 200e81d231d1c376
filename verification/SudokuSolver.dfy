/** The solver object: the node pool, the column index, the search stack and the board. */
module SudokuSolver {
  import opened DancingLinks
  import EC = ExactCover
  import opened SudokuRules
  import Assembly
  import EN = Encoding

  lemma VStep(m: Mesh, d: nat, v: seq<nat>, i: nat)
    requires VRing(m, d, v) && i <= |v|
    ensures d < |m|
    ensures Walk(d, v)[i] < |m| && Walk(d, v)[i + 1] < |m|
    ensures m[Walk(d, v)[i]].down == Walk(d, v)[i + 1]
    ensures m[Walk(d, v)[i + 1]].up == Walk(d, v)[i]
  {
    var s := Walk(d, v);
    assert m[s[i]].down == s[i + 1] && m[s[i + 1]].up == s[i];
  }

  lemma HStep(m: Mesh, d: nat, v: seq<nat>, i: nat)
    requires HRing(m, d, v) && i <= |v|
    ensures d < |m|
    ensures Walk(d, v)[i] < |m| && Walk(d, v)[i + 1] < |m|
    ensures m[Walk(d, v)[i]].right == Walk(d, v)[i + 1]
    ensures m[Walk(d, v)[i + 1]].left == Walk(d, v)[i]
  {
    var s := Walk(d, v);
    assert m[s[i]].right == s[i + 1] && m[s[i + 1]].left == s[i];
  }

  /** A walk is back at its head only at its end. */
  lemma WalkEnd(d: nat, v: seq<nat>, i: nat)
    requires d !in v && i <= |v|
    ensures Walk(d, v)[i + 1] == d <==> i == |v|
    ensures i < |v| ==> Walk(d, v)[i + 1] == v[i]
    ensures 0 < i ==> Walk(d, v)[i] == v[i - 1] != d
    ensures Walk(d, v)[0] == d
  {
  }

  // ---------- what the node names say ----------

  /** A name below 100 is a cell; any other name ends in a value. */
  ghost predicate NameFits(name: int, p: Pick) {
    if name < 100 then name == p.cell else name % 10 == p.val
  }

  /** Row r of the matrix is pick opts[r], and says both its cell and its value. */
  ghost predicate Named(m: Mesh, sh: Shape, opts: seq<Pick>) {
    && (forall n :: n in sh.tail ==>
          && n < |m| && n in sh.rowOf && sh.rowOf[n] < |opts|
          && NameFits(m[n].name, opts[sh.rowOf[n]]) && opts[sh.rowOf[n]].cell < CELLS)
    && (forall n :: n in sh.tail ==> SaysBoth(m, n, sh.tail[n]))
  }

  ghost predicate SaysBoth(m: Mesh, n: nat, t: seq<nat>) {
    && (exists i :: 0 <= i <= |t| && Walk(n, t)[i] < |m| && m[Walk(n, t)[i]].name < 100)
    && (exists i :: 0 <= i <= |t| && Walk(n, t)[i] < |m| && m[Walk(n, t)[i]].name >= 100)
  }

  /** The i-th header and the one after it. */
  lemma HeaderAt(sh: Shape, s: EC.Snap, z: seq<nat>, i: nat)
    requires EC.Good(sh, s) && i < |s.view.hdrs| == |z|
    requires forall p :: 0 <= p < |z| ==> s.view.hdrs[p] < |s.mesh| && s.mesh[s.view.hdrs[p]].size == z[p]
    ensures
      var w := Walk(sh.root, s.view.hdrs);
      && w[i + 1] == s.view.hdrs[i] < |s.mesh| && s.mesh[w[i + 1]].size == z[i] && s.mesh[w[i + 1]].right == w[i + 2]
      && (w[i + 2] == sh.root <==> i + 1 == |s.view.hdrs|)
  {
    hide *;
    EC.HeaderFacts(sh, s);
    HStep(s.mesh, sh.root, s.view.hdrs, i + 1);
    WalkEnd(sh.root, s.view.hdrs, i);
    WalkEnd(sh.root, s.view.hdrs, i + 1);
  }

  lemma NamedAt(m: Mesh, sh: Shape, opts: seq<Pick>, n: nat)
    requires Named(m, sh, opts) && n in sh.tail
    ensures n < |m| && n in sh.rowOf && sh.rowOf[n] < |opts| && SaysBoth(m, n, sh.tail[n])
    ensures
      var p := opts[sh.rowOf[n]];
      p.cell < CELLS && if m[n].name < 100 then m[n].name == p.cell else m[n].name % 10 == p.val
  {
  }

  lemma SaysBothAt(m: Mesh, n: nat, t: seq<nat>) returns (a: nat, b: nat)
    requires SaysBoth(m, n, t)
    ensures a <= |t| && Walk(n, t)[a] < |m| && m[Walk(n, t)[a]].name < 100
    ensures b <= |t| && Walk(n, t)[b] < |m| && m[Walk(n, t)[b]].name >= 100
  {
    a :| 0 <= a <= |t| && Walk(n, t)[a] < |m| && m[Walk(n, t)[a]].name < 100;
    b :| 0 <= b <= |t| && Walk(n, t)[b] < |m| && m[Walk(n, t)[b]].name >= 100;
  }

  ghost predicate SameNames(m: Mesh, u: Mesh) {
    |m| == |u| && forall n :: 0 <= n < |m| ==> u[n].name == m[n].name
  }

  lemma SameNamesNamed(m: Mesh, u: Mesh, sh: Shape, opts: seq<Pick>)
    requires Named(m, sh, opts) && SameNames(m, u)
    ensures Named(u, sh, opts)
  {
    forall n | n in sh.tail ensures SaysBoth(u, n, sh.tail[n]) {
      var t := sh.tail[n];
      assert SaysBoth(m, n, t);
    }
  }

  lemma CoverNames(sh: Shape, s: EC.Snap, c: nat)
    requires EC.Good(sh, s) && c in s.view.hdrs
    ensures SameNames(s.mesh, EC.Cover(sh, s, c).mesh)
  {
    EC.CoverKeeps(sh, s, c);
    EC.VictimsInColumns(sh, s, c);
    UnlinkHeaderKeeps(s.mesh, sh, s.view, c);
    UnlinkAllKeeps(UnlinkHeader(s.mesh, c), sh, View(Without(s.view.hdrs, c), s.view.vert),
                   Victims(sh, s.view.vert[c]));
  }

  lemma {:induction false} CoverAllNames(sh: Shape, s: EC.Snap, t: seq<nat>)
    requires EC.Good(sh, s) && EC.Coverable(sh, s, t)
    ensures SameNames(s.mesh, EC.CoverAll(sh, s, t).mesh)
    decreases |t|
  {
    hide EC.Good, EC.Hits, EC.Cover;
    if t != [] {
      EC.CoverablePrefix(sh, s, t);
      EC.LastNode(sh, t);
      CoverAllNames(sh, s, t[..|t| - 1]);
      CoverNames(sh, EC.CoverAll(sh, s, t[..|t| - 1]), sh.col[t[|t| - 1]]);
    }
  }

  ghost predicate OnRows(sh: Shape, opts: seq<Pick>, ns: seq<nat>) {
    forall i :: 0 <= i < |ns| ==>
      ns[i] in sh.rowOf && ns[i] in sh.tail && sh.rowOf[ns[i]] < |opts| && opts[sh.rowOf[ns[i]]].cell < CELLS
  }

  ghost function Picks(sh: Shape, opts: seq<Pick>, ns: seq<nat>): (p: seq<Pick>)
    requires OnRows(sh, opts, ns)
    ensures |p| == |ns| && forall i :: 0 <= i < |p| ==> p[i].cell < CELLS
  {
    seq(|ns|, i requires 0 <= i < |ns| => opts[sh.rowOf[ns[i]]])
  }

  ghost function RowsOf(sh: Shape, ns: seq<nat>): set<nat> {
    set n | n in ns && n in sh.rowOf :: sh.rowOf[n]
  }

  /** The board after writing the picks in order. */
  ghost function Filled(b: seq<int>, ps: seq<Pick>): (r: seq<int>)
    requires forall i :: 0 <= i < |ps| ==> ps[i].cell < |b|
    ensures |r| == |b|
  {
    if ps == [] then b
    else Filled(b, ps[..|ps| - 1])[ps[|ps| - 1].cell := ps[|ps| - 1].val]
  }

  // ---------- the steps of the search argument ----------

  /** No exact cover uses the row of node n. */
  ghost predicate NoCoverWith(sh: Shape, s: EC.Snap, n: nat) {
    n in sh.rowOf && forall sel :: EC.IsExactCover(sh, s, sel) ==> sh.rowOf[n] !in sel
  }

  lemma RingEmpty(sh: Shape, s: EC.Snap)
    requires EC.Good(sh, s)
    ensures sh.root < |s.mesh| && (s.mesh[sh.root].left == sh.root <==> s.view.hdrs == [])
  {
    hide EC.Good, HRing, Walk, VRing, InBounds;
    EC.HeaderFacts(sh, s);
    HStep(s.mesh, sh.root, s.view.hdrs, |s.view.hdrs|);
    WalkEnd(sh.root, s.view.hdrs, |s.view.hdrs|);
  }

  lemma NothingLeft(sh: Shape, s: EC.Snap)
    requires s.view.hdrs == []
    ensures EC.IsExactCover(sh, s, RowsOf(sh, []))
  {
  }

  lemma ChooseMesh(sh: Shape, s: EC.Snap, c: nat, n: nat, opts: seq<Pick>)
    requires EC.Good(sh, s) && c in s.view.hdrs && c in s.view.vert && n in s.view.vert[c] && n in sh.tail
    requires EC.Coverable(sh, EC.Cover(sh, s, c), sh.tail[n])
    requires Named(EC.Cover(sh, s, c).mesh, sh, opts)
    ensures EC.Choose(sh, s, c, n) == EC.CoverAll(sh, EC.Cover(sh, s, c), sh.tail[n])
    ensures Named(EC.Choose(sh, s, c, n).mesh, sh, opts)
  {
    hide EC.Good, EC.Cover, EC.CoverAll, EC.Coverable, Named;
    CoverAllNames(sh, EC.Cover(sh, s, c), sh.tail[n]);
    SameNamesNamed(EC.Cover(sh, s, c).mesh, EC.Choose(sh, s, c, n).mesh, sh, opts);
  }

  lemma PushOnRows(sh: Shape, opts: seq<Pick>, ns: seq<nat>, n: nat, m: Mesh)
    requires OnRows(sh, opts, ns) && Named(m, sh, opts) && n in sh.tail
    ensures OnRows(sh, opts, ns + [n])
  {
    NamedAt(m, sh, opts, n);
  }

  lemma BranchFound(sh: Shape, s: EC.Snap, c: nat, n: nat, st: seq<nat>, stack: seq<nat>)
    requires EC.Good(sh, s) && c in s.view.hdrs && c in s.view.vert && n in s.view.vert[c]
    requires |st| + 1 <= |stack| && stack[..|st| + 1] == st + [n]
    requires EC.IsExactCover(sh, EC.Choose(sh, s, c, n), RowsOf(sh, stack[|st| + 1..]))
    ensures stack[..|st|] == st && EC.IsExactCover(sh, s, RowsOf(sh, stack[|st|..]))
  {
    hide EC.Good, EC.IsExactCover, EC.Choose;
    EC.BranchUp(sh, s, c, n, RowsOf(sh, stack[|st| + 1..]));
    assert stack[|st|] == (st + [n])[|st|] == n;
    assert stack[|st|..] == [n] + stack[|st| + 1..];
    assert RowsOf(sh, stack[|st|..]) == RowsOf(sh, stack[|st| + 1..]) + {sh.rowOf[n]};
    assert stack[..|st|] == stack[..|st| + 1][..|st|];
  }

  lemma BranchFails(sh: Shape, s: EC.Snap, c: nat, n: nat)
    requires EC.Good(sh, s) && c in s.view.hdrs && c in s.view.vert && n in s.view.vert[c]
    requires forall sel :: !EC.IsExactCover(sh, EC.Choose(sh, s, c, n), sel)
    ensures NoCoverWith(sh, s, n)
  {
    hide EC.Good, EC.IsExactCover, EC.Choose;
    EC.BelowHeader(sh, s, c, n);
    forall sel | EC.IsExactCover(sh, s, sel) ensures sh.rowOf[n] !in sel {
      if sh.rowOf[n] in sel { EC.BranchDown(sh, s, c, n, sel); }
    }
  }

  lemma NoBranchLeft(sh: Shape, s: EC.Snap, c: nat)
    requires EC.Good(sh, s) && c in s.view.hdrs && c in s.view.vert
    requires forall k :: 0 <= k < |s.view.vert[c]| ==> NoCoverWith(sh, s, s.view.vert[c][k])
    ensures forall sel :: !EC.IsExactCover(sh, s, sel)
  {
    hide EC.Good, EC.IsExactCover;
    forall sel ensures !EC.IsExactCover(sh, s, sel) {
      if EC.IsExactCover(sh, s, sel) { EC.SomeBranch(sh, s, c, sel); }
    }
  }

  /** a[u, v] says whether one of the first i clues has value v in unit u. */
  ghost predicate MarkedBelow(b: seq<int>, kind: nat, a: array2<bool>, i: nat)
    requires |b| == CELLS && kind < 3 && i <= CELLS
    reads a
  {
    && a.Length0 == CELLS && a.Length1 == 10
    && forall u, v :: 0 <= u < CELLS && 0 <= v < 10 ==>
      (a[u, v] <==> exists j :: 0 <= j < i && Unit(kind, j) == u && b[j] == v)
  }

  ghost predicate Marked(b: seq<int>, kind: nat, a: array2<bool>)
    requires |b| == CELLS && kind < 3
    reads a
  {
    && a.Length0 == CELLS && a.Length1 == 10
    && forall u, v :: 0 <= u < CELLS && 0 <= v < 10 ==> (a[u, v] <==> Seen(b, kind, u, v))
  }

  lemma CandidateIf(b: seq<int>, p: Pick, rows: array2<bool>, cols: array2<bool>, boxes: array2<bool>)
    requires |b| == CELLS && p.cell < CELLS && b[p.cell] == 0 && 1 <= p.val <= 9
    requires Marked(b, 0, rows) && Marked(b, 1, cols) && Marked(b, 2, boxes)
    ensures Candidate(b, p) <==>
      !(rows[Unit(0, p.cell), p.val] || cols[Unit(1, p.cell), p.val] || boxes[Unit(2, p.cell), p.val])
  {
    hide Unit, Seen;
  }

  const MAX_NODES := 1 + 81 * 4 + 9 * 9 * 9 * 4

  class Solver {
    const nodes: array<Node>
    const inout: array<int>
    const columns: array<nat>
    var stack: seq<nat>
    var cur: nat
    var root: nat
    ghost var sh: Shape
    ghost var view: View
    ghost var at: seq<nat>
    ghost var opts: seq<Pick>

    /** Builds the matrix of the board: a header for all that is missing, a row for each candidate. */
    constructor (board: array<int>)
      requires board.Length == CELLS && IsBoard(board[..])
      ensures inout == board && fresh(nodes) && fresh(columns) && stack == [] && root == sh.root
      ensures Ready() && EN.EncodesOk(board[..], nodes[..], sh, view, columns[..], opts, at)
    {
      inout := board;
      nodes := new Node[MAX_NODES](_ => Node(0, 0, 0, 0, 0, 0, 0));
      columns := new nat[EN.NAMES](_ => 0);
      stack, cur := [], 0;
      sh, view := Shape(0, {}, map[], map[], map[]), View([], map[]);
      opts, at := [], [];
      new;
      BuildMatrix();
    }

    // ---------- building the matrix ----------

    ghost predicate Ready()
      reads this, nodes, columns
    {
      EN.Ready(nodes[..], sh, view, cur, columns[..], opts, at)
      && nodes.Length == MAX_NODES && columns.Length == EN.NAMES
    }

    method NewColumn(name: int) returns (c: nat)
      requires InBounds(nodes[..]) && cur < nodes.Length
      modifies this`cur, nodes
      ensures c == old(cur) && cur == c + 1 && nodes[..] == EN.NewColumn(old(nodes[..]), c, name)
    {
      c := cur;
      cur := cur + 1;
      nodes[c] := Node(c, c, c, c, c, name, 0);
    }

    method PutLeft(o: nat, x: nat)
      requires InBounds(nodes[..]) && o < nodes.Length && x < nodes.Length
      modifies nodes
      ensures nodes[..] == Assembly.PutLeft(old(nodes[..]), o, x)
    {
      nodes[x] := nodes[x].(left := nodes[o].left);
      nodes[x] := nodes[x].(right := o);
      nodes[nodes[o].left] := nodes[nodes[o].left].(right := x);
      nodes[o] := nodes[o].(left := x);
    }

    method PutUp(o: nat, x: nat)
      requires InBounds(nodes[..]) && o < nodes.Length && x < nodes.Length
      modifies nodes
      ensures nodes[..] == Assembly.PutUp(old(nodes[..]), o, x)
    {
      nodes[x] := nodes[x].(up := nodes[o].up);
      nodes[x] := nodes[x].(down := o);
      nodes[nodes[o].up] := nodes[nodes[o].up].(down := x);
      nodes[o] := nodes[o].(up := x);
      nodes[o] := nodes[o].(size := nodes[o].size + 1);
      nodes[x] := nodes[x].(col := o);
    }

    /** A header for a name not yet in use, at the end of the header ring. */
    method AppendColumn(k: nat)
      requires Ready() && k < EN.NAMES && columns[k] == 0 && cur < nodes.Length
      modifies this`cur, this`sh, this`view, nodes, columns
      ensures Ready() && columns[..] == old(columns[..])[k := old(cur)] && cur == old(cur) + 1
    {
      hide EN.Ready, InBounds, Assembly.PutLeft, EN.NewColumn, EN.Built, EN.Coded, EN.ColumnShape, EN.ColumnView;
      ghost var m, sh0 := nodes[..], sh;
      EN.ReadyFacts(m, sh, view, cur, columns[..], opts, at);
      EN.ColumnAppended(m, sh, view, cur, k);
      var c := NewColumn(k);
      PutLeft(0, c);
      EN.ColumnIndexed(m, nodes[..], sh, columns[..], opts, at, c, k);
      columns[k] := c;
      sh := EN.ColumnShape(sh0, c);
      view := EN.ColumnView(view, c);
      EN.MakeReady(nodes[..], sh, view, cur, columns[..], opts, at);
    }

    /** A single node at the bottom of the column named k. */
    method NewRow(k: nat) returns (r: nat)
      requires InBounds(nodes[..]) && cur < nodes.Length && k < columns.Length && columns[k] < nodes.Length
      modifies this`cur, nodes
      ensures r == old(cur) && cur == r + 1
      ensures nodes[..] == Assembly.NewRow(old(nodes[..]), columns[k], r, k)
    {
      r := cur;
      cur := cur + 1;
      nodes[r] := Node(r, r, r, r, columns[k], k, 0);
      PutUp(columns[k], r);
    }

    /** The four nodes of a pick, tied into a row. */
    method AddPick(p: Pick)
      requires Ready() && p.cell < CELLS && 1 <= p.val <= 9 && cur + 4 <= nodes.Length
      requires forall q :: 0 <= q < 4 ==> EN.NameOf(p, q) < EN.NAMES && columns[EN.NameOf(p, q)] != 0
      modifies this`cur, this`sh, this`view, this`opts, this`at, nodes
      ensures Ready() && opts == old(opts) + [p] && cur == old(cur) + 4
    {
      hide EN.Ready, InBounds, Assembly.PutLeft, Assembly.NewRow, EN.PickShape, EN.FourView, EN.Built, EN.Coded, Unit;
      ghost var m, a, cols := nodes[..], cur, columns[..];
      EN.ReadyFacts(m, sh, view, cur, cols, opts, at);
      ghost var names := [EN.NameOf(p, 0), EN.NameOf(p, 1), EN.NameOf(p, 2), EN.NameOf(p, 3)];
      ghost var ds := [cols[names[0]], cols[names[1]], cols[names[2]], cols[names[3]]];
      EN.PickColumnsDistinct(m, sh, cols, p, ds);
      EN.FreshRow(m, sh, cols, opts, at);
      EN.PickAdded(m, sh, view, a, ds, names, |opts|);
      var n0 := NewRow(p.cell);
      var nr := NewRow(UnitName(0, Unit(0, p.cell), p.val));
      var nc := NewRow(UnitName(1, Unit(1, p.cell), p.val));
      var nb := NewRow(UnitName(2, Unit(2, p.cell), p.val));
      assert nodes[..] == EN.FourNodes(m, a, ds, names);
      PutLeft(n0, nr);
      PutLeft(n0, nc);
      PutLeft(n0, nb);
      assert nodes[..] == EN.PickMesh(m, a, ds, names);
      EN.PickCoded(m, nodes[..], sh, cols, opts, at, a, p, ds);
      sh := EN.PickShape(sh, a, ds, |opts|);
      view := EN.FourView(view, a, ds);
      opts := opts + [p];
      at := at + [a];
      EN.MakeReady(nodes[..], sh, view, cur, cols, opts, at);
    }

    /** One clue noted in one table. */
    method Mark(a: array2<bool>, u: nat, v: int, ghost b: seq<int>, ghost kind: nat, ghost i: nat)
      requires |b| == CELLS && kind < 3 && i < CELLS && MarkedBelow(b, kind, a, i)
      requires u == Unit(kind, i) && v == b[i] && 0 <= v < 10
      modifies a
      ensures MarkedBelow(b, kind, a, i + 1)
    {
      hide Unit;
      a[u, v] := true;
    }

    /** Which values the clues already put in each row, column and box. */
    method MarkClues() returns (rows: array2<bool>, cols: array2<bool>, boxes: array2<bool>)
      requires inout.Length == CELLS && IsBoard(inout[..])
      ensures Marked(inout[..], 0, rows) && Marked(inout[..], 1, cols) && Marked(inout[..], 2, boxes)
    {
      ghost var b := inout[..];
      rows := new bool[CELLS, 10]((_, _) => false);
      cols := new bool[CELLS, 10]((_, _) => false);
      boxes := new bool[CELLS, 10]((_, _) => false);
      for i := 0 to CELLS
        invariant inout[..] == b
        invariant MarkedBelow(b, 0, rows, i) && MarkedBelow(b, 1, cols, i) && MarkedBelow(b, 2, boxes, i)
      {
        var row := i / 9;
        var col := i % 9;
        var box := row / 3 * 3 + col / 3;
        var val := inout[i];
        Mark(rows, row, val, b, 0, i);
        Mark(cols, col, val, b, 1, i);
        Mark(boxes, box, val, b, 2, i);
      }
    }

    /** Headers for the empty cells. */
    method AppendCellColumns()
      requires Ready() && opts == [] && cur == 1 && forall k :: 0 <= k < EN.NAMES ==> columns[k] == 0
      requires inout.Length == CELLS
      modifies this`cur, this`sh, this`view, nodes, columns
      ensures Ready() && cur <= 1 + CELLS
      ensures forall k :: 0 <= k < EN.NAMES ==> (columns[k] != 0 <==> EN.NeededBelow(inout[..], k, 0))
    {
      hide EN.Ready;
      ghost var b := inout[..];
      for i := 0 to CELLS
        invariant Ready() && cur <= 1 + i && inout[..] == b
        invariant forall k :: 0 <= k < EN.NAMES ==> (columns[k] != 0 <==> k < i && b[k] == 0)
      {
        if inout[i] == 0 {
          EN.ReadyFacts(nodes[..], sh, view, cur, columns[..], opts, at);
          AppendColumn(i);
        }
      }
    }

    /** Headers for value v in row i, column i and box i, where the clues lack it. */
    method AppendUnit(i: nat, v: nat, rows: array2<bool>, cols: array2<bool>, boxes: array2<bool>, ghost b: seq<int>)
      requires Ready() && i < 9 && 1 <= v <= 9 && |b| == CELLS && cur + 3 <= nodes.Length
      requires Marked(b, 0, rows) && Marked(b, 1, cols) && Marked(b, 2, boxes)
      requires forall kind :: 0 <= kind < 3 ==> columns[UnitName(kind, i, v)] == 0
      modifies this`cur, this`sh, this`view, nodes, columns
      ensures Ready() && cur <= old(cur) + 3
      ensures forall k :: 0 <= k < EN.NAMES ==> (columns[k] != 0 <==> old(columns[k]) != 0 || EN.NeededUnit(b, k, i, v))
    {
      hide EN.Ready, Seen;
      EN.ReadyFacts(nodes[..], sh, view, cur, columns[..], opts, at);
      EN.UnitNames(i, v);
      if !rows[i, v] {
        AppendColumn(UnitName(0, i, v));
      }
      if !cols[i, v] {
        AppendColumn(UnitName(1, i, v));
      }
      if !boxes[i, v] {
        AppendColumn(UnitName(2, i, v));
      }
      EN.NeededUnitIs(b, i, v);
    }

    /** Headers for all the values missing from rows, columns and boxes. */
    method AppendUnitColumns(rows: array2<bool>, cols: array2<bool>, boxes: array2<bool>, ghost b: seq<int>)
      requires Ready() && |b| == CELLS && cur <= 1 + CELLS
      requires Marked(b, 0, rows) && Marked(b, 1, cols) && Marked(b, 2, boxes)
      requires forall k :: 0 <= k < EN.NAMES ==> (columns[k] != 0 <==> EN.NeededBelow(b, k, 0))
      modifies this`cur, this`sh, this`view, nodes, columns
      ensures Ready() && cur <= 1 + CELLS * 4
      ensures forall k :: 0 <= k < EN.NAMES ==> (columns[k] != 0 <==> Needed(b, k))
    {
      hide EN.Ready, EN.NeededBelow, EN.NeededUnit, Needed, Marked, UnitName;
      ghost var t := 0;
      for i := 0 to 9
        invariant Ready() && cur <= 1 + CELLS + 27 * i
        invariant t == 9 * i
        invariant forall k :: 0 <= k < EN.NAMES ==> (columns[k] != 0 <==> EN.NeededBelow(b, k, t))
      {
        for v := 1 to 10
          invariant Ready() && cur <= 1 + CELLS + 27 * i + 3 * (v - 1)
          invariant t == 9 * i + v - 1
          invariant forall k :: 0 <= k < EN.NAMES ==> (columns[k] != 0 <==> EN.NeededBelow(b, k, t))
        {
          EN.NotNeededYet(b, i, v, t);
          AppendUnit(i, v, rows, cols, boxes, b);
          EN.NeededBelowStep(b, i, v, t);
          t := t + 1;
        }
      }
      EN.NeededBelowAll(b);
    }

    /** One row for every candidate. */
    method AppendPicks(rows: array2<bool>, cols: array2<bool>, boxes: array2<bool>)
      requires Ready() && inout.Length == CELLS && IsBoard(inout[..]) && opts == [] && cur <= 1 + CELLS * 4
      requires Marked(inout[..], 0, rows) && Marked(inout[..], 1, cols) && Marked(inout[..], 2, boxes)
      requires forall k :: 0 <= k < EN.NAMES ==> (columns[k] != 0 <==> Needed(inout[..], k))
      modifies this`cur, this`sh, this`view, this`opts, this`at, nodes
      ensures Ready() && Distinct(opts) && forall p :: p in opts <==> Candidate(inout[..], p)
    {
      hide EN.Ready, Needed, Seen, Candidate, UnitName;
      ghost var b := inout[..];
      EN.BeforeEnds(b, 0);
      for i := 0 to CELLS
        invariant Ready() && inout[..] == b && cur <= 1 + CELLS * 4 + 36 * i
        invariant Distinct(opts) && forall p :: p in opts <==> Candidate(b, p) && EN.Before(p, i, 1)
      {
        EN.BeforeEnds(b, i);
        if inout[i] == 0 {
          for v := 1 to 10
            invariant Ready() && inout[..] == b && cur <= 1 + CELLS * 4 + 36 * i + 4 * (v - 1)
            invariant Distinct(opts) && forall p :: p in opts <==> Candidate(b, p) && EN.Before(p, i, v)
          {
            CandidateIf(b, Pick(i, v), rows, cols, boxes);
            EN.BeforeStep(i, v);
            if !(rows[Unit(0, i), v] || cols[Unit(1, i), v] || boxes[Unit(2, i), v]) {
              EN.CandidateNames(b, Pick(i, v));
              AddPick(Pick(i, v));
            }
          }
        }
      }
    }

    /** The body of the constructor, once the fields have their first values. */
    method BuildMatrix()
      requires nodes.Length == MAX_NODES && columns.Length == EN.NAMES && inout.Length == CELLS && IsBoard(inout[..])
      requires InBounds(nodes[..]) && forall k :: 0 <= k < EN.NAMES ==> columns[k] == 0
      requires cur == 0 && opts == [] && at == [] && view == View([], map[]) && sh == Shape(0, {}, map[], map[], map[])
      modifies this`cur, this`root, this`sh, this`view, this`opts, this`at, nodes, columns
      ensures root == sh.root && Ready()
      ensures EN.EncodesOk(inout[..], nodes[..], sh, view, columns[..], opts, at)
    {
      hide EN.Ready, EN.EncodesOk, Candidate, Needed, EN.NeededBelow, Marked, InBounds, EN.NewColumn, IsBoard, Distinct;
      ghost var b := inout[..];
      EN.RootAlone(nodes[..]);
      root := NewColumn(0);
      EN.ReadyStart(nodes[..], columns[..]);
      var rows, cols, boxes := MarkClues();
      AppendCellColumns();
      AppendUnitColumns(rows, cols, boxes, b);
      AppendPicks(rows, cols, boxes);
      EN.EncodesAll(b, nodes[..], sh, view, cur, columns[..], opts, at);
      EN.ReadyRoot(nodes[..], sh, view, cur, columns[..], opts, at);
    }

    // ---------- covering and searching ----------

    method UnlinkNode(j: nat)
      requires InBounds(nodes[..]) && j < nodes.Length
      modifies nodes
      ensures nodes[..] == Unlink(old(nodes[..]), j)
    {
      nodes[nodes[j].down] := nodes[nodes[j].down].(up := nodes[j].up);
      nodes[nodes[j].up] := nodes[nodes[j].up].(down := nodes[j].down);
      nodes[nodes[j].col] := nodes[nodes[j].col].(size := nodes[nodes[j].col].size - 1);
    }

    method RelinkNode(j: nat)
      requires InBounds(nodes[..]) && j < nodes.Length
      modifies nodes
      ensures nodes[..] == Relink(old(nodes[..]), j)
    {
      nodes[nodes[j].col] := nodes[nodes[j].col].(size := nodes[nodes[j].col].size + 1);
      nodes[nodes[j].down] := nodes[nodes[j].down].(up := j);
      nodes[nodes[j].up] := nodes[nodes[j].up].(down := j);
    }

    /** Takes column c out of the header ring and its rows out of all other columns. */
    method Cover(c: nat, ghost s: EC.Snap)
      requires nodes[..] == s.mesh && EC.Good(sh, s) && c in s.view.hdrs
      modifies nodes
      ensures nodes[..] == EC.Cover(sh, s, c).mesh
    {
      hide *;
      EC.PartialEnds(sh, s, c);
      TakeHeaderOut(c);
      ghost var col := s.view.vert[c];
      var row := nodes[c].down;
      EC.PartialFacts(sh, s, c, 0, 0);
      VStep(nodes[..], c, col, 0);
      WalkEnd(c, col, 0);
      ghost var i := 0;
      while row != c
        invariant i <= |col| && row == Walk(c, col)[i + 1] && (row == c <==> i == |col|)
        invariant EC.AtStep(sh, s, c, i, 0) && nodes[..] == EC.Partial(sh, s, c, i, 0)
        decreases |col| - i
      {
        WalkEnd(c, col, i);
        UnlinkRest(c, row, s, i);
        EC.PartialRow(sh, s, c, i);
        i := i + 1;
        EC.PartialFacts(sh, s, c, i, 0);
        VStep(nodes[..], c, col, i);
        WalkEnd(c, col, i);
        row := nodes[row].down;
      }
    }

    /** Puts back what covering column c took out, in the reverse order. */
    method Uncover(c: nat, ghost s: EC.Snap)
      requires EC.Good(sh, s) && c in s.view.hdrs && nodes[..] == EC.Cover(sh, s, c).mesh
      modifies nodes
      ensures nodes[..] == s.mesh
    {
      hide *;
      EC.PartialEnds(sh, s, c);
      ghost var col := s.view.vert[c];
      ghost var i: int := |col|;
      EC.PartialFacts(sh, s, c, i, 0);
      VStep(nodes[..], c, col, i);
      WalkEnd(c, col, i);
      var row := nodes[c].up;
      while row != c
        invariant 0 <= i <= |col| && row == Walk(c, col)[i] && (row == c <==> i == 0)
        invariant EC.AtStep(sh, s, c, i, 0) && nodes[..] == EC.Partial(sh, s, c, i, 0)
        decreases i
      {
        WalkEnd(c, col, i);
        i := i - 1;
        EC.StepBack(sh, s, c, i);
        EC.PartialRow(sh, s, c, i);
        RelinkRest(c, row, s, i);
        EC.PartialFacts(sh, s, c, i, 0);
        VStep(nodes[..], c, col, i);
        WalkEnd(c, col, i);
        row := nodes[row].up;
      }
      PutHeaderBack(c);
    }

    method TakeHeaderOut(c: nat)
      requires InBounds(nodes[..]) && c < nodes.Length
      modifies nodes
      ensures nodes[..] == UnlinkHeader(old(nodes[..]), c)
    {
      nodes[nodes[c].right] := nodes[nodes[c].right].(left := nodes[c].left);
      nodes[nodes[c].left] := nodes[nodes[c].left].(right := nodes[c].right);
    }

    method PutHeaderBack(c: nat)
      requires InBounds(nodes[..]) && c < nodes.Length
      modifies nodes
      ensures nodes[..] == RelinkHeader(old(nodes[..]), c)
    {
      nodes[nodes[c].right] := nodes[nodes[c].right].(left := c);
      nodes[nodes[c].left] := nodes[nodes[c].left].(right := c);
    }

    /** The inner loop of cover, for row i of column c. */
    method UnlinkRest(c: nat, row: nat, ghost s: EC.Snap, ghost i: nat)
      requires EC.AtStep(sh, s, c, i, 0) && i < |s.view.vert[c]| && row == s.view.vert[c][i]
      requires nodes[..] == EC.Partial(sh, s, c, i, 0)
      modifies nodes
      ensures EC.AtStep(sh, s, c, i, |sh.tail[row]|)
      ensures nodes[..] == EC.Partial(sh, s, c, i, |sh.tail[row]|)
    {
      hide EC.Good, EC.Partial, Unlink, HRing, VRing, InBounds;
      ghost var t := sh.tail[row];
      EC.PartialFacts(sh, s, c, i, 0);
      HStep(nodes[..], row, t, 0);
      WalkEnd(row, t, 0);
      var j := nodes[row].right;
      ghost var k := 0;
      while j != row
        invariant k <= |t| && j == Walk(row, t)[k + 1] && (j == row <==> k == |t|)
        invariant nodes[..] == EC.Partial(sh, s, c, i, k)
        decreases |t| - k
      {
        WalkEnd(row, t, k);
        EC.PartialNext(sh, s, c, i, k);
        UnlinkNode(j);
        k := k + 1;
        EC.PartialFacts(sh, s, c, i, k);
        HStep(nodes[..], row, t, k);
        WalkEnd(row, t, k);
        j := nodes[j].right;
      }
    }

    /** The inner loop of uncover, for row i of column c. */
    method RelinkRest(c: nat, row: nat, ghost s: EC.Snap, ghost i: nat)
      requires EC.AtStep(sh, s, c, i, 0) && i < |s.view.vert[c]| && row == s.view.vert[c][i]
      requires nodes[..] == EC.Partial(sh, s, c, i, |sh.tail[row]|)
      modifies nodes
      ensures nodes[..] == EC.Partial(sh, s, c, i, 0)
    {
      hide EC.Good, EC.Partial, Relink, Unlink, HRing, VRing, InBounds;
      ghost var t := sh.tail[row];
      ghost var k: int := |t|;
      EC.PartialFacts(sh, s, c, i, k);
      HStep(nodes[..], row, t, k);
      WalkEnd(row, t, k);
      var j := nodes[row].left;
      while j != row
        invariant 0 <= k <= |t| && j == Walk(row, t)[k] && (j == row <==> k == 0)
        invariant nodes[..] == EC.Partial(sh, s, c, i, k)
        decreases k
      {
        WalkEnd(row, t, k);
        k := k - 1;
        EC.PartialNext(sh, s, c, i, k);
        RelinkNode(j);
        EC.PartialFacts(sh, s, c, i, k);
        HStep(nodes[..], row, t, k);
        WalkEnd(row, t, k);
        j := nodes[j].left;
      }
    }

    /** The first header of least size, except that the scan stops early at a size below two. */
    method GetMinColumn(ghost s: EC.Snap) returns (c: nat)
      requires nodes[..] == s.mesh && EC.Good(sh, s) && root == sh.root && s.view.hdrs != []
      ensures (forall d :: d in s.view.hdrs ==> d in s.view.vert) && c in s.view.hdrs
      ensures EC.IsMinColumn(s, c)
    {
      hide *;
      ghost var hdrs := s.view.hdrs;
      EC.HeaderFacts(sh, s);
      ghost var z := EC.HeaderCounts(sh, s);
      HStep(s.mesh, root, hdrs, 0);
      WalkEnd(root, hdrs, 0);
      HeaderAt(sh, s, z, 0);
      c := nodes[root].right;
      var minSize := nodes[c].size;
      ghost var p := 0;
      if minSize > 1 {
        var cc := nodes[c].right;
        ghost var i := 1;
        while cc != root
          invariant 0 <= p < i <= |hdrs| && c == hdrs[p] && minSize == z[p] > 1
          invariant cc == Walk(root, hdrs)[i + 1] && (cc == root <==> i == |hdrs|)
          invariant forall q :: 0 <= q < p ==> z[q] > z[p]
          invariant forall q :: p <= q < i ==> z[p] <= z[q]
          decreases |hdrs| - i
        {
          HeaderAt(sh, s, z, i);
          assert nodes[cc] == s.mesh[cc];
          if minSize > nodes[cc].size {
            c := cc;
            p := i;
            minSize := nodes[cc].size;
            if minSize <= 1 { break; }
          }
          cc := nodes[cc].right;
          i := i + 1;
        }
      }
      EC.LeastOrSmall(s, z, p, c);
    }

    /** Covers the columns of the other nodes of row, left to right. */
    method CoverRow(row: nat, ghost s: EC.Snap)
      requires nodes[..] == s.mesh && EC.Good(sh, s) && row in sh.tail && EC.Coverable(sh, s, sh.tail[row])
      modifies nodes
      ensures nodes[..] == EC.CoverAll(sh, s, sh.tail[row]).mesh
    {
      hide *;
      ghost var t := sh.tail[row];
      EC.ChainStart(sh, s, t);
      EC.RowFacts(sh, s, row);
      HStep(nodes[..], row, t, 0);
      WalkEnd(row, t, 0);
      var j := nodes[row].right;
      ghost var k := 0;
      while j != row
        invariant 0 <= k <= |t| && j == Walk(row, t)[k + 1] && (j == row <==> k == |t|)
        invariant EC.Coverable(sh, s, t[..k]) && nodes[..] == EC.CoverAll(sh, s, t[..k]).mesh
        decreases |t| - k
      {
        WalkEnd(row, t, k);
        EC.ChainStep(sh, s, row, k);
        Cover(nodes[j].col, EC.CoverAll(sh, s, t[..k]));
        k := k + 1;
        EC.RowFacts(sh, EC.CoverAll(sh, s, t[..k]), row);
        HStep(nodes[..], row, t, k);
        WalkEnd(row, t, k);
        j := nodes[j].right;
      }
      assert t[..k] == t;
    }

    /** Uncovers the columns of the other nodes of row, right to left. */
    method UncoverRow(row: nat, ghost s: EC.Snap)
      requires EC.Good(sh, s) && row in sh.tail && EC.Coverable(sh, s, sh.tail[row])
      requires nodes[..] == EC.CoverAll(sh, s, sh.tail[row]).mesh
      modifies nodes
      ensures nodes[..] == s.mesh
    {
      hide *;
      ghost var t := sh.tail[row];
      ghost var k: int := |t|;
      assert t[..k] == t;
      EC.ChainStart(sh, s, t);
      EC.RowFacts(sh, EC.CoverAll(sh, s, t), row);
      HStep(nodes[..], row, t, k);
      WalkEnd(row, t, k);
      var j := nodes[row].left;
      while j != row
        invariant 0 <= k <= |t| && j == Walk(row, t)[k] && (j == row <==> k == 0)
        invariant EC.Coverable(sh, s, t[..k]) && nodes[..] == EC.CoverAll(sh, s, t[..k]).mesh
        decreases k
      {
        WalkEnd(row, t, k);
        k := k - 1;
        EC.ChainStep(sh, s, row, k);
        EC.RowFacts(sh, EC.CoverAll(sh, s, t[..k + 1]), row);
        Uncover(nodes[j].col, EC.CoverAll(sh, s, t[..k]));
        EC.RowFacts(sh, EC.CoverAll(sh, s, t[..k]), row);
        HStep(nodes[..], row, t, k);
        WalkEnd(row, t, k);
        j := nodes[j].left;
      }
      assert t[..k] == [];
    }

    /** Reads the cell and the value off the names met going right from n0. */
    method ReadPick(n0: nat, ghost s: EC.Snap) returns (cell: int, val: int)
      requires nodes[..] == s.mesh && EC.Good(sh, s) && Named(s.mesh, sh, opts) && n0 in sh.tail
      ensures n0 in sh.rowOf && sh.rowOf[n0] < |opts|
      ensures cell == opts[sh.rowOf[n0]].cell && val == opts[sh.rowOf[n0]].val
    {
      hide *;
      ghost var t, m := sh.tail[n0], s.mesh;
      EC.RowFacts(sh, s, n0);
      EC.GoodShape(sh, s);
      NamedAt(m, sh, opts, n0);
      ghost var a, b := SaysBothAt(m, n0, t);
      var n := n0;
      ghost var k := 0;
      cell, val := -1, -1;
      WalkEnd(n0, t, 0);
      while cell == -1 || val == -1
        invariant 0 <= k <= |t| + 1 && n == Walk(n0, t)[k]
        invariant cell == -1 || cell == opts[sh.rowOf[n0]].cell
        invariant val == -1 || val == opts[sh.rowOf[n0]].val
        invariant cell == -1 ==> k <= a
        invariant val == -1 ==> k <= b
        decreases |t| + 1 - k
      {
        HStep(m, n0, t, k);
        EC.RowWalk(sh, n0, k);
        NamedAt(m, sh, opts, n);
        assert nodes[n] == m[n];
        if nodes[n].name < 100 {
          cell := nodes[n].name;
        } else {
          val := nodes[n].name % 10;
        }
        n := nodes[n].right;
        k := k + 1;
      }
    }

    /** The base case of solve: every chosen row is written to the board. */
    method WriteSolution(ghost s: EC.Snap)
      requires nodes[..] == s.mesh && EC.Good(sh, s) && Named(s.mesh, sh, opts)
      requires OnRows(sh, opts, stack) && inout.Length == CELLS
      modifies inout
      ensures inout[..] == Filled(old(inout[..]), Picks(sh, opts, stack))
    {
      hide EC.Good, Named;
      ghost var b := inout[..];
      ghost var ps := Picks(sh, opts, stack);
      var i := 0;
      assert ps[..0] == [];
      while i < |stack|
        invariant 0 <= i <= |stack|
        invariant inout[..] == Filled(b, ps[..i])
      {
        var cell, val := ReadPick(stack[i], s);
        assert ps[..i + 1][..i] == ps[..i] && ps[..i + 1][i] == ps[i];
        inout[cell] := val;
        i := i + 1;
      }
      assert ps[..i] == ps;
    }

    /** The search: false exactly when the matrix has no exact cover, and then everything is
        as it was; true with the chosen rows on the stack and written to the board. */
    method Solve(ghost s: EC.Snap) returns (found: bool)
      requires nodes[..] == s.mesh && EC.Good(sh, s) && root == sh.root && Named(s.mesh, sh, opts)
      requires OnRows(sh, opts, stack) && inout.Length == CELLS
      modifies this`stack, nodes, inout
      ensures !found ==> nodes[..] == s.mesh && stack == old(stack) && inout[..] == old(inout[..])
      ensures !found ==> forall sel :: !EC.IsExactCover(sh, s, sel)
      ensures found ==> |old(stack)| <= |stack| && stack[..|old(stack)|] == old(stack)
      ensures found ==> EC.IsExactCover(sh, s, RowsOf(sh, stack[|old(stack)|..]))
      ensures found ==> OnRows(sh, opts, stack) && inout[..] == Filled(old(inout[..]), Picks(sh, opts, stack))
      decreases |s.view.hdrs|
    {
      hide *;
      RingEmpty(sh, s);
      if nodes[root].left == root {
        WriteSolution(s);
        NothingLeft(sh, s);
        assert stack[|stack|..] == [];
        return true;
      }
      ghost var st := stack;
      var c := GetMinColumn(s);
      Cover(c, s);
      ghost var s1 := EC.Cover(sh, s, c);
      CoverNames(sh, s, c);
      SameNamesNamed(s.mesh, s1.mesh, sh, opts);
      ghost var col := s.view.vert[c];
      EC.ColumnKept(sh, s, c);
      VStep(nodes[..], c, col, 0);
      WalkEnd(c, col, 0);
      var row := nodes[c].down;
      ghost var i := 0;
      while row != c
        invariant 0 <= i <= |col| && row == Walk(c, col)[i + 1] && (row == c <==> i == |col|)
        invariant nodes[..] == s1.mesh && stack == st && inout[..] == old(inout[..])
        invariant forall k :: 0 <= k < i ==> NoCoverWith(sh, s, col[k])
        decreases |col| - i
      {
        WalkEnd(c, col, i);
        EC.TailCoverable(sh, s, c, row);
        ghost var s2 := EC.Choose(sh, s, c, row);
        EC.ChooseIs(sh, s, c, row);
        ChooseMesh(sh, s, c, row, opts);
        PushOnRows(sh, opts, st, row, s1.mesh);
        stack := stack + [row];
        CoverRow(row, s1);
        found := Solve(s2);
        if found {
          BranchFound(sh, s, c, row, st, stack);
          return true;
        }
        stack := stack[..|stack| - 1];
        assert stack == st;
        UncoverRow(row, s1);
        BranchFails(sh, s, c, row);
        i := i + 1;
        VStep(nodes[..], c, col, i);
        WalkEnd(c, col, i);
        row := nodes[row].down;
      }
      Uncover(c, s);
      NoBranchLeft(sh, s, c);
      return false;
    }
  }
  // ---------- from the stack to the grid ----------

  lemma CodedNamed(m: Mesh, sh: Shape, cols: seq<nat>, opts: seq<Pick>, at: seq<nat>)
    requires EN.Coded(m, sh, cols, opts, at) && WFShape(sh)
    ensures Named(m, sh, opts)
  {
    forall n | n in sh.tail
      ensures n < |m| && n in sh.rowOf && sh.rowOf[n] < |opts|
      ensures NameFits(m[n].name, opts[sh.rowOf[n]]) && opts[sh.rowOf[n]].cell < CELLS && SaysBoth(m, n, sh.tail[n])
    {
      CodedNode(m, sh, cols, opts, at, n);
    }
  }

  lemma CodedNode(m: Mesh, sh: Shape, cols: seq<nat>, opts: seq<Pick>, at: seq<nat>, n: nat)
    requires EN.Coded(m, sh, cols, opts, at) && WFShape(sh) && n in sh.tail
    ensures n < |m| && n in sh.rowOf && sh.rowOf[n] < |opts| && opts[sh.rowOf[n]].cell < CELLS
    ensures NameFits(m[n].name, opts[sh.rowOf[n]]) && SaysBoth(m, n, sh.tail[n])
  {
    hide Walk, EN.NameOf;
    assert EN.NodeCoded(m, sh, cols, opts, n);
    var r := sh.rowOf[n];
    var q :| 0 <= q < 4 && m[n].name == EN.NameOf(opts[r], q);
    assert EN.RowCoded(m, sh, opts, at, r, 0) && EN.RowCoded(m, sh, opts, at, r, 1);
    EN.NameOfBounds(opts[r], q, 0);
    EN.NameOfBounds(opts[r], 0, 1);
    EN.NameOfBounds(opts[r], 1, 0);
    assert NameFits(m[n].name, opts[r]) by {
      assert q == 0 ==> EN.NameOf(opts[r], q) == opts[r].cell by { NameOfCell(opts[r]); }
    }
    var i := InWalk(sh, n, at[r]);
    var k := InWalk(sh, n, at[r] + 1);
    assert m[Walk(n, sh.tail[n])[i]].name < 100 && m[Walk(n, sh.tail[n])[k]].name >= 100;
  }

  lemma NameOfCell(p: Pick)
    requires p.cell < CELLS
    ensures EN.NameOf(p, 0) == p.cell
  {
  }

  lemma InWalk(sh: Shape, n: nat, j: nat) returns (i: nat)
    requires WFShape(sh) && n in sh.tail && j in sh.rowOf && sh.rowOf[j] == sh.rowOf[n]
    ensures i <= |sh.tail[n]| && Walk(n, sh.tail[n])[i] == j
  {
    var t := sh.tail[n];
    if j == n {
      i := 0;
    } else {
      assert j in t;
      var x :| 0 <= x < |t| && t[x] == j;
      i := x + 1;
    }
  }

  lemma {:induction false} FilledAt(b: seq<int>, ps: seq<Pick>, i: nat)
    requires i < |b| && forall k :: 0 <= k < |ps| ==> ps[k].cell < |b|
    requires forall k, l :: 0 <= k < |ps| && 0 <= l < |ps| && ps[k].cell == ps[l].cell ==> ps[k] == ps[l]
    ensures (forall k :: 0 <= k < |ps| ==> ps[k].cell != i) ==> Filled(b, ps)[i] == b[i]
    ensures forall k :: 0 <= k < |ps| && ps[k].cell == i ==> Filled(b, ps)[i] == ps[k].val
  {
    if ps != [] {
      var qs := ps[..|ps| - 1];
      FilledAt(b, qs, i);
      forall k | 0 <= k < |ps| && ps[k].cell == i ensures Filled(b, ps)[i] == ps[k].val {
        if k < |qs| { assert qs[k] == ps[k]; }
      }
    }
  }

  /** Picks that exactly cover what the board lacks, written in any order, solve the board. */
  lemma FilledSolves(b: seq<int>, ps: seq<Pick>)
    requires IsBoard(b) && IsPickCover(b, set p | p in ps)
    ensures forall k :: 0 <= k < |ps| ==> ps[k].cell < |b|
    ensures Solves(Filled(b, ps), b)
  {
    var s := set p | p in ps;
    forall k | 0 <= k < |ps| ensures ps[k].cell < |b| && b[ps[k].cell] == 0 && ps[k].val <= 9 {
      assert ps[k] in s && Candidate(b, ps[k]);
    }
    forall k, l | 0 <= k < |ps| && 0 <= l < |ps| && ps[k].cell == ps[l].cell ensures ps[k] == ps[l] {
      assert ps[k] in s && ps[l] in s;
      CoversCell(ps[k], ps[k].cell);
      CoversCell(ps[l], ps[k].cell);
      assert Needed(b, ps[k].cell);
    }
    var g := Filled(b, ps);
    forall i | 0 <= i < CELLS && b[i] != 0 ensures g[i] == b[i] { FilledAt(b, ps, i); }
    forall p | p in s ensures p.cell < CELLS && g[p.cell] == p.val {
      var k :| 0 <= k < |ps| && ps[k] == p;
      FilledAt(b, ps, p.cell);
    }
    CoverSolves(b, s, g);
  }

  lemma StackSolves(b: seq<int>, m: Mesh, sh: Shape, v: View, cols: seq<nat>, opts: seq<Pick>,
    at: seq<nat>, ns: seq<nat>)
    requires EN.EncodesOk(b, m, sh, v, cols, opts, at) && OnRows(sh, opts, ns)
    requires EC.IsExactCover(sh, EN.Whole(m, sh, v), RowsOf(sh, ns))
    ensures |b| == CELLS && Solves(Filled(b, Picks(sh, opts, ns)), b)
  {
    hide EC.IsExactCover, EN.Coded, Candidate, Needed, EN.Indexed, IsPickCover;
    EN.CoverToPicks(b, m, sh, v, cols, opts, at, RowsOf(sh, ns));
    var ps := Picks(sh, opts, ns);
    forall p | p in EN.PickSet(opts, RowsOf(sh, ns)) ensures p in ps {
      var r :| r in RowsOf(sh, ns) && r < |opts| && opts[r] == p;
      var n :| n in ns && n in sh.rowOf && sh.rowOf[n] == r;
      var i :| 0 <= i < |ns| && ns[i] == n;
      assert ps[i] == p;
    }
    forall p | p in ps ensures p in EN.PickSet(opts, RowsOf(sh, ns)) {
      var i :| 0 <= i < |ps| && ps[i] == p;
      assert ns[i] in ns && sh.rowOf[ns[i]] in RowsOf(sh, ns);
    }
    assert (set p | p in ps) == EN.PickSet(opts, RowsOf(sh, ns));
    FilledSolves(b, ps);
  }

  lemma NoCoverNoSolution(b: seq<int>, m: Mesh, sh: Shape, v: View, cols: seq<nat>, opts: seq<Pick>, at: seq<nat>)
    requires EN.EncodesOk(b, m, sh, v, cols, opts, at)
    requires forall sel :: !EC.IsExactCover(sh, EN.Whole(m, sh, v), sel)
    ensures |b| == CELLS && forall g :: !Solves(g, b)
  {
    hide EC.IsExactCover, EN.Coded, Candidate, Needed, EN.Indexed, IsPickCover;
    forall g ensures !Solves(g, b) {
      if Solves(g, b) {
        SolutionCovers(b, g);
        EN.PicksToCover(b, m, sh, v, cols, opts, at, PicksOf(b, g));
      }
    }
  }

  // ---------- the puzzle string ----------

  const NO_SOLUTION := "NoSolution"

  function DigitsOf(s: string): (b: seq<int>)
    ensures |b| == |s|
  {
    seq(|s|, i requires 0 <= i < |s| => s[i] as int - '0' as int)
  }

  /** The answer is a grid that keeps the clues exactly when there is one, and NoSolution otherwise. */
  method SolveSudoku(puzzle: string) returns (result: string)
    requires |puzzle| == CELLS
    ensures result == NO_SOLUTION <==> !(IsBoard(DigitsOf(puzzle)) && exists g :: Solves(g, DigitsOf(puzzle)))
    ensures result != NO_SOLUTION ==> Solves(DigitsOf(result), DigitsOf(puzzle))
  {
    hide *;
    ghost var b := DigitsOf(puzzle);
    result := NO_SOLUTION;
    var board, valid := ReadBoard(puzzle);
    if valid {
      var s := new Solver(board);
      ghost var m := EN.Whole(s.nodes[..], s.sh, s.view);
      Launch(b, s.nodes[..], s.sh, s.view, s.cur, s.columns[..], s.opts, s.at);
      var found := s.Solve(m);
      if found {
        assert s.stack[0..] == s.stack;
        StackSolves(b, m.mesh, s.sh, s.view, s.columns[..], s.opts, s.at, s.stack);
        result := WriteDigits(board, b);
      } else {
        NoCoverNoSolution(b, m.mesh, s.sh, s.view, s.columns[..], s.opts, s.at);
      }
    }
  }

  lemma Launch(b: seq<int>, m: Mesh, sh: Shape, v: View, cur: nat, cols: seq<nat>, opts: seq<Pick>, at: seq<nat>)
    requires EN.Ready(m, sh, v, cur, cols, opts, at)
    ensures EC.Good(sh, EN.Whole(m, sh, v)) && EN.Whole(m, sh, v).mesh == m
    ensures Named(m, sh, opts) && OnRows(sh, opts, [])
  {
    hide EN.Coded, Linked, EC.LiveOk, EN.Indexed, Named;
    EN.BuiltGood(m, sh, v, cur);
    EC.GoodShape(sh, EN.Whole(m, sh, v));
    CodedNamed(m, sh, cols, opts, at);
  }

  method ReadBoard(puzzle: string) returns (board: array<int>, valid: bool)
    requires |puzzle| == CELLS
    ensures fresh(board) && board.Length == CELLS && board[..] == DigitsOf(puzzle)
    ensures valid <==> IsBoard(DigitsOf(puzzle))
  {
    board := new int[CELLS](_ => 0);
    valid := true;
    for i := 0 to CELLS
      invariant forall k :: 0 <= k < i ==> board[k] == DigitsOf(puzzle)[k]
      invariant valid <==> forall k :: 0 <= k < i ==> 0 <= DigitsOf(puzzle)[k] <= 9
    {
      board[i] := puzzle[i] as int - '0' as int;
      valid := valid && 0 <= board[i] && board[i] <= 9;
    }
  }

  method WriteDigits(board: array<int>, ghost b: seq<int>) returns (result: string)
    requires board.Length == CELLS == |b| && Solves(board[..], b)
    ensures DigitsOf(result) == board[..] && result != NO_SOLUTION
  {
    result := "";
    for i := 0 to CELLS
      invariant |result| == i
      invariant forall k :: 0 <= k < i ==> result[k] as int - '0' as int == board[k]
    {
      result := result + [(board[i] + '0' as int) as char];
    }
  }
}
