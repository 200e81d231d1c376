/** Boards, grids and the exact cover problem of a board, with no mesh in sight. */
module SudokuRules {

  const CELLS := 81

  /** The unit of cell i of each kind: 0 its row, 1 its column, 2 its box. */
  function Unit(kind: nat, i: nat): (u: nat)
    requires kind < 3 && i < CELLS
    ensures u < 9
  {
    if kind == 0 then i / 9 else if kind == 1 then i % 9 else i / 9 / 3 * 3 + i % 9 / 3
  }

  /** A board gives each cell a digit; 0 stands for an empty cell. */
  predicate IsBoard(b: seq<int>) {
    |b| == CELLS && forall i :: 0 <= i < CELLS ==> 0 <= b[i] <= 9
  }

  /** A finished grid: digits 1 to 9, none twice in a row, a column or a box. */
  ghost predicate IsGrid(g: seq<int>) {
    && |g| == CELLS && (forall i :: 0 <= i < CELLS ==> 1 <= g[i] <= 9)
    && forall kind, i, j :: 0 <= kind < 3 && 0 <= i < j < CELLS && Unit(kind, i) == Unit(kind, j) ==> g[i] != g[j]
  }

  ghost predicate Solves(g: seq<int>, b: seq<int>)
    requires |b| == CELLS
  {
    IsGrid(g) && forall i :: 0 <= i < CELLS && b[i] != 0 ==> g[i] == b[i]
  }

  // ---------- the exact cover problem of a board ----------

  /** Value val in cell. */
  datatype Pick = Pick(cell: nat, val: nat)

  ghost predicate Seen(b: seq<int>, kind: nat, u: nat, v: int)
    requires |b| == CELLS && kind < 3
  {
    exists i :: 0 <= i < CELLS && Unit(kind, i) == u && b[i] == v
  }

  ghost predicate Candidate(b: seq<int>, p: Pick)
    requires |b| == CELLS
  {
    && p.cell < CELLS && 1 <= p.val <= 9 && b[p.cell] == 0
    && forall kind :: 0 <= kind < 3 ==> !Seen(b, kind, Unit(kind, p.cell), p.val)
  }

  /** The name of "unit u of this kind has value v". */
  function UnitName(kind: nat, u: nat, v: nat): nat { 100 * (kind + 1) + u * 10 + v }

  ghost predicate Covers(p: Pick, k: int) {
    && p.cell < CELLS
    && (k == p.cell || exists kind :: 0 <= kind < 3 && k == UnitName(kind, Unit(kind, p.cell), p.val))
  }

  /** What is still missing: a value in each empty cell, and each value not yet in a unit. */
  ghost predicate Needed(b: seq<int>, k: int)
    requires |b| == CELLS
  {
    || (0 <= k < CELLS && b[k] == 0)
    || exists kind, u, v ::
         && 0 <= kind < 3 && 0 <= u < 9 && 1 <= v <= 9
         && k == UnitName(kind, u, v) && !Seen(b, kind, u, v)
  }

  ghost predicate IsPickCover(b: seq<int>, ps: set<Pick>)
    requires |b| == CELLS
  {
    && (forall p :: p in ps ==> Candidate(b, p))
    && (forall k :: Needed(b, k) ==> exists p :: p in ps && Covers(p, k))
    && (forall k, p, q :: Needed(b, k) && p in ps && q in ps && Covers(p, k) && Covers(q, k) ==> p == q)
  }

  lemma NameDecodes(kind: nat, u: nat, v: nat, kind': nat, u': nat, v': nat)
    requires kind < 3 && u < 9 && v <= 9 && kind' < 3 && u' < 9 && v' <= 9
    ensures UnitName(kind, u, v) == UnitName(kind', u', v') ==> kind == kind' && u == u' && v == v'
    ensures 100 <= UnitName(kind, u, v) < 400 && UnitName(kind, u, v) % 10 == v % 10
  {
  }

  lemma CoversUnit(p: Pick, kind: nat, u: nat, v: nat)
    requires p.cell < CELLS && p.val <= 9 && kind < 3 && u < 9 && 1 <= v <= 9
    ensures Covers(p, UnitName(kind, u, v)) <==> Unit(kind, p.cell) == u && p.val == v
  {
    if Covers(p, UnitName(kind, u, v)) {
      NameDecodes(kind, u, v, kind, u, v);
      var k' :| 0 <= k' < 3 && UnitName(kind, u, v) == UnitName(k', Unit(k', p.cell), p.val);
      NameDecodes(kind, u, v, k', Unit(k', p.cell), p.val);
    }
  }

  lemma CoversCell(p: Pick, i: nat)
    requires p.cell < CELLS && p.val <= 9 && i < CELLS
    ensures Covers(p, i) <==> p.cell == i
  {
    forall kind | 0 <= kind < 3 ensures i != UnitName(kind, Unit(kind, p.cell), p.val) {
      NameDecodes(kind, Unit(kind, p.cell), p.val, kind, 0, 0);
    }
  }

  // ---------- nine cells, nine values ----------

  /** The t-th cell of a unit. */
  function CellOf(kind: nat, u: nat, t: nat): (i: nat)
    requires kind < 3 && u < 9 && t < 9
    ensures i < CELLS
  {
    if kind == 0 then 9 * u + t
    else if kind == 1 then 9 * t + u
    else 9 * (u / 3 * 3 + t / 3) + (u % 3 * 3 + t % 3)
  }

  function PlaceOf(kind: nat, i: nat): (t: nat)
    requires kind < 3 && i < CELLS
    ensures t < 9
  {
    if kind == 0 then i % 9 else if kind == 1 then i / 9 else i / 9 % 3 * 3 + i % 9 % 3
  }

  lemma DivMod9(a: nat, b: nat)
    requires b < 9
    ensures (9 * a + b) / 9 == a && (9 * a + b) % 9 == b
  {
  }

  lemma DivMod3(a: nat, b: nat)
    requires b < 3
    ensures (a * 3 + b) / 3 == a && (a * 3 + b) % 3 == b
  {
  }

  lemma UnitOfCell(kind: nat, u: nat, t: nat)
    requires kind < 3 && u < 9 && t < 9
    ensures Unit(kind, CellOf(kind, u, t)) == u && PlaceOf(kind, CellOf(kind, u, t)) == t
  {
    if kind == 0 {
      DivMod9(u, t);
    } else if kind == 1 {
      DivMod9(t, u);
    } else {
      DivMod9(u / 3 * 3 + t / 3, u % 3 * 3 + t % 3);
      DivMod3(u / 3, t / 3);
      DivMod3(u % 3, t % 3);
    }
  }

  lemma CellOfUnit(kind: nat, i: nat)
    requires kind < 3 && i < CELLS
    ensures CellOf(kind, Unit(kind, i), PlaceOf(kind, i)) == i
  {
    if kind == 2 {
      var r, q := i / 9, i % 9;
      DivMod3(r / 3, q / 3);
      DivMod3(r % 3, q % 3);
    }
  }

  function UnitValues(g: seq<int>, kind: nat, u: nat): seq<int>
    requires |g| == CELLS && kind < 3 && u < 9
  {
    seq(9, t requires 0 <= t < 9 => g[CellOf(kind, u, t)])
  }

  ghost function Elems(s: seq<int>): set<int> { set x | x in s }

  lemma {:induction false} ElemsSize(s: seq<int>)
    ensures |Elems(s)| <= |s|
    ensures (forall i, j :: 0 <= i < j < |s| ==> s[i] != s[j]) ==> |Elems(s)| == |s|
  {
    if s != [] {
      ElemsSize(s[1..]);
      assert Elems(s) == {s[0]} + Elems(s[1..]);
    }
  }

  lemma SubsetSize(a: set<int>, b: set<int>)
    requires a <= b
    ensures |a| <= |b| && (|a| == |b| ==> a == b)
  {
    assert b == a + (b - a);
  }

  const DIGITS: set<int> := {1, 2, 3, 4, 5, 6, 7, 8, 9}

  lemma DigitsPigeonhole(s: seq<int>)
    requires |s| == 9 && (forall t :: 0 <= t < 9 ==> 1 <= s[t] <= 9)
    requires forall i, j :: 0 <= i < j < 9 ==> s[i] != s[j]
    ensures forall v :: 1 <= v <= 9 ==> v in s
  {
    ElemsSize(s);
    assert |DIGITS| == 9;
    SubsetSize(Elems(s), DIGITS);
    forall v | 1 <= v <= 9 ensures v in s { assert v in DIGITS; }
  }

  lemma SlotsPigeonhole(s: seq<int>)
    requires |s| == 9 && forall v :: 1 <= v <= 9 ==> v in s
    ensures forall t :: 0 <= t < 9 ==> 1 <= s[t] <= 9
    ensures forall i, j :: 0 <= i < j < 9 ==> s[i] != s[j]
  {
    ElemsSize(s);
    assert |DIGITS| == 9;
    assert DIGITS <= Elems(s);
    SubsetSize(DIGITS, Elems(s));
    forall t | 0 <= t < 9 ensures 1 <= s[t] <= 9 { assert s[t] in Elems(s); }
    forall i, j | 0 <= i < j < 9 ensures s[i] != s[j] { NoRepeat(s, i, j); }
  }

  lemma NoRepeat(s: seq<int>, i: nat, j: nat)
    requires i < j < |s| && |Elems(s)| == |s|
    ensures s[i] != s[j]
  {
    if s[i] == s[j] {
      var w := s[..j] + s[j + 1..];
      forall x | x in s ensures x in w {
        var k :| 0 <= k < |s| && s[k] == x;
        assert w[if k < j then k else if k == j then i else k - 1] == x;
      }
      SubsetSize(Elems(s), Elems(w));
      ElemsSize(w);
    }
  }

  lemma UnitDistinct(g: seq<int>, kind: nat, u: nat)
    requires IsGrid(g) && kind < 3 && u < 9
    ensures forall v :: 1 <= v <= 9 ==> Seen(g, kind, u, v)
  {
    var s := UnitValues(g, kind, u);
    hide CellOf, PlaceOf, Unit;
    forall i, j | 0 <= i < j < 9 ensures s[i] != s[j] {
      UnitOfCell(kind, u, i);
      UnitOfCell(kind, u, j);
      var a, b := CellOf(kind, u, i), CellOf(kind, u, j);
      assert if a < b then g[a] != g[b] else g[b] != g[a];
    }
    DigitsPigeonhole(s);
    forall v | 1 <= v <= 9 ensures Seen(g, kind, u, v) {
      assert v in s;
      var t :| 0 <= t < 9 && s[t] == v;
      UnitOfCell(kind, u, t);
    }
  }

  lemma UnitComplete(g: seq<int>, kind: nat, u: nat)
    requires |g| == CELLS && kind < 3 && u < 9 && forall v :: 1 <= v <= 9 ==> Seen(g, kind, u, v)
    ensures forall i :: 0 <= i < CELLS && Unit(kind, i) == u ==> 1 <= g[i] <= 9
    ensures forall i, j :: 0 <= i < j < CELLS && Unit(kind, i) == u && Unit(kind, j) == u ==> g[i] != g[j]
  {
    var s := UnitValues(g, kind, u);
    forall v | 1 <= v <= 9 ensures v in s {
      assert Seen(g, kind, u, v);
      var i :| 0 <= i < CELLS && Unit(kind, i) == u && g[i] == v;
      CellOfUnit(kind, i);
      assert s[PlaceOf(kind, i)] == v;
    }
    SlotsPigeonhole(s);
    forall i | 0 <= i < CELLS && Unit(kind, i) == u ensures s[PlaceOf(kind, i)] == g[i] { CellOfUnit(kind, i); }
    forall i, j | 0 <= i < j < CELLS && Unit(kind, i) == u && Unit(kind, j) == u ensures g[i] != g[j] {
      CellOfUnit(kind, i);
      CellOfUnit(kind, j);
      var a, b := PlaceOf(kind, i), PlaceOf(kind, j);
      assert if a < b then s[a] != s[b] else s[b] != s[a];
    }
  }

  /** A grid is exactly a filling with every digit in every unit. */
  lemma GridHasAll(g: seq<int>)
    requires |g| == CELLS
    ensures IsGrid(g) <==> forall kind, u, v :: 0 <= kind < 3 && 0 <= u < 9 && 1 <= v <= 9 ==> Seen(g, kind, u, v)
  {
    hide Seen, Unit;
    if IsGrid(g) {
      forall kind, u, v | 0 <= kind < 3 && 0 <= u < 9 && 1 <= v <= 9 ensures Seen(g, kind, u, v) {
        UnitDistinct(g, kind, u);
      }
    }
    if forall kind, u, v :: 0 <= kind < 3 && 0 <= u < 9 && 1 <= v <= 9 ==> Seen(g, kind, u, v) {
      forall kind, i, j | 0 <= kind < 3 && 0 <= i < j < CELLS && Unit(kind, i) == Unit(kind, j) ensures g[i] != g[j] {
        UnitComplete(g, kind, Unit(kind, i));
      }
      forall i | 0 <= i < CELLS ensures 1 <= g[i] <= 9 { UnitComplete(g, 0, Unit(0, i)); }
    }
  }

  // ---------- exact covers are solutions ----------

  /** g keeps the clues of b and takes the picks. */
  ghost predicate Fits(g: seq<int>, b: seq<int>, ps: set<Pick>)
    requires |b| == CELLS
  {
    && |g| == CELLS && (forall i :: 0 <= i < CELLS && b[i] != 0 ==> g[i] == b[i])
    && forall p :: p in ps ==> p.cell < CELLS && g[p.cell] == p.val
  }

  lemma CoverSolves(b: seq<int>, ps: set<Pick>, g: seq<int>)
    requires IsBoard(b) && IsPickCover(b, ps) && Fits(g, b, ps)
    ensures Solves(g, b)
  {
    forall kind, u, v | 0 <= kind < 3 && 0 <= u < 9 && 1 <= v <= 9 ensures Seen(g, kind, u, v) {
      if Seen(b, kind, u, v) {
        var i :| 0 <= i < CELLS && Unit(kind, i) == u && b[i] == v;
        assert g[i] == v;
      } else {
        assert Needed(b, UnitName(kind, u, v));
        var p :| p in ps && Covers(p, UnitName(kind, u, v));
        assert Candidate(b, p);
        CoversUnit(p, kind, u, v);
        assert g[p.cell] == v;
      }
    }
    GridHasAll(g);
  }

  ghost function PicksOf(b: seq<int>, g: seq<int>): set<Pick>
    requires |b| == |g| == CELLS && forall i :: 0 <= i < CELLS ==> g[i] >= 0
  {
    set i | 0 <= i < CELLS && b[i] == 0 :: Pick(i, g[i])
  }

  lemma SameCell(g: seq<int>, kind: nat, i: nat, j: nat)
    requires IsGrid(g) && kind < 3 && i < CELLS && j < CELLS && Unit(kind, i) == Unit(kind, j) && g[i] == g[j]
    ensures i == j
  {
  }

  lemma SolutionPick(b: seq<int>, g: seq<int>, i: nat)
    requires IsBoard(b) && Solves(g, b) && i < CELLS && b[i] == 0
    ensures Candidate(b, Pick(i, g[i]))
  {
    forall kind, j | 0 <= kind < 3 && 0 <= j < CELLS && Unit(kind, j) == Unit(kind, i) ensures b[j] != g[i] {
      if g[j] == g[i] { SameCell(g, kind, i, j); }
    }
  }

  lemma SolutionReaches(b: seq<int>, g: seq<int>, k: int)
    requires IsBoard(b) && Solves(g, b) && Needed(b, k)
    ensures exists p :: p in PicksOf(b, g) && Covers(p, k)
  {
    if 0 <= k < CELLS && b[k] == 0 {
      assert Pick(k, g[k]) in PicksOf(b, g) && Covers(Pick(k, g[k]), k);
    } else {
      var kind, u, v :| 0 <= kind < 3 && 0 <= u < 9 && 1 <= v <= 9 && k == UnitName(kind, u, v) && !Seen(b, kind, u, v);
      UnitDistinct(g, kind, u);
      assert Seen(g, kind, u, v);
      var i :| 0 <= i < CELLS && Unit(kind, i) == u && g[i] == v;
      var p := Pick(i, g[i]);
      assert p in PicksOf(b, g) && Covers(p, k);
    }
  }

  lemma SolutionOnce(b: seq<int>, g: seq<int>, k: int, p: Pick, q: Pick)
    requires IsBoard(b) && Solves(g, b) && Needed(b, k)
    requires p in PicksOf(b, g) && q in PicksOf(b, g) && Covers(p, k) && Covers(q, k)
    ensures p == q
  {
    if 0 <= k < CELLS {
      CoversCell(p, k);
      CoversCell(q, k);
    } else {
      var kind, u, v :| 0 <= kind < 3 && 0 <= u < 9 && 1 <= v <= 9 && k == UnitName(kind, u, v) && !Seen(b, kind, u, v);
      CoversUnit(p, kind, u, v);
      CoversUnit(q, kind, u, v);
      SameCell(g, kind, p.cell, q.cell);
    }
  }

  lemma SolutionCovers(b: seq<int>, g: seq<int>)
    requires IsBoard(b) && Solves(g, b)
    ensures IsPickCover(b, PicksOf(b, g))
  {
    hide Seen, Unit, Covers, Needed, Candidate;
    var ps := PicksOf(b, g);
    forall p | p in ps ensures Candidate(b, p) { SolutionPick(b, g, p.cell); }
    forall k | Needed(b, k) ensures exists p :: p in ps && Covers(p, k) { SolutionReaches(b, g, k); }
    forall k, p, q | Needed(b, k) && p in ps && q in ps && Covers(p, k) && Covers(q, k) ensures p == q {
      SolutionOnce(b, g, k, p, q);
    }
  }

  /** Rows, columns and three by three boxes. */
  lemma UnitsAre(i: nat, j: nat)
    requires i < 81 && j < 81
    ensures Unit(0, i) == Unit(0, j) <==> i / 9 == j / 9
    ensures Unit(1, i) == Unit(1, j) <==> i % 9 == j % 9
    ensures Unit(2, i) == Unit(2, j) <==> i / 9 / 3 == j / 9 / 3 && i % 9 / 3 == j % 9 / 3
  {
  }
}
