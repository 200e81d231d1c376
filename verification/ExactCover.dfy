/** The exact cover problem a linked matrix stands for, and what covering columns does to it. */
module ExactCover {
  import opened DancingLinks

  /** A mesh, its lists, and the rows still on offer. */
  datatype Snap = Snap(mesh: Mesh, view: View, live: set<nat>)

  ghost predicate LiveOk(sh: Shape, v: View, live: set<nat>) {
    && live <= sh.rowOf.Values
    && (forall n :: n in sh.col && n in sh.rowOf && sh.col[n] in v.hdrs && sh.col[n] in v.vert ==>
          (n in v.vert[sh.col[n]] <==> sh.rowOf[n] in live))
    && (forall n :: n in sh.rowOf && n in sh.col && sh.rowOf[n] in live ==> sh.col[n] in v.hdrs)
  }

  /** A well-formed matrix: every list linked, and each column in the header ring
      holds exactly its nodes of live rows. */
  ghost predicate Good(sh: Shape, s: Snap) {
    Linked(s.mesh, sh, s.view) && OnePerColumn(sh) && LiveOk(sh, s.view, s.live)
  }

  ghost predicate Hits(sh: Shape, r: nat, d: nat) {
    exists n :: n in sh.rowOf && n in sh.col && sh.rowOf[n] == r && sh.col[n] == d
  }

  /** The rows sel meet each column of the header ring exactly once, and are all on offer. */
  ghost predicate IsExactCover(sh: Shape, s: Snap, sel: set<nat>) {
    && sel <= s.live
    && (forall d :: d in s.view.hdrs ==> exists r :: r in sel && Hits(sh, r, d))
    && (forall d, r, r' :: r in sel && r' in sel && Hits(sh, r, d) && Hits(sh, r', d) ==> r == r')
  }

  // ---------- covering one column ----------

  lemma VictimsInColumns(sh: Shape, s: Snap, c: nat)
    requires Good(sh, s) && c in s.view.hdrs
    ensures c in s.view.vert && forall n :: n in s.view.vert[c] ==> n in sh.tail && n in sh.col && sh.col[n] == c
    ensures Distinct(s.view.vert[c]) && Distinct(Victims(sh, s.view.vert[c]))
    ensures InColumns(sh, s.view.vert, Victims(sh, s.view.vert[c]))
    ensures forall j :: j in Victims(sh, s.view.vert[c]) <==>
      j in sh.col && sh.col[j] != c && sh.rowOf[j] in s.live && Hits(sh, sh.rowOf[j], c)
  {
    var v := s.view.vert[c];
    assert ColumnLinked(s.mesh, sh, c, v);
    VictimsMembers(sh, v, c);
    forall j | j in Victims(sh, v)
      ensures j in sh.col && sh.col[j] != c && sh.rowOf[j] in s.live && Hits(sh, sh.rowOf[j], c)
    {
      var n :| n in v && j in sh.tail[n];
    }
    forall j | j in sh.col && sh.col[j] != c && sh.rowOf[j] in s.live && Hits(sh, sh.rowOf[j], c)
      ensures j in Victims(sh, v)
    {
      var n :| n in sh.rowOf && n in sh.col && sh.rowOf[n] == sh.rowOf[j] && sh.col[n] == c;
      assert n in v;
      assert j in sh.tail[n];
    }
  }

  ghost function Cover(sh: Shape, s: Snap, c: nat): (r: Snap)
    requires Good(sh, s) && c in s.view.hdrs
    ensures Good(sh, r)
    ensures r.live == set k | k in s.live && !Hits(sh, k, c)
    ensures r.view.hdrs == Without(s.view.hdrs, c)
  {
    CoverKeeps(sh, s, c);
    var js := Victims(sh, s.view.vert[c]);
    Snap(UnlinkAll(UnlinkHeader(s.mesh, c), js),
         View(Without(s.view.hdrs, c), DropAll(sh, s.view.vert, js)),
         set k | k in s.live && !Hits(sh, k, c))
  }

  lemma CoverKeeps(sh: Shape, s: Snap, c: nat)
    requires Good(sh, s) && c in s.view.hdrs
    ensures c < |s.mesh| && c in s.view.vert
    ensures forall n :: n in s.view.vert[c] ==> n in sh.tail
    ensures InColumns(sh, s.view.vert, Victims(sh, s.view.vert[c]))
    ensures
      var js := Victims(sh, s.view.vert[c]);
      var h := UnlinkHeader(s.mesh, c);
      Within(h, js) && Good(sh, Snap(UnlinkAll(h, js), View(Without(s.view.hdrs, c), DropAll(sh, s.view.vert, js)),
                                     set k | k in s.live && !Hits(sh, k, c)))
  {
    VictimsInColumns(sh, s, c);
    var js := Victims(sh, s.view.vert[c]);
    UnlinkHeaderKeeps(s.mesh, sh, s.view, c);
    WithoutMembers(s.view.hdrs, c);
    UnlinkAllKeeps(UnlinkHeader(s.mesh, c), sh, View(Without(s.view.hdrs, c), s.view.vert), js);
    CoverLive(sh, s, c);
  }

  lemma CoverLive(sh: Shape, s: Snap, c: nat)
    requires Good(sh, s) && c in s.view.hdrs && c in s.view.vert
    requires forall n :: n in s.view.vert[c] ==> n in sh.tail
    requires InColumns(sh, s.view.vert, Victims(sh, s.view.vert[c]))
    ensures LiveOk(sh, View(Without(s.view.hdrs, c), DropAll(sh, s.view.vert, Victims(sh, s.view.vert[c]))),
                   set k | k in s.live && !Hits(sh, k, c))
  {
    VictimsInColumns(sh, s, c);
    WithoutMembers(s.view.hdrs, c);
    var js := Victims(sh, s.view.vert[c]);
    var vert, live := DropAll(sh, s.view.vert, js), set k | k in s.live && !Hits(sh, k, c);
    forall n | n in sh.col && sh.col[n] in s.view.hdrs && sh.col[n] != c
      ensures n in vert[sh.col[n]] <==> sh.rowOf[n] in live
    {
      assert ColumnLinked(s.mesh, sh, sh.col[n], s.view.vert[sh.col[n]]);
      DropAllMembers(sh, s.view.vert, js, sh.col[n]);
    }
    forall n | n in sh.rowOf && sh.rowOf[n] in live ensures sh.col[n] in s.view.hdrs && sh.col[n] != c {
      assert !Hits(sh, sh.rowOf[n], c);
    }
  }

  /** What uncovering writes: the nodes relinked in the reverse order, then the header. */
  ghost function Uncovered(m: Mesh, js: seq<nat>, c: nat): Mesh
    requires InBounds(m) && Within(m, js) && c < |m|
  {
    RelinkHeader(RelinkAll(m, js), c)
  }

  /** Uncovering a column of any well-formed matrix right after covering it restores every field. */
  lemma UncoverCover(sh: Shape, s: Snap, c: nat)
    requires Good(sh, s) && c in s.view.hdrs
    ensures c < |s.mesh| && c in s.view.vert
    ensures forall n :: n in s.view.vert[c] ==> n in sh.tail
    ensures
      var js := Victims(sh, s.view.vert[c]);
      var m := Cover(sh, s, c).mesh;
      InBounds(m) && Within(m, js) && |m| == |s.mesh| && Uncovered(m, js, c) == s.mesh
  {
    VictimsInColumns(sh, s, c);
    var js := Victims(sh, s.view.vert[c]);
    UnlinkHeaderKeeps(s.mesh, sh, s.view, c);
    UnlinkAllKeeps(UnlinkHeader(s.mesh, c), sh, View(Without(s.view.hdrs, c), s.view.vert), js);
  }

  // ---------- the meshes the two loops of cover and uncover pass through ----------

  ghost predicate AtStep(sh: Shape, s: Snap, c: nat, i: nat, k: nat) {
    && Good(sh, s) && c in s.view.hdrs && c in s.view.vert && i <= |s.view.vert[c]|
    && (i < |s.view.vert[c]| ==> s.view.vert[c][i] in sh.tail && k <= |sh.tail[s.view.vert[c][i]]|)
    && (i == |s.view.vert[c]| ==> k == 0)
  }

  /** The first k victims of row i of column c, after all those of the rows above. */
  ghost function Taken(sh: Shape, s: Snap, c: nat, i: nat, k: nat): seq<nat>
    requires AtStep(sh, s, c, i, k)
  {
    VictimsInColumns(sh, s, c);
    Victims(sh, s.view.vert[c][..i]) + if i < |s.view.vert[c]| then sh.tail[s.view.vert[c][i]][..k] else []
  }

  lemma {:induction false} VictimsPrefix(sh: Shape, v: seq<nat>, i: nat)
    requires i <= |v| && forall n :: n in v ==> n in sh.tail
    ensures Victims(sh, v[..i]) <= Victims(sh, v)
    ensures i < |v| ==> Victims(sh, v[..i + 1]) == Victims(sh, v[..i]) + sh.tail[v[i]]
    decreases |v|
  {
    if i == |v| {
      assert v[..i] == v;
    } else {
      var u := v[..|v| - 1];
      VictimsPrefix(sh, u, i);
      assert u[..i] == v[..i];
      assert v[..i + 1][..i] == v[..i];
      assert Victims(sh, u) <= Victims(sh, v);
    }
  }

  lemma TakenPrefix(sh: Shape, s: Snap, c: nat, i: nat, k: nat)
    requires AtStep(sh, s, c, i, k)
    ensures forall n :: n in s.view.vert[c] ==> n in sh.tail
    ensures Taken(sh, s, c, i, k) <= Victims(sh, s.view.vert[c])
  {
    hide Good;
    VictimsInColumns(sh, s, c);
    var v := s.view.vert[c];
    VictimsPrefix(sh, v, i);
    if i < |v| { VictimsPrefix(sh, v, i + 1); }
  }

  lemma PrefixInColumns(sh: Shape, s: Snap, c: nat, js: seq<nat>)
    requires Good(sh, s) && c in s.view.hdrs && c in s.view.vert
    requires (forall n :: n in s.view.vert[c] ==> n in sh.tail) && js <= Victims(sh, s.view.vert[c])
    ensures InColumns(sh, s.view.vert, js) && Distinct(js) && forall j :: j in js ==> j in sh.col && sh.col[j] != c
  {
    hide Good, Victims;
    VictimsInColumns(sh, s, c);
    assert forall j :: j in js ==> j in Victims(sh, s.view.vert[c]);
  }

  lemma PrefixLinked(sh: Shape, s: Snap, c: nat, js: seq<nat>)
    requires Good(sh, s) && c in s.view.hdrs && c in s.view.vert
    requires InColumns(sh, s.view.vert, js) && Distinct(js) && forall j :: j in js ==> j in sh.col && sh.col[j] != c
    ensures c < |s.mesh| && Within(UnlinkHeader(s.mesh, c), js)
    ensures
      var h, v := UnlinkHeader(s.mesh, c), View(Without(s.view.hdrs, c), s.view.vert);
      Linked(h, sh, v) && Linked(UnlinkAll(h, js), sh, v.(vert := DropAll(sh, v.vert, js)))
    ensures DropAll(sh, s.view.vert, js)[c] == s.view.vert[c]
  {
    assert ColumnLinked(s.mesh, sh, c, s.view.vert[c]);
    UnlinkHeaderKeeps(s.mesh, sh, s.view, c);
    UnlinkAllKeeps(UnlinkHeader(s.mesh, c), sh, View(Without(s.view.hdrs, c), s.view.vert), js);
    DropAllMembers(sh, s.view.vert, js, c);
  }

  lemma TakenOk(sh: Shape, s: Snap, c: nat, i: nat, k: nat)
    requires AtStep(sh, s, c, i, k)
    ensures c < |s.mesh| && InBounds(s.mesh) && Within(UnlinkHeader(s.mesh, c), Taken(sh, s, c, i, k))
    ensures InColumns(sh, s.view.vert, Taken(sh, s, c, i, k)) && Distinct(Taken(sh, s, c, i, k))
    ensures
      var h, v, js := UnlinkHeader(s.mesh, c), View(Without(s.view.hdrs, c), s.view.vert), Taken(sh, s, c, i, k);
      && Linked(h, sh, v) && Linked(UnlinkAll(h, js), sh, v.(vert := DropAll(sh, v.vert, js)))
      && DropAll(sh, v.vert, js)[c] == v.vert[c]
  {
    TakenPrefix(sh, s, c, i, k);
    PrefixInColumns(sh, s, c, Taken(sh, s, c, i, k));
    hide Good, Linked, Taken, DropAll, UnlinkAll, UnlinkHeader;
    assert InBounds(s.mesh) by { GoodBounds(sh, s); }
    PrefixLinked(sh, s, c, Taken(sh, s, c, i, k));
  }

  lemma GoodBounds(sh: Shape, s: Snap)
    requires Good(sh, s)
    ensures InBounds(s.mesh)
  {
  }

  /** The mesh after unlinking the header of c and those victims. */
  ghost function Partial(sh: Shape, s: Snap, c: nat, i: nat, k: nat): Mesh
    requires AtStep(sh, s, c, i, k)
  {
    TakenOk(sh, s, c, i, k);
    UnlinkAll(UnlinkHeader(s.mesh, c), Taken(sh, s, c, i, k))
  }

  lemma PartialFacts(sh: Shape, s: Snap, c: nat, i: nat, k: nat)
    requires AtStep(sh, s, c, i, k)
    ensures c < |s.mesh| == |Partial(sh, s, c, i, k)| && InBounds(Partial(sh, s, c, i, k))
    ensures VRing(Partial(sh, s, c, i, k), c, s.view.vert[c]) && c !in s.view.vert[c]
    ensures i < |s.view.vert[c]| ==>
      var n, m := s.view.vert[c][i], Partial(sh, s, c, i, k);
      && HRing(m, n, sh.tail[n]) && n !in sh.tail[n]
      && forall j :: j in sh.tail[n] ==> j < |m| && j in sh.col && m[j].col == sh.col[j]
  {
    hide Taken, DropAll, UnlinkAll, UnlinkHeader, HRing, VRing;
    TakenOk(sh, s, c, i, k);
    var m := Partial(sh, s, c, i, k);
    var v := View(Without(s.view.hdrs, c), DropAll(sh, s.view.vert, Taken(sh, s, c, i, k)));
    assert ColumnLinked(m, sh, c, v.vert[c]);
    if i < |s.view.vert[c]| {
      var n := s.view.vert[c][i];
      forall j | j in sh.tail[n] ensures j < |m| && j in sh.col && m[j].col == sh.col[j] {
        assert j in sh.tail;
      }
    }
  }

  lemma PartialNext(sh: Shape, s: Snap, c: nat, i: nat, k: nat)
    requires AtStep(sh, s, c, i, k) && i < |s.view.vert[c]| && k < |sh.tail[s.view.vert[c][i]]|
    ensures
      var p, q, j := Partial(sh, s, c, i, k), Partial(sh, s, c, i, k + 1), sh.tail[s.view.vert[c][i]][k];
      InBounds(p) && InBounds(q) && j < |p| == |q| && q == Unlink(p, j) && p == Relink(q, j)
  {
    hide Good, Unlink, Relink, DropAll, UnlinkHeader, Linked;
    var a, b, j := Taken(sh, s, c, i, k), Taken(sh, s, c, i, k + 1), sh.tail[s.view.vert[c][i]][k];
    assert b == a + [j];
    assert b[..|b| - 1] == a;
    TakenOk(sh, s, c, i, k);
    TakenOk(sh, s, c, i, k + 1);
    var h, v := UnlinkHeader(s.mesh, c), View(Without(s.view.hdrs, c), s.view.vert);
    TakenLast(sh, h, v, a, j);
  }

  lemma TakenLast(sh: Shape, h: Mesh, v: View, a: seq<nat>, j: nat)
    requires Linked(h, sh, v) && InColumns(sh, v.vert, a + [j]) && Distinct(a + [j])
    requires InColumns(sh, v.vert, a) && Distinct(a)
    ensures Within(h, a) && j < |h| && Relink(Unlink(UnlinkAll(h, a), j), j) == UnlinkAll(h, a)
  {
    assert j == (a + [j])[|a|];
    assert j in a + [j];
    forall x | 0 <= x < |a| ensures a[x] != j { assert (a + [j])[x] == a[x]; }
    assert ColumnLinked(h, sh, sh.col[j], v.vert[sh.col[j]]);
    UnlinkAllKeeps(h, sh, v, a);
    DropAllMembers(sh, v.vert, a, sh.col[j]);
    UnlinkKeeps(UnlinkAll(h, a), sh, v.(vert := DropAll(sh, v.vert, a)), j);
    assert j in sh.tail;
  }

  lemma PartialRow(sh: Shape, s: Snap, c: nat, i: nat)
    requires AtStep(sh, s, c, i, 0) && i < |s.view.vert[c]|
    ensures AtStep(sh, s, c, i, |sh.tail[s.view.vert[c][i]]|) && AtStep(sh, s, c, i + 1, 0)
    ensures Partial(sh, s, c, i, |sh.tail[s.view.vert[c][i]]|) == Partial(sh, s, c, i + 1, 0)
  {
    hide Good, UnlinkAll, UnlinkHeader;
    VictimsInColumns(sh, s, c);
    VictimsPrefix(sh, s.view.vert[c], i);
    assert Taken(sh, s, c, i, |sh.tail[s.view.vert[c][i]]|) == Taken(sh, s, c, i + 1, 0);
  }

  lemma StepBack(sh: Shape, s: Snap, c: nat, i: nat)
    requires AtStep(sh, s, c, i + 1, 0)
    ensures AtStep(sh, s, c, i, 0)
  {
    hide Good;
    VictimsInColumns(sh, s, c);
  }

  lemma PartialEnds(sh: Shape, s: Snap, c: nat)
    requires Good(sh, s) && c in s.view.hdrs
    ensures c in s.view.vert && c < |s.mesh| && InBounds(s.mesh)
    ensures AtStep(sh, s, c, 0, 0) && Partial(sh, s, c, 0, 0) == UnlinkHeader(s.mesh, c)
    ensures AtStep(sh, s, c, |s.view.vert[c]|, 0) && Partial(sh, s, c, |s.view.vert[c]|, 0) == Cover(sh, s, c).mesh
    ensures RelinkHeader(UnlinkHeader(s.mesh, c), c) == s.mesh
  {
    hide Good, RelinkHeader, UnlinkHeader, Linked;
    VictimsInColumns(sh, s, c);
    GoodBounds(sh, s);
    GoodLinked(sh, s);
    UnlinkHeaderKeeps(s.mesh, sh, s.view, c);
    var v := s.view.vert[c];
    assert v[..|v|] == v;
    assert Taken(sh, s, c, |v|, 0) == Victims(sh, v);
    CoverKeeps(sh, s, c);
    assert Cover(sh, s, c).mesh == UnlinkAll(UnlinkHeader(s.mesh, c), Victims(sh, v));
  }

  lemma GoodLinked(sh: Shape, s: Snap)
    requires Good(sh, s)
    ensures Linked(s.mesh, sh, s.view)
  {
  }

  /** Covering c leaves the list below c itself as it was. */
  lemma ColumnKept(sh: Shape, s: Snap, c: nat)
    requires Good(sh, s) && c in s.view.hdrs
    ensures c in s.view.vert && c !in s.view.vert[c] && VRing(Cover(sh, s, c).mesh, c, s.view.vert[c])
  {
    hide Good, Cover, Partial, VRing;
    PartialEnds(sh, s, c);
    PartialFacts(sh, s, c, |s.view.vert[c]|, 0);
  }

  // ---------- reading the header ring ----------

  lemma HeaderFacts(sh: Shape, s: Snap)
    requires Good(sh, s)
    ensures InBounds(s.mesh) && HRing(s.mesh, sh.root, s.view.hdrs)
    ensures sh.root !in s.view.hdrs && Distinct(s.view.hdrs)
    ensures forall d :: d in s.view.hdrs ==>
      d < |s.mesh| && d in s.view.vert && s.mesh[d].size == |s.view.vert[d]|
  {
    forall d | d in s.view.hdrs
      ensures d < |s.mesh| && d in s.view.vert && s.mesh[d].size == |s.view.vert[d]|
    {
      assert ColumnLinked(s.mesh, sh, d, s.view.vert[d]);
    }
  }

  /** The numbers of nodes below the headers, along the header ring. */
  ghost function Counts(s: Snap): seq<nat>
    requires forall d :: d in s.view.hdrs ==> d in s.view.vert
  {
    seq(|s.view.hdrs|, p requires 0 <= p < |s.view.hdrs| => |s.view.vert[s.view.hdrs[p]]|)
  }

  ghost predicate FirstLeast(z: seq<nat>, p: nat) {
    p < |z| && (forall q :: 0 <= q < p ==> z[q] > z[p]) && forall q :: 0 <= q < |z| ==> z[p] <= z[q]
  }

  /** The scan may stop early at a column with at most one node. */
  ghost predicate SmallEnough(z: seq<nat>, p: nat) {
    p < |z| && (forall q :: 0 <= q < p ==> z[q] > z[p]) && z[p] <= 1
  }

  /** The first header of least size, or one at which the scan stops early. */
  ghost predicate IsMinColumn(s: Snap, c: nat)
    requires forall d :: d in s.view.hdrs ==> d in s.view.vert
  {
    exists p :: 0 <= p < |s.view.hdrs| && s.view.hdrs[p] == c && (FirstLeast(Counts(s), p) || SmallEnough(Counts(s), p))
  }

  lemma HeaderCounts(sh: Shape, s: Snap) returns (z: seq<nat>)
    requires Good(sh, s)
    ensures (forall d :: d in s.view.hdrs ==> d in s.view.vert) && z == Counts(s) && |z| == |s.view.hdrs|
    ensures forall p :: 0 <= p < |z| ==> s.view.hdrs[p] < |s.mesh| && s.mesh[s.view.hdrs[p]].size == z[p]
  {
    hide Good, HRing, InBounds;
    HeaderFacts(sh, s);
    z := Counts(s);
    forall p | 0 <= p < |z| ensures s.view.hdrs[p] < |s.mesh| && s.mesh[s.view.hdrs[p]].size == z[p] {
      assert s.view.hdrs[p] in s.view.hdrs;
    }
  }

  lemma LeastOrSmall(s: Snap, z: seq<nat>, p: nat, c: nat)
    requires (forall d :: d in s.view.hdrs ==> d in s.view.vert) && z == Counts(s) && p < |z|
    requires forall q :: 0 <= q < p ==> z[q] > z[p]
    requires z[p] <= 1 || forall q :: p <= q < |z| ==> z[p] <= z[q]
    requires p < |s.view.hdrs| && s.view.hdrs[p] == c
    ensures c in s.view.hdrs && IsMinColumn(s, c)
  {
  }

  // ---------- covering all columns of a row ----------

  ghost predicate Coverable(sh: Shape, s: Snap, ts: seq<nat>) {
    && (forall k :: 0 <= k < |ts| ==> ts[k] in sh.col && sh.col[ts[k]] in s.view.hdrs)
    && (forall i, k :: 0 <= i < k < |ts| && ts[i] in sh.col && ts[k] in sh.col ==> sh.col[ts[i]] != sh.col[ts[k]])
  }

  ghost predicate InColumnOf(sh: Shape, ts: seq<nat>, d: nat) {
    exists k :: 0 <= k < |ts| && ts[k] in sh.col && sh.col[ts[k]] == d
  }

  ghost predicate MeetsColumnOf(sh: Shape, ts: seq<nat>, r: nat) {
    exists k :: 0 <= k < |ts| && ts[k] in sh.col && Hits(sh, r, sh.col[ts[k]])
  }

  lemma LastNode(sh: Shape, ts: seq<nat>)
    requires ts != [] && ts[|ts| - 1] in sh.col
    ensures forall d :: InColumnOf(sh, ts, d) <==> InColumnOf(sh, ts[..|ts| - 1], d) || d == sh.col[ts[|ts| - 1]]
    ensures forall k :: MeetsColumnOf(sh, ts, k) <==>
      MeetsColumnOf(sh, ts[..|ts| - 1], k) || Hits(sh, k, sh.col[ts[|ts| - 1]])
  {
    hide Hits;
    var us, j := ts[..|ts| - 1], ts[|ts| - 1];
    forall d | InColumnOf(sh, ts, d) ensures InColumnOf(sh, us, d) || d == sh.col[j] {
      var k :| 0 <= k < |ts| && ts[k] in sh.col && sh.col[ts[k]] == d;
      assert k < |us| ==> us[k] == ts[k];
    }
    forall d | InColumnOf(sh, us, d) ensures InColumnOf(sh, ts, d) {
      var k :| 0 <= k < |us| && us[k] in sh.col && sh.col[us[k]] == d;
      assert us[k] == ts[k];
    }
    forall r | MeetsColumnOf(sh, ts, r) ensures MeetsColumnOf(sh, us, r) || Hits(sh, r, sh.col[j]) {
      var k :| 0 <= k < |ts| && ts[k] in sh.col && Hits(sh, r, sh.col[ts[k]]);
      assert k < |us| ==> us[k] == ts[k];
    }
    forall r | MeetsColumnOf(sh, us, r) ensures MeetsColumnOf(sh, ts, r) {
      var k :| 0 <= k < |us| && us[k] in sh.col && Hits(sh, r, sh.col[us[k]]);
      assert us[k] == ts[k];
    }
  }

  lemma CoverablePrefix(sh: Shape, s: Snap, ts: seq<nat>)
    requires Coverable(sh, s, ts) && ts != []
    ensures Coverable(sh, s, ts[..|ts| - 1]) && ts[|ts| - 1] in sh.col && sh.col[ts[|ts| - 1]] in s.view.hdrs
    ensures !InColumnOf(sh, ts[..|ts| - 1], sh.col[ts[|ts| - 1]])
  {
  }

  ghost function CoverAll(sh: Shape, s: Snap, ts: seq<nat>): (r: Snap)
    requires Good(sh, s) && Coverable(sh, s, ts)
    ensures Good(sh, r)
    ensures forall d :: d in r.view.hdrs <==> d in s.view.hdrs && !InColumnOf(sh, ts, d)
    ensures r.live == set k | k in s.live && !MeetsColumnOf(sh, ts, k)
    ensures |r.view.hdrs| <= |s.view.hdrs|
    decreases ts
  {
    hide Good, Coverable, Hits;
    if ts == [] then s else
      CoverablePrefix(sh, s, ts);
      LastNode(sh, ts);
      var u := CoverAll(sh, s, ts[..|ts| - 1]);
      HeaderRemoved(sh, u, sh.col[ts[|ts| - 1]]);
      Cover(sh, u, sh.col[ts[|ts| - 1]])
  }

  lemma HeaderRemoved(sh: Shape, s: Snap, c: nat)
    requires Good(sh, s) && c in s.view.hdrs
    ensures |Cover(sh, s, c).view.hdrs| == |s.view.hdrs| - 1
    ensures forall d :: d in Cover(sh, s, c).view.hdrs <==> d in s.view.hdrs && d != c
  {
    WithoutMembers(s.view.hdrs, c);
  }

  /** The columns a row meets are those of its node n and of the rest of n's row. */
  lemma RowColumns(sh: Shape, n: nat)
    requires WFShape(sh) && n in sh.col
    ensures n in sh.tail && n in sh.rowOf
    ensures forall d :: Hits(sh, sh.rowOf[n], d) <==> d == sh.col[n] || InColumnOf(sh, sh.tail[n], d)
    ensures forall r :: (exists d :: Hits(sh, sh.rowOf[n], d) && Hits(sh, r, d)) <==>
      Hits(sh, r, sh.col[n]) || MeetsColumnOf(sh, sh.tail[n], r)
  {
    var ts := sh.tail[n];
    forall d | Hits(sh, sh.rowOf[n], d) ensures d == sh.col[n] || InColumnOf(sh, ts, d) {
      var j :| j in sh.rowOf && j in sh.col && sh.rowOf[j] == sh.rowOf[n] && sh.col[j] == d;
      if j != n { assert j in ts; }
    }
    forall d | InColumnOf(sh, ts, d) ensures Hits(sh, sh.rowOf[n], d) {
      var k :| 0 <= k < |ts| && ts[k] in sh.col && sh.col[ts[k]] == d;
      assert ts[k] in ts;
    }
    forall r ensures (exists d :: Hits(sh, sh.rowOf[n], d) && Hits(sh, r, d)) <==>
                     Hits(sh, r, sh.col[n]) || MeetsColumnOf(sh, ts, r)
    {
      if d :| Hits(sh, sh.rowOf[n], d) && Hits(sh, r, d) {
        hide Hits;
        assert d == sh.col[n] || InColumnOf(sh, ts, d);
      }
      if MeetsColumnOf(sh, ts, r) {
        hide Hits;
        var k :| 0 <= k < |ts| && ts[k] in sh.col && Hits(sh, r, sh.col[ts[k]]);
        assert InColumnOf(sh, ts, sh.col[ts[k]]);
      }
      assert Hits(sh, sh.rowOf[n], sh.col[n]);
    }
  }

  lemma BelowHeader(sh: Shape, s: Snap, c: nat, n: nat)
    requires Good(sh, s) && c in s.view.hdrs && c in s.view.vert && n in s.view.vert[c]
    ensures n in sh.tail && n in sh.col && n in sh.rowOf && sh.col[n] == c && sh.rowOf[n] in s.live
  {
    assert ColumnLinked(s.mesh, sh, c, s.view.vert[c]);
  }

  lemma TailColumns(sh: Shape, s: Snap, n: nat, j: nat)
    requires Good(sh, s) && n in sh.rowOf && sh.rowOf[n] in s.live && n in sh.tail && j in sh.tail[n]
    ensures j in sh.rowOf && j in sh.col && sh.rowOf[j] == sh.rowOf[n]
    ensures sh.col[j] in s.view.hdrs && n in sh.col && sh.col[j] != sh.col[n]
  {
  }

  lemma TailDistinct(sh: Shape, s: Snap, n: nat)
    requires Good(sh, s) && n in sh.tail
    ensures Distinct(sh.tail[n]) && OnePerColumn(sh)
  {
  }

  lemma TailCoverable(sh: Shape, s: Snap, c: nat, n: nat)
    requires Good(sh, s) && c in s.view.hdrs && c in s.view.vert && n in s.view.vert[c]
    ensures n in sh.tail && n in sh.col && n in sh.rowOf && sh.col[n] == c && sh.rowOf[n] in s.live
    ensures Coverable(sh, Cover(sh, s, c), sh.tail[n])
  {
    hide Good, Cover;
    BelowHeader(sh, s, c, n);
    HeaderRemoved(sh, s, c);
    TailDistinct(sh, s, n);
    var ts := sh.tail[n];
    forall k | 0 <= k < |ts|
      ensures ts[k] in sh.rowOf && sh.rowOf[ts[k]] == sh.rowOf[n] && ts[k] in sh.col
      ensures sh.col[ts[k]] in s.view.hdrs && sh.col[ts[k]] != c
    {
      TailColumns(sh, s, n, ts[k]);
    }
  }

  /** The matrix after choosing the row of node n of column c. */
  ghost function Choose(sh: Shape, s: Snap, c: nat, n: nat): Snap
    requires Good(sh, s) && c in s.view.hdrs && c in s.view.vert && n in s.view.vert[c]
  {
    hide *;
    TailCoverable(sh, s, c, n);
    CoverAll(sh, Cover(sh, s, c), sh.tail[n])
  }

  lemma ChooseIs(sh: Shape, s: Snap, c: nat, n: nat)
    requires Good(sh, s) && c in s.view.hdrs && c in s.view.vert && n in s.view.vert[c]
    ensures Good(sh, Choose(sh, s, c, n)) && n in sh.rowOf && sh.rowOf[n] in s.live
    ensures forall d :: d in Choose(sh, s, c, n).view.hdrs <==> d in s.view.hdrs && !Hits(sh, sh.rowOf[n], d)
    ensures Choose(sh, s, c, n).live ==
      set k | k in s.live && !(exists d :: Hits(sh, sh.rowOf[n], d) && Hits(sh, k, d))
    ensures |Choose(sh, s, c, n).view.hdrs| < |s.view.hdrs|
  {
    hide Good, Hits, MeetsColumnOf, InColumnOf, Coverable, WFShape, CoverAll, Cover;
    TailCoverable(sh, s, c, n);
    HeaderRemoved(sh, s, c);
    GoodShape(sh, s);
    RowColumns(sh, n);
  }

  lemma GoodShape(sh: Shape, s: Snap)
    requires Good(sh, s)
    ensures WFShape(sh)
  {
  }

  // ---------- the meshes passed through while covering a row ----------

  lemma RowFacts(sh: Shape, s: Snap, n: nat)
    requires Good(sh, s) && n in sh.tail
    ensures n < |s.mesh| && HRing(s.mesh, n, sh.tail[n]) && n !in sh.tail[n]
    ensures forall k :: 0 <= k < |sh.tail[n]| ==>
      var j := sh.tail[n][k]; j < |s.mesh| && j in sh.col && s.mesh[j].col == sh.col[j]
  {
    forall k | 0 <= k < |sh.tail[n]|
      ensures sh.tail[n][k] in sh.tail
    {
      assert sh.tail[n][k] in sh.tail[n];
    }
  }

  lemma RowWalk(sh: Shape, n: nat, k: nat)
    requires WFShape(sh) && n in sh.tail && k <= |sh.tail[n]|
    ensures n in sh.rowOf && Walk(n, sh.tail[n])[k] in sh.tail && Walk(n, sh.tail[n])[k] in sh.rowOf
    ensures sh.rowOf[Walk(n, sh.tail[n])[k]] == sh.rowOf[n]
  {
    assert k > 0 ==> Walk(n, sh.tail[n])[k] == sh.tail[n][k - 1] && sh.tail[n][k - 1] in sh.tail[n];
  }

  lemma ChainStart(sh: Shape, s: Snap, t: seq<nat>)
    requires Good(sh, s)
    ensures Coverable(sh, s, []) && CoverAll(sh, s, []) == s && t[..0] == [] && t[..|t|] == t
  {
  }

  lemma ChainStep(sh: Shape, s: Snap, n: nat, k: nat)
    requires Good(sh, s) && n in sh.tail && Coverable(sh, s, sh.tail[n]) && k < |sh.tail[n]|
    ensures
      var t, j := sh.tail[n], sh.tail[n][k];
      && Coverable(sh, s, t[..k]) && Coverable(sh, s, t[..k + 1]) && j in sh.col
      && Good(sh, CoverAll(sh, s, t[..k])) && sh.col[j] in CoverAll(sh, s, t[..k]).view.hdrs
      && CoverAll(sh, s, t[..k + 1]) == Cover(sh, CoverAll(sh, s, t[..k]), sh.col[j])
      && j < |CoverAll(sh, s, t[..k]).mesh| && CoverAll(sh, s, t[..k]).mesh[j].col == sh.col[j]
      && Good(sh, CoverAll(sh, s, t[..k + 1]))
      && j < |CoverAll(sh, s, t[..k + 1]).mesh| && CoverAll(sh, s, t[..k + 1]).mesh[j].col == sh.col[j]
  {
    hide Good, Cover, Linked, HRing;
    var t, j := sh.tail[n], sh.tail[n][k];
    assert Coverable(sh, s, t[..k]) && Coverable(sh, s, t[..k + 1]);
    assert t[..k + 1][..k] == t[..k] && t[..k + 1] != [] && t[..k + 1][k] == j;
    assert !InColumnOf(sh, t[..k], sh.col[j]);
    RowFacts(sh, CoverAll(sh, s, t[..k]), n);
    RowFacts(sh, CoverAll(sh, s, t[..k + 1]), n);
  }

  // ---------- why trying every row of one column is enough ----------

  lemma SomeBranch(sh: Shape, s: Snap, c: nat, sel: set<nat>)
    requires Good(sh, s) && c in s.view.hdrs && IsExactCover(sh, s, sel)
    ensures c in s.view.vert && exists n :: n in s.view.vert[c] && n in sh.rowOf && sh.rowOf[n] in sel
  {
    var r :| r in sel && Hits(sh, r, c);
    var n :| n in sh.rowOf && n in sh.col && sh.rowOf[n] == r && sh.col[n] == c;
    assert c in s.view.vert && n in s.view.vert[c];
  }

  lemma BranchDown(sh: Shape, s: Snap, c: nat, n: nat, sel: set<nat>)
    requires Good(sh, s) && c in s.view.hdrs && c in s.view.vert && n in s.view.vert[c]
    requires IsExactCover(sh, s, sel) && n in sh.rowOf && sh.rowOf[n] in sel
    ensures IsExactCover(sh, Choose(sh, s, c, n), sel - {sh.rowOf[n]})
  {
    hide Good, Hits, Choose;
    ChooseIs(sh, s, c, n);
    var t, r := Choose(sh, s, c, n), sh.rowOf[n];
    forall d | d in t.view.hdrs ensures exists k :: k in sel - {r} && Hits(sh, k, d) {
      var k :| k in sel && Hits(sh, k, d);
      assert k in sel - {r};
    }
  }

  lemma BranchUp(sh: Shape, s: Snap, c: nat, n: nat, sel: set<nat>)
    requires Good(sh, s) && c in s.view.hdrs && c in s.view.vert && n in s.view.vert[c]
    requires IsExactCover(sh, Choose(sh, s, c, n), sel)
    ensures n in sh.rowOf && IsExactCover(sh, s, sel + {sh.rowOf[n]})
  {
    hide Good, Hits, Choose;
    ChooseIs(sh, s, c, n);
    var t, r := Choose(sh, s, c, n), sh.rowOf[n];
    forall d | d in s.view.hdrs ensures exists k :: k in sel + {r} && Hits(sh, k, d) {
      if Hits(sh, r, d) { assert r in sel + {r}; } else {
        var k :| k in sel && Hits(sh, k, d);
        assert k in sel + {r};
      }
    }
  }
}
