/** The lineage page's layout: rows by generation, edges towards the seed, and the shift
    into the viewport. A reference to a positioned node is its index, so that an edge made
    before the shift sees its ends where the shift puts them. */
module Lineage {
  import opened Options

  const COL_W := 260
  const ROW_H := 130
  const NODE_W := 220
  const NODE_H := 56
  const PAD_X := 60
  const PAD_Y := 60

  datatype Person = Person(id: int, relation: string, depth: int)

  datatype Tree = Tree(
    seed: Person, ancestors: seq<Person>, descendants: seq<Person>, spouses: seq<Person>, siblings: seq<Person>)

  datatype Spot = Spot(id: int, relation: string, generation: int, focus: bool, x: int, y: int)

  datatype Edge = Edge(from: nat, to: nat)

  datatype Layout = Layout(
    positioned: seq<Spot>, edges: seq<Edge>, marriageLines: seq<Edge>, viewW: int, viewH: int)

  datatype Kind = KSibling | KSelf | KPartner | KOther

  function KindOf(relation: string): Kind {
    if relation == "self" then KSelf
    else if relation == "spouse" || relation == "former_spouse" || relation == "concubine" || relation == "betrothed"
      then KPartner
    else if relation == "sibling" || relation == "half_sibling" then KSibling
    else KOther
  }

  // ---- Rows ----

  datatype Entry = Entry(generation: int, person: Person)

  datatype Side = Above | Below | Beside

  function GenerationOf(side: Side, p: Person): int {
    match side case Above => -p.depth case Below => p.depth case Beside => 0
  }

  function Entered(side: Side, persons: seq<Person>): (r: seq<Entry>)
    ensures |r| == |persons|
    ensures forall i | 0 <= i < |r| :: r[i] == Entry(GenerationOf(side, persons[i]), persons[i])
  {
    if persons == [] then []
    else
      var p := persons[|persons| - 1];
      Entered(side, persons[..|persons| - 1]) + [Entry(GenerationOf(side, p), p)]
  }

  function SeedEntry(tree: Tree): Entry {
    Entry(0, tree.seed.(depth := 0, relation := "self"))
  }

  function Entries(tree: Tree): seq<Entry> {
    [SeedEntry(tree)] + Entered(Above, tree.ancestors) + Entered(Below, tree.descendants)
    + Entered(Beside, tree.spouses) + Entered(Beside, tree.siblings)
  }

  function RowOf(entries: seq<Entry>, g: int): seq<Person> {
    if entries == [] then []
    else
      var last := entries[|entries| - 1];
      RowOf(entries[..|entries| - 1], g) + (if last.generation == g then [last.person] else [])
  }

  function GenerationsOf(entries: seq<Entry>): set<int> {
    set i | 0 <= i < |entries| :: entries[i].generation
  }

  function RowsOf(entries: seq<Entry>): map<int, seq<Person>> {
    map g | g in GenerationsOf(entries) :: RowOf(entries, g)
  }

  function PushGen(byGen: map<int, seq<Person>>, g: int, p: Person): map<int, seq<Person>> {
    if g in byGen then byGen[g := byGen[g] + [p]] else byGen[g := [p]]
  }

  lemma PushGenGroups(entries: seq<Entry>, e: Entry)
    ensures PushGen(RowsOf(entries), e.generation, e.person) == RowsOf(entries + [e])
  {
    hide RowOf, GenerationsOf;
    MoreGenerations(entries, e);
    if e.generation !in GenerationsOf(entries) {
      AbsentRow(entries, e.generation);
    }
    forall g | g in GenerationsOf(entries + [e])
      ensures RowOf(entries + [e], g) == RowOf(entries, g) + if g == e.generation then [e.person] else []
    {
      LongerRow(entries, e, g);
    }
    var pushed, rows := PushGen(RowsOf(entries), e.generation, e.person), RowsOf(entries + [e]);
    RowsKeys(entries);
    RowsKeys(entries + [e]);
    assert pushed.Keys == rows.Keys;
    assert forall g | g in pushed :: pushed[g] == rows[g];
  }

  lemma RowsKeys(entries: seq<Entry>)
    ensures RowsOf(entries).Keys == GenerationsOf(entries)
  {
  }

  lemma MoreGenerations(entries: seq<Entry>, e: Entry)
    ensures GenerationsOf(entries + [e]) == GenerationsOf(entries) + {e.generation}
  {
    var more := entries + [e];
    assert more[|entries|] == e;
    assert forall i | 0 <= i < |entries| :: more[i] == entries[i];
  }

  lemma LongerRow(entries: seq<Entry>, e: Entry, g: int)
    ensures RowOf(entries + [e], g) == RowOf(entries, g) + if g == e.generation then [e.person] else []
  {
    assert (entries + [e])[..|entries|] == entries;
  }

  lemma {:induction false} AbsentRow(entries: seq<Entry>, g: int)
    requires g !in GenerationsOf(entries)
    ensures RowOf(entries, g) == []
  {
    if entries != [] {
      var n := |entries| - 1;
      assert entries[n].generation in GenerationsOf(entries);
      assert forall i | 0 <= i < n :: entries[..n][i] == entries[i];
      AbsentRow(entries[..n], g);
    }
  }

  method Group(byGen: map<int, seq<Person>>, side: Side, persons: seq<Person>, ghost before: seq<Entry>)
      returns (grouped: map<int, seq<Person>>)
    requires byGen == RowsOf(before)
    ensures grouped == RowsOf(before + Entered(side, persons))
  {
    hide RowsOf, PushGen;
    grouped := byGen;
    assert before + Entered(side, []) == before;
    for i := 0 to |persons|
      invariant grouped == RowsOf(before + Entered(side, persons[..i]))
    {
      var g := GenerationOf(side, persons[i]);
      PushGenGroups(before + Entered(side, persons[..i]), Entry(g, persons[i]));
      assert before + Entered(side, persons[..i]) + [Entry(g, persons[i])]
        == before + Entered(side, persons[..i + 1]);
      grouped := PushGen(grouped, g, persons[i]);
    }
    assert persons[..|persons|] == persons;
  }

  // The least member comes first.
  function Sorted(s: set<int>): (r: seq<int>)
    ensures forall i, j | 0 <= i < j < |r| :: r[i] < r[j]
    ensures forall g :: g in r <==> g in s
  {
    if s == {} then []
    else
      HasLeast(s);
      var m :| m in s && forall k | k in s :: m <= k;
      [m] + Sorted(s - {m})
  }

  lemma {:induction false} HasLeast(s: set<int>)
    requires s != {}
    ensures exists m :: m in s && forall k | k in s :: m <= k
  {
    if forall k: int {:trigger k in s} :: k !in s {
      assert false;
    }
    var k: int :| k in s;
    var rest := s - {k};
    if rest == {} {
      assert forall l | l in s && l != k :: l in rest;
      assert k in s && forall l | l in s :: k <= l;
    } else {
      HasLeast(rest);
      var m: int :| m in rest && forall l | l in rest :: m <= l;
      assert forall l | l in s && l != k :: l in rest;
      assert (if m < k then m else k) in s;
    }
  }

  // ---- Places ----

  function OfKind(row: seq<Person>, kind: Kind): (r: seq<Person>)
    ensures forall i | 0 <= i < |r| :: KindOf(r[i].relation) == kind
  {
    if row == [] then []
    else
      var last := row[|row| - 1];
      OfKind(row[..|row| - 1], kind) + (if KindOf(last.relation) == kind then [last] else [])
  }

  function Reversed<T>(s: seq<T>): (r: seq<T>)
    ensures |r| == |s|
    ensures forall i | 0 <= i < |r| :: r[i] == s[|s| - 1 - i]
  {
    if s == [] then [] else [s[|s| - 1]] + Reversed(s[..|s| - 1])
  }

  function Ordered(row: seq<Person>, g: int): seq<Person> {
    if g == 0 then Reversed(OfKind(row, KSibling)) + OfKind(row, KSelf) + OfKind(row, KPartner) else row
  }

  // Column i of total, centred on 0: (i - (total - 1) / 2) columns.
  function ColumnX(i: int, total: int): int {
    (2 * i - (total - 1)) * (COL_W / 2)
  }

  function SpotAt(row: seq<Person>, g: int, seedId: int, i: nat): Spot
    requires i < |row|
  {
    Spot(row[i].id, row[i].relation, g, row[i].id == seedId, ColumnX(i, |row|), g * ROW_H)
  }

  function Placed(row: seq<Person>, g: int, seedId: int, count: nat): (r: seq<Spot>)
    requires count <= |row|
    ensures |r| == count
    ensures forall i | 0 <= i < count :: r[i] == SpotAt(row, g, seedId, i)
  {
    if count == 0 then [] else Placed(row, g, seedId, count - 1) + [SpotAt(row, g, seedId, count - 1)]
  }

  method PlaceRow(row: seq<Person>, g: int, positioned: seq<Spot>, seedId: int) returns (r: seq<Spot>)
    ensures r == positioned + Placed(row, g, seedId, |row|)
  {
    r := positioned;
    for i := 0 to |row|
      invariant r == positioned + Placed(row, g, seedId, i)
    {
      r := r + [SpotAt(row, g, seedId, i)];
    }
  }

  function Positioned(rows: map<int, seq<Person>>, gens: seq<int>, seedId: int): seq<Spot>
    requires forall i | 0 <= i < |gens| :: gens[i] in rows
  {
    if gens == [] then []
    else
      var g := gens[|gens| - 1];
      var row := Ordered(rows[g], g);
      Positioned(rows, gens[..|gens| - 1], seedId) + Placed(row, g, seedId, |row|)
  }

  function Spots(tree: Tree): seq<Spot> {
    Positioned(RowsOf(Entries(tree)), Sorted(GenerationsOf(Entries(tree))), tree.seed.id)
  }

  // Row by row downwards, and within a row one whole column further right each time.
  ghost predicate RowMajor(spots: seq<Spot>) {
    && (forall k | 0 <= k < |spots| :: spots[k].y == spots[k].generation * ROW_H)
    && (forall j, k | 0 <= j < k < |spots| ::
          || spots[j].generation < spots[k].generation
          || (spots[j].generation == spots[k].generation && spots[j].x + COL_W <= spots[k].x))
  }

  lemma PlacedIsRowMajor(row: seq<Person>, g: int, seedId: int)
    ensures RowMajor(Placed(row, g, seedId, |row|))
    ensures forall k | 0 <= k < |row| :: Placed(row, g, seedId, |row|)[k].generation == g
  {
    hide Placed;
  }

  // A row is centred: mirrored columns lie as far left of 0 as right of it.
  lemma RowIsCentred(row: seq<Person>, g: int, seedId: int, i: nat)
    requires i < |row|
    ensures Placed(row, g, seedId, |row|)[i].x == -Placed(row, g, seedId, |row|)[|row| - 1 - i].x
  {
    hide Placed;
  }

  lemma RowMajorJoin(a: seq<Spot>, b: seq<Spot>, g: int)
    requires RowMajor(a) && RowMajor(b)
    requires forall k | 0 <= k < |a| :: a[k].generation < g
    requires forall k | 0 <= k < |b| :: b[k].generation == g
    ensures RowMajor(a + b)
  {
    forall j, k | 0 <= j < k < |a + b|
      ensures (a + b)[j].generation < (a + b)[k].generation
        || ((a + b)[j].generation == (a + b)[k].generation && (a + b)[j].x + COL_W <= (a + b)[k].x)
    {
      if |a| <= j {
        assert (a + b)[j] == b[j - |a|] && (a + b)[k] == b[k - |a|];
      } else if |a| <= k {
        assert (a + b)[j] == a[j] && (a + b)[k] == b[k - |a|];
      }
    }
  }

  lemma {:induction false} SpotsAreRowMajor(rows: map<int, seq<Person>>, gens: seq<int>, seedId: int)
    requires forall i | 0 <= i < |gens| :: gens[i] in rows
    requires forall i, j | 0 <= i < j < |gens| :: gens[i] < gens[j]
    ensures RowMajor(Positioned(rows, gens, seedId))
    ensures forall k | 0 <= k < |Positioned(rows, gens, seedId)| ::
      Positioned(rows, gens, seedId)[k].generation in gens
  {
    hide Ordered, Placed, RowMajor;
    if gens == [] {
      PlacedIsRowMajor([], 0, seedId);
      assert Placed([], 0, seedId, 0) == [];
    } else {
      var n := |gens| - 1;
      var g := gens[n];
      SpotsAreRowMajor(rows, gens[..n], seedId);
      var before := Positioned(rows, gens[..n], seedId);
      var row := Ordered(rows[g], g);
      assert gens == gens[..n] + [g];
      assert forall h | h in gens[..n] :: h < g;
      PlacedIsRowMajor(row, g, seedId);
      RowMajorJoin(before, Placed(row, g, seedId, |row|), g);
    }
  }

  predicate Overlap(a: Spot, b: Spot) {
    && a.x < b.x + NODE_W && b.x < a.x + NODE_W
    && a.y < b.y + NODE_H && b.y < a.y + NODE_H
  }

  // ---- Edges ----

  function Bucket(spots: seq<Spot>, g: int): (r: seq<nat>)
    ensures forall i | 0 <= i < |r| :: r[i] < |spots| && spots[r[i]].generation == g
    ensures forall i, j | 0 <= i < j < |r| :: r[i] < r[j]
    ensures forall k: nat | k < |spots| && spots[k].generation == g :: k in r
  {
    if spots == [] then []
    else
      var n := |spots| - 1;
      Bucket(spots[..n], g) + (if spots[n].generation == g then [n] else [])
  }

  // Later entries of one id replace earlier ones.
  function ById(spots: seq<Spot>, id: int): (r: Option<nat>)
    ensures r.Some? ==> r.value < |spots| && spots[r.value].id == id
    ensures r.Some? ==> forall k | r.value < k < |spots| :: spots[k].id != id
    ensures r.None? ==> forall k | 0 <= k < |spots| :: spots[k].id != id
  {
    if spots == [] then None
    else
      var n := |spots| - 1;
      if spots[n].id == id then Some(n) else ById(spots[..n], id)
  }

  function Abs(n: int): nat {
    if n < 0 then -n else n
  }

  function Distance(spots: seq<Spot>, u: nat, x: int): nat
    requires u < |spots|
  {
    Abs(spots[u].x - x)
  }

  ghost predicate Indices(spots: seq<Spot>, s: seq<nat>) {
    forall i | 0 <= i < |s| :: s[i] < |spots|
  }

  // Member b is a nearest one, and the first of those as near.
  ghost predicate FirstNearest(spots: seq<Spot>, upper: seq<nat>, x: int, b: nat)
    requires Indices(spots, upper)
  {
    && b < |upper|
    && (forall i | 0 <= i < |upper| :: Distance(spots, upper[b], x) <= Distance(spots, upper[i], x))
    && (forall i | 0 <= i < b :: Distance(spots, upper[b], x) < Distance(spots, upper[i], x))
  }

  function Nearest(spots: seq<Spot>, upper: seq<nat>, x: int): (best: nat)
    requires upper != [] && forall i | 0 <= i < |upper| :: upper[i] < |spots|
    ensures best in upper && best < |spots|
  {
    var n := |upper| - 1;
    if n == 0 then upper[0]
    else
      var best := Nearest(spots, upper[..n], x);
      if Distance(spots, upper[n], x) < Distance(spots, best, x) then upper[n] else best
  }

  lemma {:induction false} NearestIsFirstNearest(spots: seq<Spot>, upper: seq<nat>, x: int) returns (b: nat)
    requires upper != [] && Indices(spots, upper)
    ensures FirstNearest(spots, upper, x, b) && Nearest(spots, upper, x) == upper[b]
  {
    hide Distance;
    var n := |upper| - 1;
    if n == 0 {
      b := 0;
    } else {
      var shorter := upper[..n];
      b := NearestIsFirstNearest(spots, shorter, x);
      assert forall i | 0 <= i < n :: shorter[i] == upper[i];
      if Distance(spots, upper[n], x) < Distance(spots, upper[b], x) {
        b := n;
      }
    }
  }

  method NearestByX(spots: seq<Spot>, upper: seq<nat>, child: nat) returns (best: Option<nat>)
    requires child < |spots| && forall i | 0 <= i < |upper| :: upper[i] < |spots|
    ensures best == if upper == [] then None else Some(Nearest(spots, upper, spots[child].x))
  {
    if upper == [] {
      return None;
    }
    var at: nat := upper[0];
    var bestDist := Distance(spots, at, spots[child].x);
    for i := 0 to |upper|
      invariant at < |spots|
      invariant bestDist == Distance(spots, at, spots[child].x)
      invariant at == if i == 0 then upper[0] else Nearest(spots, upper[..i], spots[child].x)
    {
      assert i > 0 ==> upper[..i + 1][..i] == upper[..i];
      var d := Distance(spots, upper[i], spots[child].x);
      if d < bestDist {
        at, bestDist := upper[i], d;
      }
    }
    assert upper[..|upper|] == upper;
    return Some(at);
  }

  // An edge runs downwards; k is its end further from the seed.
  function Joined(side: Side, k: nat, inner: nat): Edge {
    if side == Above then Edge(k, inner) else Edge(inner, k)
  }

  function FirstEdges(spots: seq<Spot>, side: Side, persons: seq<Person>, seedAt: nat): seq<Edge> {
    if persons == [] then []
    else
      var p := persons[|persons| - 1];
      var at := ById(spots, p.id);
      FirstEdges(spots, side, persons[..|persons| - 1], seedAt)
      + (if p.depth == 1 && at.Some? then [Joined(side, at.value, seedAt)] else [])
  }

  function RowEdges(spots: seq<Spot>, side: Side, upper: seq<nat>, lower: seq<nat>): seq<Edge>
    requires upper != [] && forall i | 0 <= i < |upper| :: upper[i] < |spots|
    requires forall i | 0 <= i < |lower| :: lower[i] < |spots|
  {
    if lower == [] then []
    else
      var child := lower[|lower| - 1];
      RowEdges(spots, side, upper, lower[..|lower| - 1])
      + [Joined(side, child, Nearest(spots, upper, spots[child].x))]
  }

  function Closer(side: Side, g: int): int {
    if side == Above then g + 1 else g - 1
  }

  function DeepEdges(spots: seq<Spot>, side: Side, gens: seq<int>): seq<Edge> {
    if gens == [] then []
    else
      var g := gens[|gens| - 1];
      var upper := Bucket(spots, Closer(side, g));
      DeepEdges(spots, side, gens[..|gens| - 1])
      + (if g == -1 || upper == [] then [] else RowEdges(spots, side, upper, Bucket(spots, g)))
  }

  function SpotGenerations(spots: seq<Spot>): set<int> {
    set k | 0 <= k < |spots| :: spots[k].generation
  }

  function AncestorGens(spots: seq<Spot>): seq<int> {
    Reversed(Sorted(set g | g in SpotGenerations(spots) && g < 0))
  }

  function DescendantGens(spots: seq<Spot>): seq<int> {
    Sorted(set g | g in SpotGenerations(spots) && g > 1)
  }

  function Edges(tree: Tree, spots: seq<Spot>): seq<Edge> {
    var seedAt := ById(spots, tree.seed.id);
    (if seedAt.None? then []
     else FirstEdges(spots, Above, tree.ancestors, seedAt.value)
          + FirstEdges(spots, Below, tree.descendants, seedAt.value))
    + DeepEdges(spots, Above, AncestorGens(spots)) + DeepEdges(spots, Below, DescendantGens(spots))
  }

  // The seed and its first spouse, left to right, when both are placed.
  function MarriageLines(tree: Tree, spots: seq<Spot>): seq<Edge> {
    var seedAt := ById(spots, tree.seed.id);
    if seedAt.None? || tree.spouses == [] then []
    else
      var spouse := ById(spots, tree.spouses[0].id);
      if spouse.None? then []
      else if spots[spouse.value].x > spots[seedAt.value].x then [Edge(seedAt.value, spouse.value)]
      else [Edge(spouse.value, seedAt.value)]
  }

  method ConnectFirst(spots: seq<Spot>, side: Side, persons: seq<Person>, seedAt: nat) returns (edges: seq<Edge>)
    ensures edges == FirstEdges(spots, side, persons, seedAt)
  {
    edges := [];
    for i := 0 to |persons|
      invariant edges == FirstEdges(spots, side, persons[..i], seedAt)
    {
      assert persons[..i + 1][..i] == persons[..i];
      if persons[i].depth == 1 {
        var at := ById(spots, persons[i].id);
        if at.Some? {
          edges := edges + [Joined(side, at.value, seedAt)];
        }
      }
    }
    assert persons[..|persons|] == persons;
  }

  method ConnectRows(spots: seq<Spot>, side: Side, gens: seq<int>) returns (edges: seq<Edge>)
    ensures edges == DeepEdges(spots, side, gens)
  {
    hide Nearest, Bucket, RowEdges;
    edges := [];
    for i := 0 to |gens|
      invariant edges == DeepEdges(spots, side, gens[..i])
    {
      assert gens[..i + 1][..i] == gens[..i];
      if gens[i] == -1 {
        continue;
      }
      var upper, lower := Bucket(spots, Closer(side, gens[i])), Bucket(spots, gens[i]);
      if upper == [] {
        continue;
      }
      var row := ConnectRow(spots, side, upper, lower);
      edges := edges + row;
    }
    assert gens[..|gens|] == gens;
  }

  method ConnectRow(spots: seq<Spot>, side: Side, upper: seq<nat>, lower: seq<nat>) returns (edges: seq<Edge>)
    requires upper != [] && forall i | 0 <= i < |upper| :: upper[i] < |spots|
    requires forall i | 0 <= i < |lower| :: lower[i] < |spots|
    ensures edges == RowEdges(spots, side, upper, lower)
  {
    edges := [];
    for i := 0 to |lower|
      invariant edges == RowEdges(spots, side, upper, lower[..i])
    {
      assert lower[..i + 1][..i] == lower[..i];
      var nearest := NearestByX(spots, upper, lower[i]);
      edges := edges + [Joined(side, lower[i], nearest.value)];
    }
    assert lower[..|lower|] == lower;
  }

  // ---- Viewport and shift ----

  function LeastX(spots: seq<Spot>): (r: int)
    requires spots != []
    ensures forall k | 0 <= k < |spots| :: r <= spots[k].x
    ensures exists k :: 0 <= k < |spots| && spots[k].x == r
  {
    var n := |spots| - 1;
    if n == 0 || spots[n].x <= LeastX(spots[..n]) then spots[n].x else LeastX(spots[..n])
  }

  function GreatestX(spots: seq<Spot>): (r: int)
    requires spots != []
    ensures forall k | 0 <= k < |spots| :: spots[k].x <= r
    ensures exists k :: 0 <= k < |spots| && spots[k].x == r
  {
    var n := |spots| - 1;
    if n == 0 || spots[n].x >= GreatestX(spots[..n]) then spots[n].x else GreatestX(spots[..n])
  }

  function LeastY(spots: seq<Spot>): (r: int)
    requires spots != []
    ensures forall k | 0 <= k < |spots| :: r <= spots[k].y
    ensures exists k :: 0 <= k < |spots| && spots[k].y == r
  {
    var n := |spots| - 1;
    if n == 0 || spots[n].y <= LeastY(spots[..n]) then spots[n].y else LeastY(spots[..n])
  }

  function GreatestY(spots: seq<Spot>): (r: int)
    requires spots != []
    ensures forall k | 0 <= k < |spots| :: spots[k].y <= r
    ensures exists k :: 0 <= k < |spots| && spots[k].y == r
  {
    var n := |spots| - 1;
    if n == 0 || spots[n].y >= GreatestY(spots[..n]) then spots[n].y else GreatestY(spots[..n])
  }

  function Moved(s: Spot, dx: int, dy: int): Spot {
    s.(x := s.x + dx, y := s.y + dy)
  }

  method Shift(spots: seq<Spot>, dx: int, dy: int) returns (r: seq<Spot>)
    ensures |r| == |spots| && forall k | 0 <= k < |r| :: r[k] == Moved(spots[k], dx, dy)
  {
    r := spots;
    for i := 0 to |r|
      invariant |r| == |spots|
      invariant forall k | 0 <= k < i :: r[k] == Moved(spots[k], dx, dy)
      invariant forall k | i <= k < |r| :: r[k] == spots[k]
    {
      r := r[i := Moved(r[i], dx, dy)];
    }
  }

  function Max(a: int, b: int): int {
    if a < b then b else a
  }

  predicate Inside(s: Spot, viewW: int, viewH: int) {
    PAD_X <= s.x && s.x + NODE_W <= viewW - PAD_X && PAD_Y <= s.y && s.y + NODE_H <= viewH - PAD_Y
  }

  // Everything moved as one, so distances and order stay what they were.
  ghost predicate IsShift(spots: seq<Spot>, shifted: seq<Spot>) {
    && |shifted| == |spots|
    && (spots != [] ==> forall k | 0 <= k < |spots| ::
          shifted[k] == Moved(spots[k], shifted[0].x - spots[0].x, shifted[0].y - spots[0].y))
  }

  // No wider than that takes, nor narrower than 800: unless the view is that narrow, a spot
  // touches the padding on either side. In height likewise, from 200 up.
  ghost predicate SnugWidth(spots: seq<Spot>, viewW: int) {
    && (exists k :: 0 <= k < |spots| && spots[k].x == 60)
    && viewW >= 800 && (viewW > 800 ==> exists k :: 0 <= k < |spots| && spots[k].x + 220 + 60 == viewW)
  }

  ghost predicate SnugHeight(spots: seq<Spot>, viewH: int) {
    && (exists k :: 0 <= k < |spots| && spots[k].y == 60)
    && viewH >= 200 && (viewH > 200 ==> exists k :: 0 <= k < |spots| && spots[k].y + 56 + 60 == viewH)
  }

  ghost predicate Drawn(t: Tree, r: Layout) {
    && r.edges == Edges(t, Spots(t)) && r.marriageLines == MarriageLines(t, Spots(t))
    && IsShift(Spots(t), r.positioned) && SnugWidth(r.positioned, r.viewW) && SnugHeight(r.positioned, r.viewH)
    && (forall k | 0 <= k < |r.positioned| :: Inside(r.positioned[k], r.viewW, r.viewH))
    && (forall j, k | 0 <= j < k < |r.positioned| :: !Overlap(r.positioned[j], r.positioned[k]))
  }

  // What the page is given: the spots in the viewport, and edges that index them.
  method LayoutTree(tree: Option<Tree>) returns (r: Layout)
    ensures tree.None? ==> r == Layout([], [], [], 600, 200)
    ensures tree.Some? ==> Drawn(tree.value, r)
  {
    hide *;
    if tree.None? {
      r := Layout([], [], [], 600, 200);
    } else {
      r := Draw(tree.value);
    }
  }

  method Draw(t: Tree) returns (r: Layout)
    ensures Drawn(t, r)
  {
    hide Spots, Edges, MarriageLines, RowMajor, Drawn, LeastX, LeastY, ViewW, ViewH, Moved, Max;
    var spots := Place(t);
    var edges := Connect(t, spots);
    SpotsOfTree(t);
    var shifted := Shift(spots, PAD_X - LeastX(spots), PAD_Y - LeastY(spots));
    r := Layout(shifted, edges, MarriageLines(t, spots), ViewW(spots), ViewH(spots));
    IsDrawn(t, r);
  }

  method Place(t: Tree) returns (spots: seq<Spot>)
    ensures spots == Spots(t)
  {
    hide RowsOf, PushGen, Sorted, GenerationsOf, Ordered, Placed;
    var byGen: map<int, seq<Person>>;
    ghost var none: seq<Entry> := [];
    NoRows();
    PushGenGroups([], SeedEntry(t));
    byGen := PushGen(map[], 0, SeedEntry(t).person);
    ghost var first := [SeedEntry(t)];
    assert [] + first == first;
    byGen := Group(byGen, Above, t.ancestors, first);
    byGen := Group(byGen, Below, t.descendants, first + Entered(Above, t.ancestors));
    byGen := Group(byGen, Beside, t.spouses, first + Entered(Above, t.ancestors) + Entered(Below, t.descendants));
    byGen := Group(byGen, Beside, t.siblings, first + Entered(Above, t.ancestors) + Entered(Below, t.descendants)
      + Entered(Beside, t.spouses));
    RowsKeys(Entries(t));
    var gens := Sorted(byGen.Keys);
    spots := [];
    for i := 0 to |gens|
      invariant spots == Positioned(byGen, gens[..i], t.seed.id)
    {
      assert gens[..i + 1][..i] == gens[..i];
      assert gens[i] in gens;
      spots := PlaceRow(Ordered(byGen[gens[i]], gens[i]), gens[i], spots, t.seed.id);
    }
    assert gens[..|gens|] == gens;
  }

  lemma NoRows()
    ensures RowsOf([]) == map[]
  {
  }

  method Connect(t: Tree, spots: seq<Spot>) returns (edges: seq<Edge>)
    ensures edges == Edges(t, spots)
  {
    hide FirstEdges, DeepEdges, AncestorGens, DescendantGens;
    edges := [];
    var seedAt := ById(spots, t.seed.id);
    if seedAt.Some? {
      var up := ConnectFirst(spots, Above, t.ancestors, seedAt.value);
      var down := ConnectFirst(spots, Below, t.descendants, seedAt.value);
      edges := up + down;
    }
    var above := ConnectRows(spots, Above, AncestorGens(spots));
    var below := ConnectRows(spots, Below, DescendantGens(spots));
    edges := edges + above + below;
  }

  function ViewW(spots: seq<Spot>): int
    requires spots != []
  {
    Max(800, GreatestX(spots) + NODE_W - LeastX(spots) + PAD_X * 2)
  }

  function ViewH(spots: seq<Spot>): int
    requires spots != []
  {
    Max(200, GreatestY(spots) + NODE_H - LeastY(spots) + PAD_Y * 2)
  }

  lemma SpotsOfTree(t: Tree)
    ensures RowMajor(Spots(t)) && Spots(t) != []
  {
    hide RowsOf, Ordered, Placed, RowMajor;
    var rows, gens := RowsOf(Entries(t)), Sorted(GenerationsOf(Entries(t)));
    RowsKeys(Entries(t));
    SpotsAreRowMajor(rows, gens, t.seed.id);
    SeedIsPlaced(t);
  }

  lemma IsDrawn(t: Tree, r: Layout)
    requires Spots(t) != [] && RowMajor(Spots(t))
    requires r.edges == Edges(t, Spots(t)) && r.marriageLines == MarriageLines(t, Spots(t))
    requires |r.positioned| == |Spots(t)| && forall k | 0 <= k < |r.positioned| ::
      r.positioned[k] == Moved(Spots(t)[k], PAD_X - LeastX(Spots(t)), PAD_Y - LeastY(Spots(t)))
    requires r.viewW == ViewW(Spots(t)) && r.viewH == ViewH(Spots(t))
    ensures Drawn(t, r)
  {
    hide Spots, Edges, MarriageLines, Overlap, Inside, RowMajor, IsShift, ViewW, ViewH, SnugWidth, SnugHeight;
    ShiftFits(Spots(t), r.positioned);
    SnugAcross(Spots(t), r.positioned);
    SnugDown(Spots(t), r.positioned);
  }

  lemma SnugAcross(spots: seq<Spot>, shifted: seq<Spot>)
    requires spots != [] && |shifted| == |spots|
    requires forall k | 0 <= k < |shifted| :: shifted[k] == Moved(spots[k], PAD_X - LeastX(spots), PAD_Y - LeastY(spots))
    ensures SnugWidth(shifted, ViewW(spots))
  {
    hide LeastX, LeastY, GreatestX;
    var a :| 0 <= a < |spots| && spots[a].x == LeastX(spots);
    var c :| 0 <= c < |spots| && spots[c].x == GreatestX(spots);
    assert shifted[a].x == 60 && shifted[c].x == GreatestX(spots) - LeastX(spots) + 60;
  }

  lemma SnugDown(spots: seq<Spot>, shifted: seq<Spot>)
    requires spots != [] && |shifted| == |spots|
    requires forall k | 0 <= k < |shifted| :: shifted[k] == Moved(spots[k], PAD_X - LeastX(spots), PAD_Y - LeastY(spots))
    ensures SnugHeight(shifted, ViewH(spots))
  {
    hide LeastX, LeastY, GreatestY;
    var b :| 0 <= b < |spots| && spots[b].y == LeastY(spots);
    var d :| 0 <= d < |spots| && spots[d].y == GreatestY(spots);
    assert shifted[b].y == 60 && shifted[d].y == GreatestY(spots) - LeastY(spots) + 60;
  }

  lemma ShiftFits(spots: seq<Spot>, shifted: seq<Spot>)
    requires spots != [] && RowMajor(spots) && |shifted| == |spots|
    requires forall k | 0 <= k < |shifted| :: shifted[k] == Moved(spots[k], PAD_X - LeastX(spots), PAD_Y - LeastY(spots))
    ensures IsShift(spots, shifted)
    ensures forall k | 0 <= k < |shifted| :: Inside(shifted[k], ViewW(spots), ViewH(spots))
    ensures forall j, k | 0 <= j < k < |shifted| :: !Overlap(shifted[j], shifted[k])
  {
    hide LeastX, LeastY, GreatestX, GreatestY;
    forall j, k | 0 <= j < k < |shifted|
      ensures !Overlap(shifted[j], shifted[k])
    {
      assert spots[j].generation <= spots[k].generation;
    }
  }

  // ---- Who is placed where ----

  lemma {:induction false} RowMembers(entries: seq<Entry>, g: int, p: Person)
    ensures p in RowOf(entries, g) <==> Entry(g, p) in entries
  {
    if entries != [] {
      var n := |entries| - 1;
      RowMembers(entries[..n], g, p);
      assert entries == entries[..n] + [entries[n]];
    }
  }

  lemma {:induction false} KindMembers(row: seq<Person>, kind: Kind, p: Person)
    ensures p in OfKind(row, kind) <==> p in row && KindOf(p.relation) == kind
  {
    if row != [] {
      var n := |row| - 1;
      KindMembers(row[..n], kind, p);
      assert row == row[..n] + [row[n]];
    }
  }

  lemma ReversedMembers<T>(s: seq<T>, t: T)
    ensures t in Reversed(s) <==> t in s
  {
    var r := Reversed(s);
    if i :| 0 <= i < |s| && s[i] == t {
      assert r[|s| - 1 - i] == t;
    }
    if i :| 0 <= i < |r| && r[i] == t {
      assert s[|s| - 1 - i] == t;
    }
  }

  // Row 0 shows only the kinds it knows; every other row shows everybody.
  lemma OrderedMembers(row: seq<Person>, g: int, p: Person)
    ensures p in Ordered(row, g) <==> p in row && (g == 0 ==> KindOf(p.relation) != KOther)
  {
    hide OfKind, KindOf, Reversed;
    KindMembers(row, KSibling, p);
    KindMembers(row, KSelf, p);
    KindMembers(row, KPartner, p);
    ReversedMembers(OfKind(row, KSibling), p);
  }

  ghost predicate Shows(s: Spot, g: int, p: Person) {
    s.id == p.id && s.relation == p.relation && s.generation == g
  }

  lemma {:induction false} PlacedOf(rows: map<int, seq<Person>>, gens: seq<int>, seedId: int, g: int, p: Person)
    requires forall i | 0 <= i < |gens| :: gens[i] in rows
    requires g in gens && p in Ordered(rows[g], g)
    ensures exists k :: 0 <= k < |Positioned(rows, gens, seedId)| && Shows(Positioned(rows, gens, seedId)[k], g, p)
  {
    hide Ordered;
    var n := |gens| - 1;
    var spots, before := Positioned(rows, gens, seedId), Positioned(rows, gens[..n], seedId);
    if g == gens[n] {
      var i :| 0 <= i < |Ordered(rows[g], g)| && Ordered(rows[g], g)[i] == p;
      assert Shows(spots[|before| + i], g, p);
    } else {
      PlacedOf(rows, gens[..n], seedId, g, p);
      var k :| 0 <= k < |before| && Shows(before[k], g, p);
      assert spots[k] == before[k];
    }
  }

  lemma {:induction false} PlacedFrom(rows: map<int, seq<Person>>, gens: seq<int>, seedId: int, k: nat)
    requires forall i | 0 <= i < |gens| :: gens[i] in rows
    requires k < |Positioned(rows, gens, seedId)|
    ensures var s := Positioned(rows, gens, seedId)[k];
      s.generation in gens && exists p :: p in Ordered(rows[s.generation], s.generation) && Shows(s, s.generation, p)
  {
    hide Ordered;
    var n := |gens| - 1;
    var spots, before := Positioned(rows, gens, seedId), Positioned(rows, gens[..n], seedId);
    if k < |before| {
      PlacedFrom(rows, gens[..n], seedId, k);
      assert spots[k] == before[k];
    } else {
      var row := Ordered(rows[gens[n]], gens[n]);
      assert row[k - |before|] in row && Shows(spots[k], gens[n], row[k - |before|]);
    }
  }

  // Placed are exactly the entries, but for unknown relations in row 0.
  ghost predicate Placeable(e: Entry) {
    e.generation == 0 ==> KindOf(e.person.relation) != KOther
  }

  lemma EntryIsPlaced(t: Tree, e: Entry)
    requires e in Entries(t) && Placeable(e)
    ensures exists k :: 0 <= k < |Spots(t)| && Shows(Spots(t)[k], e.generation, e.person)
  {
    hide Entries, Ordered, Positioned, KindOf, Sorted;
    var entries := Entries(t);
    RowsKeys(entries);
    InGenerations(entries, e);
    RowMembers(entries, e.generation, e.person);
    OrderedMembers(RowOf(entries, e.generation), e.generation, e.person);
    var rows, gens := RowsOf(entries), Sorted(GenerationsOf(entries));
    PlacedOf(rows, gens, t.seed.id, e.generation, e.person);
    assert Spots(t) == Positioned(rows, gens, t.seed.id);
  }

  lemma InGenerations(entries: seq<Entry>, e: Entry)
    requires e in entries
    ensures e.generation in GenerationsOf(entries)
  {
    var i :| 0 <= i < |entries| && entries[i] == e;
    assert entries[i].generation in GenerationsOf(entries);
  }

  lemma SpotIsEntry(t: Tree, k: nat)
    requires k < |Spots(t)|
    ensures exists e :: e in Entries(t) && Placeable(e) && Shows(Spots(t)[k], e.generation, e.person)
  {
    hide Entries, Ordered, Positioned, KindOf, Sorted;
    var entries := Entries(t);
    RowsKeys(entries);
    var rows, gens := RowsOf(entries), Sorted(GenerationsOf(entries));
    PlacedFrom(rows, gens, t.seed.id, k);
    var g := Spots(t)[k].generation;
    var p :| p in Ordered(rows[g], g) && Shows(Spots(t)[k], g, p);
    OrderedMembers(rows[g], g, p);
    RowMembers(entries, g, p);
    assert Placeable(Entry(g, p));
  }

  lemma SeedIsPlaced(t: Tree)
    ensures exists k :: 0 <= k < |Spots(t)| && Shows(Spots(t)[k], 0, SeedEntry(t).person)
  {
    hide Spots;
    assert Entries(t)[0] == SeedEntry(t);
    EntryIsPlaced(t, SeedEntry(t));
  }

  // ---- What the page is sent ----

  ghost predicate DistinctPersons(row: seq<Person>) {
    forall i, j | 0 <= i < j < |row| :: row[i].id != row[j].id
  }

  ghost predicate Contiguous(persons: seq<Person>) {
    forall i | 0 <= i < |persons| ::
      persons[i].depth >= 1
      && (persons[i].depth > 1 ==> exists j :: 0 <= j < |persons| && persons[j].depth == persons[i].depth - 1)
  }

  // What the family-tree route sees to: it walks up and down one generation at a time and
  // visits nobody twice, and nobody else is the seed or called self. It does not compare
  // its lists, so that a spouse may come again as a sibling, a parent or a child.
  ghost predicate Sent(t: Tree) {
    && DistinctPersons(t.ancestors) && DistinctPersons(t.descendants)
    && Contiguous(t.ancestors) && Contiguous(t.descendants)
    && SeedApart(t)
  }

  ghost predicate SeedApart(t: Tree) {
    forall i | 0 < i < |Entries(t)| ::
      Entries(t)[i].person.id != t.seed.id
      && (Entries(t)[i].generation == 0 ==> Entries(t)[i].person.relation != "self")
  }

  lemma EntryParts(t: Tree, e: Entry)
    ensures e in Entries(t) <==>
      || e == SeedEntry(t) || e in Entered(Above, t.ancestors) || e in Entered(Below, t.descendants)
      || e in Entered(Beside, t.spouses) || e in Entered(Beside, t.siblings)
  {
    hide SeedEntry, Entered;
  }

  // ---- Who is drawn how often ----

  // Nobody is twice in one place: this id not twice in this generation.
  ghost predicate Once(entries: seq<Entry>, g: int, id: int) {
    forall i, j | 0 <= i < j < |entries| ::
      !(entries[i].generation == g && entries[i].person.id == id
        && entries[j].generation == g && entries[j].person.id == id)
  }

  ghost predicate OnceIn(row: seq<Person>, id: int) {
    forall i, j | 0 <= i < j < |row| :: !(row[i].id == id && row[j].id == id)
  }

  ghost predicate OnceAt(spots: seq<Spot>, g: int, id: int) {
    forall j, k | 0 <= j < k < |spots| ::
      !(spots[j].generation == g && spots[j].id == id && spots[k].generation == g && spots[k].id == id)
  }

  lemma {:induction false} RowOnce(entries: seq<Entry>, g: int, id: int)
    requires Once(entries, g, id)
    ensures OnceIn(RowOf(entries, g), id)
  {
    if entries != [] {
      var n := |entries| - 1;
      RowOnce(entries[..n], g, id);
      var before, last := RowOf(entries[..n], g), entries[n];
      forall i | 0 <= i < |before| && before[i].id == id && last.generation == g
        ensures last.person.id != id
      {
        RowMembers(entries[..n], g, before[i]);
        var k :| 0 <= k < n && entries[..n][k] == Entry(g, before[i]);
        assert entries[k] == Entry(g, before[i]);
      }
    }
  }

  lemma {:induction false} KindOnce(row: seq<Person>, kind: Kind, id: int)
    requires OnceIn(row, id)
    ensures OnceIn(OfKind(row, kind), id)
  {
    hide KindOf;
    if row != [] {
      var n := |row| - 1;
      KindOnce(row[..n], kind, id);
      var before := OfKind(row[..n], kind);
      forall i | 0 <= i < |before| && before[i].id == id
        ensures row[n].id != id
      {
        KindMembers(row[..n], kind, before[i]);
        var k :| 0 <= k < n && row[..n][k] == before[i];
        assert row[k].id == id;
      }
    }
  }

  lemma OnceIsSame(row: seq<Person>, p: Person, q: Person)
    requires OnceIn(row, p.id) && p in row && q in row && p.id == q.id
    ensures p == q
  {
    var i :| 0 <= i < |row| && row[i] == p;
    var j :| 0 <= j < |row| && row[j] == q;
    assert i == j;
  }

  lemma KindsApart(row: seq<Person>, k: Kind, l: Kind, p: Person, q: Person)
    requires k != l && p in OfKind(row, k) && q in OfKind(row, l) && OnceIn(row, p.id)
    ensures p.id != q.id
  {
    hide KindOf, OfKind, OnceIn;
    KindMembers(row, k, p);
    KindMembers(row, l, q);
    if p.id == q.id {
      OnceIsSame(row, p, q);
    }
  }

  lemma OnceJoin(a: seq<Person>, b: seq<Person>, id: int)
    requires OnceIn(a, id) && OnceIn(b, id) && forall p, q | p in a && q in b :: !(p.id == id && q.id == id)
    ensures OnceIn(a + b, id)
  {
  }

  lemma OrderedOnce(row: seq<Person>, g: int, id: int)
    requires OnceIn(row, id)
    ensures OnceIn(Ordered(row, g), id)
  {
    hide OfKind, KindOf, Reversed, OnceIn;
    if g == 0 {
      var a, b, c := OfKind(row, KSibling), OfKind(row, KSelf), OfKind(row, KPartner);
      var r := Reversed(a);
      KindOnce(row, KSibling, id);
      KindOnce(row, KSelf, id);
      KindOnce(row, KPartner, id);
      ReversedOnce(a, id);
      forall p, q | p in r && q in b
        ensures !(p.id == id && q.id == id)
      {
        ReversedMembers(a, p);
        if p.id == id { KindsApart(row, KSibling, KSelf, p, q); }
      }
      OnceJoin(r, b, id);
      forall p, q | p in r + b && q in c
        ensures !(p.id == id && q.id == id)
      {
        ReversedMembers(a, p);
        if p.id == id { KindsApart(row, if p in a then KSibling else KSelf, KPartner, p, q); }
      }
      OnceJoin(r + b, c, id);
    }
  }

  lemma ReversedOnce(row: seq<Person>, id: int)
    requires OnceIn(row, id)
    ensures OnceIn(Reversed(row), id)
  {
    var r := Reversed(row);
    assert forall i | 0 <= i < |r| :: r[i] == row[|row| - 1 - i];
  }

  lemma {:induction false} PlacedOnce(entries: seq<Entry>, gens: seq<int>, seedId: int, g: int, id: int)
    requires Once(entries, g, id)
    requires forall i | 0 <= i < |gens| :: gens[i] in RowsOf(entries)
    requires forall i, j | 0 <= i < j < |gens| :: gens[i] < gens[j]
    ensures OnceAt(Positioned(RowsOf(entries), gens, seedId), g, id)
  {
    hide Ordered;
    if gens != [] {
      var n := |gens| - 1;
      PlacedOnce(entries, gens[..n], seedId, g, id);
      var before := Positioned(RowsOf(entries), gens[..n], seedId);
      var row := Ordered(RowOf(entries, gens[n]), gens[n]);
      if gens[n] == g {
        RowOnce(entries, g, id);
        OrderedOnce(RowOf(entries, g), g, id);
      }
      forall j | 0 <= j < |before|
        ensures before[j].generation != gens[n]
      {
        PlacedFrom(RowsOf(entries), gens[..n], seedId, j);
      }
      PlacedNext(before, row, gens[n], seedId, g, id);
    }
  }

  lemma PlacedNext(before: seq<Spot>, row: seq<Person>, last: int, seedId: int, g: int, id: int)
    requires OnceAt(before, g, id) && (last == g ==> OnceIn(row, id))
    requires forall j | 0 <= j < |before| :: before[j].generation != last
    ensures OnceAt(before + Placed(row, last, seedId, |row|), g, id)
  {
    hide Placed;
    var after := Placed(row, last, seedId, |row|);
    assert forall i | 0 <= i < |row| :: after[i].id == row[i].id && after[i].generation == last;
  }

  lemma SpotOnce(t: Tree, g: int, id: int)
    requires Once(Entries(t), g, id)
    ensures OnceAt(Spots(t), g, id)
  {
    hide Positioned, Sorted, Entries, Once, OnceAt;
    RowsKeys(Entries(t));
    PlacedOnce(Entries(t), Sorted(GenerationsOf(Entries(t))), t.seed.id, g, id);
  }

  // ---- Who is left out ----

  // A person of the tree is drawn exactly when outside row 0 or of a named kind.
  lemma DrawnIffNamed(t: Tree, e: Entry)
    requires e in Entries(t)
    ensures (exists k :: 0 <= k < |Spots(t)| && Shows(Spots(t)[k], e.generation, e.person)) <==> Placeable(e)
  {
    hide Spots, Entries, KindOf;
    if Placeable(e) {
      EntryIsPlaced(t, e);
    }
    if k :| 0 <= k < |Spots(t)| && Shows(Spots(t)[k], e.generation, e.person) {
      SpotIsEntry(t, k);
    }
  }

  const WITH_CONCUBINIST: Tree := Tree(Person(1, "self", 0), [], [], [Person(2, "concubinist", 1)], [])

  // The route sends the relation concubinist, for which the page has no kind.
  lemma ConcubinistIsNotDrawn()
    ensures Sent(WITH_CONCUBINIST)
    ensures forall k | 0 <= k < |Spots(WITH_CONCUBINIST)| :: Spots(WITH_CONCUBINIST)[k].id != 2
  {
    hide Spots;
    var t := WITH_CONCUBINIST;
    assert t.spouses[..0] == [];
    assert Entries(t) == [SeedEntry(t), Entry(0, t.spouses[0])];
    forall k | 0 <= k < |Spots(t)|
      ensures Spots(t)[k].id != 2
    {
      SpotIsEntry(t, k);
    }
  }

  ghost predicate NoRepeats<T>(s: seq<T>) {
    forall i, j | 0 <= i < j < |s| :: s[i] != s[j]
  }
}
