/** The edges the lineage page draws form a tree over its rows, rooted at the seed. */
module LineageTree {
  import opened Options
  import opened Lineage

  function SideOf(g: int): Side {
    if g < 0 then Above else Below
  }

  // The edge that ties node k to the row one closer to the seed: to the seed itself from
  // the rows beside it, else to the first of the nearest by x.
  ghost predicate Ties(spots: seq<Spot>, seedAt: nat, k: nat, e: Edge) {
    && k < |spots| && spots[k].generation != 0
    && var g := spots[k].generation;
      var upper := Bucket(spots, Closer(SideOf(g), g));
      if g == 1 || g == -1 then e == Joined(SideOf(g), k, seedAt)
      else upper != [] && e == Joined(SideOf(g), k, Nearest(spots, upper, spots[k].x))
  }

  // Edge i is the tie of the i-th of these nodes.
  ghost predicate TiesOf(spots: seq<Spot>, seedAt: nat, ks: seq<nat>, edges: seq<Edge>) {
    |ks| == |edges| && forall i | 0 <= i < |ks| :: Ties(spots, seedAt, ks[i], edges[i])
  }

  lemma TiesJoin(spots: seq<Spot>, seedAt: nat, ks: seq<nat>, edges: seq<Edge>, ls: seq<nat>, more: seq<Edge>)
    requires TiesOf(spots, seedAt, ks, edges) && TiesOf(spots, seedAt, ls, more)
    ensures TiesOf(spots, seedAt, ks + ls, edges + more)
  {
    hide Ties;
  }

  lemma RepeatsJoin(ks: seq<nat>, ls: seq<nat>)
    requires NoRepeats(ks) && NoRepeats(ls) && forall i | 0 <= i < |ls| :: ls[i] !in ks
    ensures NoRepeats(ks + ls)
  {
  }

  // ---- The rows beside the seed ----

  ghost predicate Named(persons: seq<Person>, id: int) {
    exists j :: 0 <= j < |persons| && persons[j].depth == 1 && persons[j].id == id
  }

  ghost predicate SpotFor(spots: seq<Spot>, id: int, g: int) {
    exists k :: 0 <= k < |spots| && spots[k].id == id && spots[k].generation == g
  }

  // Looking a person's id up finds its own place and not a later one of the same id.
  ghost predicate Found(spots: seq<Spot>, side: Side, persons: seq<Person>) {
    forall i | 0 <= i < |persons| && persons[i].depth == 1 ::
      var at := ById(spots, persons[i].id);
      at.Some? && spots[at.value].generation == GenerationOf(side, persons[i])
  }

  // Outside row 0 nobody is twice in one row.
  ghost predicate OnceInRows(spots: seq<Spot>) {
    forall j, k | 0 <= j < k < |spots| && spots[j].generation == spots[k].generation != 0 :: spots[j].id != spots[k].id
  }

  function Adjacent(side: Side): int {
    if side == Above then -1 else 1
  }

  lemma {:induction false} FirstTies(spots: seq<Spot>, side: Side, persons: seq<Person>, seedAt: nat)
      returns (ks: seq<nat>)
    requires side != Beside && OnceInRows(spots) && DistinctPersons(persons) && Found(spots, side, persons)
    ensures TiesOf(spots, seedAt, ks, FirstEdges(spots, side, persons, seedAt)) && NoRepeats(ks)
    ensures forall i | 0 <= i < |ks| :: ks[i] < |spots|
    ensures forall k: nat | k < |spots| ::
      k in ks <==> spots[k].generation == Adjacent(side) && Named(persons, spots[k].id)
  {
    hide ById, Nearest, Bucket;
    ks := [];
    if persons != [] {
      var n := |persons| - 1;
      var p, earlier := persons[n], persons[..n];
      assert Found(spots, side, earlier) by {
        assert forall i | 0 <= i < n :: earlier[i] == persons[i];
      }
      ks := FirstTies(spots, side, earlier, seedAt);
      NamedLast(persons);
      if p.depth == 1 {
        var at := ById(spots, p.id).value;
        assert spots[at].generation == Adjacent(side);
        assert forall k | 0 <= k < |spots| && spots[k].generation == Adjacent(side) && spots[k].id == p.id :: k == at;
        assert at !in ks by { NotNamedBefore(persons); }
        ks := ks + [at];
      }
    }
  }

  lemma NamedLast(persons: seq<Person>)
    requires persons != []
    ensures forall id :: Named(persons, id) <==>
      Named(persons[..|persons| - 1], id)
      || (persons[|persons| - 1].depth == 1 && persons[|persons| - 1].id == id)
  {
    var n := |persons| - 1;
    forall id
      ensures Named(persons, id) <==> Named(persons[..n], id) || (persons[n].depth == 1 && persons[n].id == id)
    {
      if j :| 0 <= j < n && persons[j].depth == 1 && persons[j].id == id {
        assert persons[..n][j] == persons[j];
      }
    }
  }

  lemma NotNamedBefore(persons: seq<Person>)
    requires persons != [] && DistinctPersons(persons)
    ensures !Named(persons[..|persons| - 1], persons[|persons| - 1].id)
  {
  }

  // ---- The rows beyond ----

  lemma {:induction false} RowEdgesAt(spots: seq<Spot>, side: Side, upper: seq<nat>, lower: seq<nat>)
    requires upper != [] && Indices(spots, upper) && Indices(spots, lower)
    ensures |RowEdges(spots, side, upper, lower)| == |lower|
    ensures forall i | 0 <= i < |lower| ::
      RowEdges(spots, side, upper, lower)[i] == Joined(side, lower[i], Nearest(spots, upper, spots[lower[i]].x))
  {
    hide Nearest;
    if lower != [] {
      RowEdgesAt(spots, side, upper, lower[..|lower| - 1]);
    }
  }

  ghost predicate Beyond(spots: seq<Spot>, side: Side, gens: seq<int>) {
    && side != Beside && NoRepeats(gens)
    && forall i | 0 <= i < |gens| ::
      && (if side == Above then gens[i] < 0 else gens[i] > 1)
      && (gens[i] != -1 ==> Bucket(spots, Closer(side, gens[i])) != [])
  }

  lemma {:induction false} DeepTies(spots: seq<Spot>, side: Side, gens: seq<int>, seedAt: nat) returns (ks: seq<nat>)
    requires Beyond(spots, side, gens)
    ensures TiesOf(spots, seedAt, ks, DeepEdges(spots, side, gens)) && NoRepeats(ks)
    ensures forall i | 0 <= i < |ks| :: ks[i] < |spots|
    ensures forall k: nat | k < |spots| :: k in ks <==> spots[k].generation in gens && spots[k].generation != -1
  {
    hide Bucket, Nearest, RowEdges, Ties;
    ks := [];
    if gens != [] {
      var n := |gens| - 1;
      var g := gens[n];
      ks := DeepTies(spots, side, gens[..n], seedAt);
      assert gens == gens[..n] + [g];
      if g != -1 {
        RowTies(spots, side, g, seedAt);
        TiesJoin(spots, seedAt, ks, DeepEdges(spots, side, gens[..n]), Bucket(spots, g),
          RowEdges(spots, side, Bucket(spots, Closer(side, g)), Bucket(spots, g)));
        RepeatsJoin(ks, Bucket(spots, g));
        ks := ks + Bucket(spots, g);
      }
    }
  }

  lemma RowTies(spots: seq<Spot>, side: Side, g: int, seedAt: nat)
    requires (side == Above && g < -1) || (side == Below && g > 1)
    requires Bucket(spots, Closer(side, g)) != []
    ensures TiesOf(spots, seedAt, Bucket(spots, g),
      RowEdges(spots, side, Bucket(spots, Closer(side, g)), Bucket(spots, g)))
  {
    hide Bucket, Nearest, RowEdges;
    RowEdgesAt(spots, side, Bucket(spots, Closer(side, g)), Bucket(spots, g));
  }

  // ---- What the nodes stand for ----

  function Kin(t: Tree, side: Side): seq<Person> {
    match side case Above => t.ancestors case Below => t.descendants case Beside => []
  }

  ghost predicate Child(t: Tree, s: Spot) {
    exists p :: p in Kin(t, SideOf(s.generation)) && p.id == s.id
      && GenerationOf(SideOf(s.generation), p) == s.generation
  }

  function Rank(s: Spot): nat {
    match KindOf(s.relation) case KSibling => 0 case KSelf => 1 case KPartner => 2 case KOther => 3
  }

  ghost predicate Ranked(spots: seq<Spot>) {
    forall j, k | 0 <= j < k < |spots| && spots[j].generation == 0 && spots[k].generation == 0 ::
      Rank(spots[j]) <= Rank(spots[k])
  }

  ghost predicate KinOk(t: Tree, spots: seq<Spot>, side: Side) {
    && DistinctPersons(Kin(t, side)) && Contiguous(Kin(t, side))
    && forall i | 0 <= i < |Kin(t, side)| :: SpotFor(spots, Kin(t, side)[i].id, GenerationOf(side, Kin(t, side)[i]))
  }

  // The nodes are the tree's people: kin at its distance, each once, and in row 0 the
  // seed, once, between its siblings and its partners.
  ghost predicate Stands(t: Tree, spots: seq<Spot>) {
    && OnceInRows(spots) && SeedOnce(t, spots) && RowMajor(spots) && Ranked(spots)
    && KinOk(t, spots, Above) && KinOk(t, spots, Below) && SpotFor(spots, t.seed.id, 0)
    && (forall k | 0 <= k < |spots| && spots[k].generation != 0 :: Child(t, spots[k]))
    && (forall k | 0 <= k < |spots| && spots[k].generation == 0 :: InRow0(t, spots[k]))
  }

  ghost predicate SeedOnce(t: Tree, spots: seq<Spot>) {
    && OnceAt(spots, 0, t.seed.id)
    && forall k | 0 <= k < |spots| && spots[k].id == t.seed.id :: spots[k].generation == 0
  }

  ghost predicate InRow0(t: Tree, s: Spot) {
    if s.id == t.seed.id then KindOf(s.relation) == KSelf
    else KindOf(s.relation) == KSibling || KindOf(s.relation) == KPartner
  }

  // ---- The layout of a tree as sent does so ----

  lemma KinAt(t: Tree, k: nat)
    requires Sent(t) && k < |Spots(t)| && Spots(t)[k].generation != 0
    ensures Child(t, Spots(t)[k])
  {
    hide Spots, Entries, KindOf;
    SpotIsEntry(t, k);
    var e :| e in Entries(t) && Placeable(e) && Shows(Spots(t)[k], e.generation, e.person);
    EntryParts(t, e);
    assert e.person in Kin(t, SideOf(e.generation));
  }

  lemma KinPlaced(t: Tree, side: Side, i: nat)
    requires Sent(t) && i < |Kin(t, side)|
    ensures SpotFor(Spots(t), Kin(t, side)[i].id, GenerationOf(side, Kin(t, side)[i]))
  {
    hide Spots, Entries, KindOf;
    var p := Kin(t, side)[i];
    var e := Entry(GenerationOf(side, p), p);
    assert Entered(side, Kin(t, side))[i] == e;
    EntryParts(t, e);
    EntryIsPlaced(t, e);
  }

  // Where a list's people are among the entries.
  function Before(t: Tree, side: Side): nat {
    if side == Above then 1 else 1 + |t.ancestors|
  }

  lemma KinIndex(t: Tree, side: Side, i: nat)
    requires side != Beside && i < |Kin(t, side)|
    ensures Before(t, side) + i < |Entries(t)|
    ensures Entries(t)[Before(t, side) + i] == Entry(GenerationOf(side, Kin(t, side)[i]), Kin(t, side)[i])
  {
  }

  lemma EntryKin(t: Tree, i: nat) returns (j: nat)
    requires Sent(t) && i < |Entries(t)| && Entries(t)[i].generation != 0
    ensures var side := SideOf(Entries(t)[i].generation);
      i == Before(t, side) + j && j < |Kin(t, side)| && Entries(t)[i].person == Kin(t, side)[j]
  {
    hide SeedApart;
    var e := Entries(t)[i];
    var a, d := |t.ancestors|, |t.descendants|;
    assert i < 1 || i >= 1 + a + d ==> e.generation == 0;
    if i < 1 + a {
      KinIndex(t, Above, i - 1);
      j := i - 1;
    } else {
      KinIndex(t, Below, i - 1 - a);
      j := i - 1 - a;
    }
  }

  // Nobody is twice among the kin of one generation.
  lemma KinOnce(t: Tree, g: int, id: int)
    requires Sent(t) && g != 0
    ensures Once(Entries(t), g, id)
  {
    hide Sent, Entries;
    forall i, j | 0 <= i < j < |Entries(t)| && Entries(t)[i].generation == g && Entries(t)[j].generation == g
      ensures Entries(t)[i].person.id != Entries(t)[j].person.id
    {
      var i' := EntryKin(t, i);
      var j' := EntryKin(t, j);
      KinDistinct(t, SideOf(g));
    }
  }

  lemma KinDistinct(t: Tree, side: Side)
    requires Sent(t)
    ensures DistinctPersons(Kin(t, side)) && Contiguous(Kin(t, side))
  {
  }

  lemma KinOnceInRows(t: Tree)
    requires Sent(t)
    ensures OnceInRows(Spots(t))
  {
    hide Spots, Sent, Once;
    var spots := Spots(t);
    forall j, k | 0 <= j < k < |spots| && spots[j].generation == spots[k].generation != 0
      ensures spots[j].id != spots[k].id
    {
      KinOnce(t, spots[j].generation, spots[j].id);
      SpotOnce(t, spots[j].generation, spots[j].id);
    }
  }

  lemma SeedIsOnce(t: Tree)
    requires Sent(t)
    ensures SeedOnce(t, Spots(t))
  {
    hide Spots, Entries, KindOf, Contiguous, DistinctPersons;
    var spots := Spots(t);
    assert Entries(t)[0] == SeedEntry(t) by { SeedIsFirst(t); }
    SpotOnce(t, 0, t.seed.id);
    forall k | 0 <= k < |spots| && spots[k].id == t.seed.id
      ensures spots[k].generation == 0
    {
      SpotIsEntry(t, k);
    }
  }

  lemma SeedIsFirst(t: Tree)
    ensures |Entries(t)| > 0 && Entries(t)[0] == SeedEntry(t)
  {
  }

  lemma Row0Is(t: Tree, k: nat)
    requires Sent(t) && k < |Spots(t)| && Spots(t)[k].generation == 0
    ensures InRow0(t, Spots(t)[k])
  {
    hide Spots, Entries, KindOf, Contiguous, DistinctPersons;
    SpotIsEntry(t, k);
    var e :| e in Entries(t) && Placeable(e) && Shows(Spots(t)[k], e.generation, e.person);
    var i :| 0 <= i < |Entries(t)| && Entries(t)[i] == e;
    SeedIsFirst(t);
    SelfIsSelf(e.person.relation);
  }

  lemma SelfIsSelf(relation: string)
    ensures KindOf(relation) == KSelf <==> relation == "self"
  {
  }

  lemma RowIsRanked(row: seq<Person>, seedId: int)
    ensures Ranked(Placed(Ordered(row, 0), 0, seedId, |Ordered(row, 0)|))
  {
    hide KindOf, Reversed, OfKind;
    var a, b := |OfKind(row, KSibling)|, |OfKind(row, KSelf)|;
    var r := Ordered(row, 0);
    assert forall i | 0 <= i < |r| ::
      KindOf(r[i].relation) == if i < a then KSibling else if i < a + b then KSelf else KPartner;
  }

  lemma {:induction false} SpotsAreRanked(rows: map<int, seq<Person>>, gens: seq<int>, seedId: int)
    requires forall i | 0 <= i < |gens| :: gens[i] in rows
    requires forall i, j | 0 <= i < j < |gens| :: gens[i] < gens[j]
    ensures Ranked(Positioned(rows, gens, seedId))
  {
    hide Ordered, Rank, ColumnX;
    if gens != [] {
      var n := |gens| - 1;
      SpotsAreRanked(rows, gens[..n], seedId);
      SpotsAreRowMajor(rows, gens[..n], seedId);
      if gens[n] == 0 {
        RowIsRanked(rows[0], seedId);
        assert 0 !in gens[..n];
      }
    }
  }

  lemma TreeIsRanked(t: Tree)
    ensures Ranked(Spots(t))
  {
    hide Positioned, Sorted, RowsOf, Ranked, GenerationsOf;
    RowsKeys(Entries(t));
    SpotsAreRanked(RowsOf(Entries(t)), Sorted(GenerationsOf(Entries(t))), t.seed.id);
  }

  lemma TreeStands(t: Tree)
    requires Sent(t)
    ensures Stands(t, Spots(t))
  {
    hide Spots, Sent, RowMajor, Ranked, Contiguous, DistinctPersons, OnceInRows, SeedOnce, SpotFor, Child, InRow0;
    KinOnceInRows(t);
    SeedIsOnce(t);
    SpotsOfTree(t);
    TreeIsRanked(t);
    SeedStands(t);
    forall side | side != Beside
      ensures KinOk(t, Spots(t), side)
    {
      KinDistinct(t, side);
      forall i | 0 <= i < |Kin(t, side)|
        ensures SpotFor(Spots(t), Kin(t, side)[i].id, GenerationOf(side, Kin(t, side)[i]))
      {
        KinPlaced(t, side, i);
      }
    }
    forall k | 0 <= k < |Spots(t)| && Spots(t)[k].generation != 0
      ensures Child(t, Spots(t)[k])
    {
      KinAt(t, k);
    }
    forall k | 0 <= k < |Spots(t)| && Spots(t)[k].generation == 0
      ensures InRow0(t, Spots(t)[k])
    {
      Row0Is(t, k);
    }
  }

  lemma SeedStands(t: Tree)
    ensures SpotFor(Spots(t), t.seed.id, 0)
  {
    hide Spots;
    SeedIsPlaced(t);
  }

  // ---- The rows the edges join ----

  lemma AdjacentIsNamed(t: Tree, spots: seq<Spot>, side: Side, k: nat)
    requires Stands(t, spots) && side != Beside && k < |spots| && spots[k].generation == Adjacent(side)
    ensures Named(Kin(t, side), spots[k].id)
  {
    hide RowMajor, Ranked, InRow0, KinOk, OnceInRows, SeedOnce, SpotFor;
    assert Child(t, spots[k]);
  }

  // A child's id is looked up in its own place: everybody further down is somebody else.
  lemma ChildrenAreFound(t: Tree, spots: seq<Spot>)
    requires Stands(t, spots)
    ensures Found(spots, Below, t.descendants)
  {
    hide Stands, ById;
    forall i | 0 <= i < |t.descendants| && t.descendants[i].depth == 1
      ensures ById(spots, t.descendants[i].id).Some?
      ensures spots[ById(spots, t.descendants[i].id).value].generation == 1
    {
      ChildIsFound(t, spots, i);
    }
  }

  lemma ChildIsFound(t: Tree, spots: seq<Spot>, i: nat)
    requires Stands(t, spots) && i < |t.descendants| && t.descendants[i].depth == 1
    ensures var at := ById(spots, t.descendants[i].id); at.Some? && spots[at.value].generation == 1
  {
    hide Ranked, InRow0, OnceInRows, SeedOnce, ById, Contiguous, SpotFor, RowMajor, Child, DistinctPersons;
    var p := t.descendants[i];
    assert SpotFor(spots, p.id, GenerationOf(Below, p));
    assert GenerationOf(Below, p) == 1;
    var at := PlaceBelow(spots, p.id);
    if spots[at].generation != 1 {
      assert Child(t, spots[at]);
      SameDescendant(t, spots[at], p);
    }
  }

  lemma PlaceBelow(spots: seq<Spot>, id: int) returns (at: nat)
    requires RowMajor(spots) && SpotFor(spots, id, 1)
    ensures ById(spots, id) == Some(at) && at < |spots| && spots[at].id == id && spots[at].generation >= 1
  {
    hide ById;
    var k :| 0 <= k < |spots| && spots[k].id == id && spots[k].generation == 1;
    at := ById(spots, id).value;
    assert k < at ==> spots[k].generation <= spots[at].generation;
  }

  lemma SameDescendant(t: Tree, s: Spot, p: Person)
    requires Child(t, s) && s.generation >= 1 && DistinctPersons(t.descendants)
    requires p in t.descendants && p.id == s.id
    ensures s.generation == p.depth
  {
  }

  lemma KinStands(t: Tree, spots: seq<Spot>, k: nat)
    requires Stands(t, spots) && k < |spots| && spots[k].generation != 0
    ensures Child(t, spots[k]) && KinOk(t, spots, SideOf(spots[k].generation))
  {
    hide RowMajor, Ranked, OnceInRows, SeedOnce, KinOk, Child, InRow0;
  }

  // No row is skipped on the way to the seed.
  lemma RowCloser(t: Tree, spots: seq<Spot>, k: nat)
    requires Stands(t, spots) && k < |spots| && (spots[k].generation < -1 || spots[k].generation > 1)
    ensures var g := spots[k].generation; Bucket(spots, Closer(SideOf(g), g)) != []
  {
    hide Stands, DistinctPersons, Bucket;
    var g := spots[k].generation;
    var kin := Kin(t, SideOf(g));
    KinStands(t, spots, k);
    var i :| 0 <= i < |kin| && kin[i].id == spots[k].id && GenerationOf(SideOf(g), kin[i]) == g;
    var j :| 0 <= j < |kin| && kin[j].depth == kin[i].depth - 1;
    assert SpotFor(spots, kin[j].id, GenerationOf(SideOf(g), kin[j]));
    var l :| 0 <= l < |spots| && spots[l].id == kin[j].id && spots[l].generation == Closer(SideOf(g), g);
    assert l in Bucket(spots, Closer(SideOf(g), g));
  }

  lemma AllBeyond(t: Tree, spots: seq<Spot>)
    requires Stands(t, spots)
    ensures Beyond(spots, Above, AncestorGens(spots)) && Beyond(spots, Below, DescendantGens(spots))
  {
    hide Stands, Bucket, Sorted, SpotGenerations;
    var up, down := AncestorGens(spots), DescendantGens(spots);
    forall i | 0 <= i < |up|
      ensures up[i] < 0 && (up[i] != -1 ==> Bucket(spots, Closer(Above, up[i])) != [])
    {
      ReversedMembers(Sorted(set g | g in SpotGenerations(spots) && g < 0), up[i]);
      assert up[i] in up;
      var k := SpotOfGeneration(spots, up[i]);
      if up[i] != -1 {
        RowCloser(t, spots, k);
      }
    }
    forall i | 0 <= i < |down|
      ensures down[i] > 1 && Bucket(spots, Closer(Below, down[i])) != []
    {
      assert down[i] in down;
      var k := SpotOfGeneration(spots, down[i]);
      RowCloser(t, spots, k);
    }
  }

  lemma SpotOfGeneration(spots: seq<Spot>, g: int) returns (k: nat)
    requires g in SpotGenerations(spots)
    ensures k < |spots| && spots[k].generation == g
  {
    k :| 0 <= k < |spots| && spots[k].generation == g;
  }

  lemma GenMembers(spots: seq<Spot>, k: nat)
    requires k < |spots|
    ensures spots[k].generation in AncestorGens(spots) <==> spots[k].generation < 0
    ensures spots[k].generation in DescendantGens(spots) <==> spots[k].generation > 1
  {
    hide Sorted;
    var g := spots[k].generation;
    assert g in SpotGenerations(spots);
    ReversedMembers(Sorted(set h | h in SpotGenerations(spots) && h < 0), g);
  }

  // ---- The tree ----

  function SeedAt(t: Tree, spots: seq<Spot>): nat {
    var at := ById(spots, t.seed.id);
    if at.Some? then at.value else 0
  }

  lemma SeedAtIsSeed(t: Tree, spots: seq<Spot>)
    requires Stands(t, spots)
    ensures ById(spots, t.seed.id) == Some(SeedAt(t, spots))
    ensures SeedAt(t, spots) < |spots| && spots[SeedAt(t, spots)].generation == 0
      && spots[SeedAt(t, spots)].id == t.seed.id
    ensures forall k | 0 <= k < |spots| && spots[k].id == t.seed.id :: k == SeedAt(t, spots)
  {
    hide RowMajor, Ranked, KinOk, Child, InRow0, OnceInRows;
  }

  // Nodes without repeats that are all those below n number n.
  lemma {:induction false} NoRepeatsCount(s: seq<nat>, n: nat)
    requires NoRepeats(s) && forall k: nat :: k in s <==> k < n
    ensures |s| == n
  {
    assert s != [] ==> s[0] in s;
    if n > 0 {
      assert (n - 1) in s;
      var i :| 0 <= i < |s| && s[i] == n - 1;
      var rest := s[..i] + s[i + 1..];
      forall k: nat
        ensures k in rest <==> k < n - 1
      {
        if k < n - 1 {
          assert k in s;
          var j :| 0 <= j < |s| && s[j] == k;
          assert rest[if j < i then j else j - 1] == k;
        }
        if k in rest {
          assert k in s && k != n - 1;
        }
      }
      NoRepeatsCount(rest, n - 1);
    }
  }

  // When the parents are found, every node outside row 0 has exactly one edge towards the
  // seed, namely its tie to the row one closer, and there are no other edges.
  lemma EveryNodeIsTied(t: Tree, spots: seq<Spot>) returns (ks: seq<nat>)
    requires Stands(t, spots) && Found(spots, Above, t.ancestors)
    ensures TiesOf(spots, SeedAt(t, spots), ks, Edges(t, spots)) && NoRepeats(ks)
    ensures forall k: nat :: k in ks <==> k < |spots| && spots[k].generation != 0
    ensures |Edges(t, spots)| + |Bucket(spots, 0)| == |spots|
  {
    hide Stands, Bucket, FirstEdges, DeepEdges, AncestorGens, DescendantGens, TiesOf, SeedAt, ById, NoRepeats, Found;
    ChildrenAreFound(t, spots);
    var seedAt := SeedAt(t, spots);
    SeedAtIsSeed(t, spots);
    AllBeyond(t, spots);
    var parents := BesideTies(t, spots, Above);
    var children := BesideTies(t, spots, Below);
    var up := DeepTies(spots, Above, AncestorGens(spots), seedAt);
    var down := DeepTies(spots, Below, DescendantGens(spots), seedAt);
    forall k: nat | k < |spots|
      ensures k in up <==> spots[k].generation < -1
      ensures k in down <==> spots[k].generation > 1
    {
      GenMembers(spots, k);
    }
    TiesJoin(spots, seedAt, parents, FirstEdges(spots, Above, t.ancestors, seedAt),
      children, FirstEdges(spots, Below, t.descendants, seedAt));
    RepeatsJoin(parents, children);
    ks := parents + children;
    TiesJoin(spots, seedAt, ks, FirstEdges(spots, Above, t.ancestors, seedAt)
      + FirstEdges(spots, Below, t.descendants, seedAt), up, DeepEdges(spots, Above, AncestorGens(spots)));
    RepeatsJoin(ks, up);
    ks := ks + up;
    TiesJoin(spots, seedAt, ks, FirstEdges(spots, Above, t.ancestors, seedAt)
      + FirstEdges(spots, Below, t.descendants, seedAt) + DeepEdges(spots, Above, AncestorGens(spots)),
      down, DeepEdges(spots, Below, DescendantGens(spots)));
    RepeatsJoin(ks, down);
    ks := ks + down;
    BucketIsApart(spots, ks);
    TiesCount(spots, seedAt, ks, Edges(t, spots));
  }

  lemma BesideTies(t: Tree, spots: seq<Spot>, side: Side) returns (ks: seq<nat>)
    requires Stands(t, spots) && side != Beside && Found(spots, side, Kin(t, side))
    ensures TiesOf(spots, SeedAt(t, spots), ks, FirstEdges(spots, side, Kin(t, side), SeedAt(t, spots)))
    ensures NoRepeats(ks) && forall i | 0 <= i < |ks| :: ks[i] < |spots|
    ensures forall k: nat | k < |spots| :: k in ks <==> spots[k].generation == Adjacent(side)
  {
    hide FirstEdges, TiesOf, SeedAt, Named, NoRepeats, RowMajor, Ranked, Child, InRow0, Found, OnceInRows, SeedOnce;
    ks := FirstTies(spots, side, Kin(t, side), SeedAt(t, spots));
    forall k: nat | k < |spots| && spots[k].generation == Adjacent(side)
      ensures k in ks
    {
      AdjacentIsNamed(t, spots, side, k);
    }
  }

  lemma BucketIsApart(spots: seq<Spot>, ks: seq<nat>)
    requires NoRepeats(ks) && forall k: nat :: k in ks <==> k < |spots| && spots[k].generation != 0
    ensures |ks| + |Bucket(spots, 0)| == |spots|
  {
    var all := ks + Bucket(spots, 0);
    assert NoRepeats(all) by { RepeatsJoin(ks, Bucket(spots, 0)); }
    forall k: nat
      ensures k in all <==> k < |spots|
    {
      if k in Bucket(spots, 0) {
        assert k < |spots|;
      }
    }
    NoRepeatsCount(all, |spots|);
  }

  lemma TiesCount(spots: seq<Spot>, seedAt: nat, ks: seq<nat>, edges: seq<Edge>)
    requires TiesOf(spots, seedAt, ks, edges)
    ensures |ks| == |edges|
  {
  }

  // ---- Everybody reaches the seed ----

  // The end of an edge that is further from the seed, and the one that is nearer.
  function OuterEnd(side: Side, e: Edge): nat {
    if side == Above then e.from else e.to
  }

  function InnerEnd(side: Side, e: Edge): nat {
    if side == Above then e.to else e.from
  }

  // n edges, each one row inwards, lead from k to the seed.
  ghost predicate Reaches(spots: seq<Spot>, edges: seq<Edge>, seedAt: nat, k: nat, n: nat)
    decreases n
  {
    k < |spots| && if n == 0 then k == seedAt else exists i :: 0 <= i < |edges| && Leads(spots, edges, seedAt, k, n, i)
  }

  ghost predicate Leads(spots: seq<Spot>, edges: seq<Edge>, seedAt: nat, k: nat, n: nat, i: nat)
    requires k < |spots| && i < |edges| && n > 0
    decreases n, 0
  {
    var side := SideOf(spots[k].generation);
    OuterEnd(side, edges[i]) == k && Reaches(spots, edges, seedAt, InnerEnd(side, edges[i]), n - 1)
  }

  lemma TieOf(t: Tree, spots: seq<Spot>, k: nat) returns (i: nat)
    requires Stands(t, spots) && Found(spots, Above, t.ancestors) && k < |spots| && spots[k].generation != 0
    ensures i < |Edges(t, spots)| && Ties(spots, SeedAt(t, spots), k, Edges(t, spots)[i])
  {
    hide Stands, Edges, SeedAt, Ties, Found;
    var ks := EveryNodeIsTied(t, spots);
    assert k in ks;
    i :| 0 <= i < |ks| && ks[i] == k;
  }

  lemma TieGoesIn(spots: seq<Spot>, seedAt: nat, k: nat, e: Edge)
    requires Ties(spots, seedAt, k, e)
    ensures var g := spots[k].generation;
      var inner := InnerEnd(SideOf(g), e);
      && OuterEnd(SideOf(g), e) == k
      && (if g == 1 || g == -1 then inner == seedAt
          else inner < |spots| && spots[inner].generation == Closer(SideOf(g), g))
  {
    hide Nearest, Bucket;
  }

  // When the parents are found, every node outside row 0 reaches the seed in as many
  // edges as it is rows away.
  lemma {:induction false} EverybodyReachesSeed(t: Tree, spots: seq<Spot>, k: nat)
    requires Stands(t, spots) && Found(spots, Above, t.ancestors) && k < |spots| && spots[k].generation != 0
    ensures Reaches(spots, Edges(t, spots), SeedAt(t, spots), k, Abs(spots[k].generation))
    decreases Abs(spots[k].generation)
  {
    hide Stands, Edges, SeedAt, Ties, OuterEnd, InnerEnd, Found;
    var edges, g := Edges(t, spots), spots[k].generation;
    SeedAtIsSeed(t, spots);
    var i := TieOf(t, spots, k);
    TieGoesIn(spots, SeedAt(t, spots), k, edges[i]);
    var inner := InnerEnd(SideOf(g), edges[i]);
    if g != 1 && g != -1 {
      EverybodyReachesSeed(t, spots, inner);
      assert Abs(spots[inner].generation) == Abs(g) - 1;
    }
    assert Reaches(spots, edges, SeedAt(t, spots), inner, Abs(g) - 1);
    assert Leads(spots, edges, SeedAt(t, spots), k, Abs(g), i);
  }

  // ---- Row 0 ----

  // Siblings stand left of the seed and partners right of it, by whole columns, and
  // nobody else is in row 0.
  lemma SeedBetween(t: Tree, spots: seq<Spot>, k: nat)
    requires Stands(t, spots) && k < |spots| && spots[k].generation == 0 && k != SeedAt(t, spots)
    ensures var s, seed := spots[k], spots[SeedAt(t, spots)];
      || (KindOf(s.relation) == KSibling && s.x + COL_W <= seed.x)
      || (KindOf(s.relation) == KPartner && seed.x + COL_W <= s.x)
  {
    hide SeedAt, Kin, KindOf, KinOk;
    SeedAtIsSeed(t, spots);
    assert InRow0(t, spots[k]) && InRow0(t, spots[SeedAt(t, spots)]);
    assert Rank(spots[k]) != 1 && Rank(spots[SeedAt(t, spots)]) == 1;
  }

  // ---- The marriage line ----

  // It joins the seed and the last place of the first spouse, left to right, and is
  // missing exactly when that spouse is drawn nowhere.
  lemma MarriageLineJoins(t: Tree)
    requires Sent(t) && t.spouses != []
    ensures var spots, lines := Spots(t), MarriageLines(t, Spots(t));
      && |lines| <= 1
      && (lines == [] <==> forall k | 0 <= k < |spots| :: spots[k].id != t.spouses[0].id)
      && forall e | e in lines ::
           && e.from < |spots| && e.to < |spots| && spots[e.from].x <= spots[e.to].x
           && (e == Edge(SeedAt(t, spots), ById(spots, t.spouses[0].id).value)
               || e == Edge(ById(spots, t.spouses[0].id).value, SeedAt(t, spots)))
  {
    hide Spots, Sent, Stands, SeedAt, ById;
    TreeStands(t);
    SeedAtIsSeed(t, Spots(t));
  }

  // To a spouse of a drawn kind that is in no other list it runs right from the seed.
  lemma MarriageRunsRight(t: Tree)
    requires Sent(t) && t.spouses != [] && KindOf(t.spouses[0].relation) == KPartner
    requires forall e | e in Entries(t) && e.person.id == t.spouses[0].id :: e == Entry(0, t.spouses[0])
    ensures var spots, lines := Spots(t), MarriageLines(t, Spots(t));
      && |lines| == 1 && lines[0].from == SeedAt(t, spots) && lines[0].from < |spots| && lines[0].to < |spots|
      && spots[lines[0].to].id == t.spouses[0].id
      && spots[lines[0].from].x + COL_W <= spots[lines[0].to].x
  {
    hide Spots, Sent, Entries, Stands, KindOf, SeedAt, ById;
    var spots, e := Spots(t), Entry(0, t.spouses[0]);
    TreeStands(t);
    SeedAtIsSeed(t, spots);
    assert Entered(Beside, t.spouses)[0] == e;
    EntryParts(t, e);
    EntryIsPlaced(t, e);
    var at := ById(spots, e.person.id).value;
    SpotIsEntry(t, at);
    SpouseIsNotSeed(t);
    SeedBetween(t, spots, at);
  }

  lemma SpouseIsNotSeed(t: Tree)
    requires Sent(t) && t.spouses != []
    ensures t.spouses[0].id != t.seed.id
  {
    hide KindOf, Contiguous, DistinctPersons;
    var i := 1 + |t.ancestors| + |t.descendants|;
    assert Entries(t)[i] == Entry(0, t.spouses[0]);
  }

  // ---- The layout the page draws ----

  // No parent is also a child or a further descendant, or drawn beside the seed.
  ghost predicate ParentsOnce(t: Tree) {
    forall p, e | p in t.ancestors && p.depth == 1 && e in Entries(t) && e.generation >= 0 && Placeable(e) ::
      e.person.id != p.id
  }

  // A parent's id is looked up in the parents' row exactly when that person is in no
  // later row.
  lemma ParentIsFound(t: Tree, p: Person)
    requires Sent(t) && p in t.ancestors && p.depth == 1
    ensures var at := ById(Spots(t), p.id);
      && at.Some?
      && (Spots(t)[at.value].generation == -1 <==>
            forall e | e in Entries(t) && e.generation >= 0 && Placeable(e) :: e.person.id != p.id)
  {
    hide Spots, Entries, ById, KindOf, Ranked;
    var spots, at := Spots(t), ById(Spots(t), p.id);
    var i :| 0 <= i < |t.ancestors| && t.ancestors[i] == p;
    KinPlaced(t, Above, i);
    SpotsOfTree(t);
    if e :| e in Entries(t) && e.generation >= 0 && Placeable(e) && e.person.id == p.id {
      EntryIsPlaced(t, e);
      var k :| 0 <= k < |spots| && Shows(spots[k], e.generation, e.person);
      assert k <= at.value;
      assert spots[at.value].generation >= 0;
    } else {
      SpotIsEntry(t, at.value);
      KinAt(t, at.value);
    }
  }

  // A parent found elsewhere has no edge at its own place.
  lemma LostParentIsCut(t: Tree, spots: seq<Spot>, k: nat)
    requires Stands(t, spots) && k < |spots| && spots[k].generation == -1 && ById(spots, spots[k].id) != Some(k)
    ensures forall e | e in Edges(t, spots) :: e.from != k
  {
    hide Stands, Bucket, FirstEdges, DeepEdges, AncestorGens, DescendantGens, SeedAt, ById;
    SeedAtIsSeed(t, spots);
    FirstStarts(spots, Above, t.ancestors, SeedAt(t, spots), k);
    FirstStarts(spots, Below, t.descendants, SeedAt(t, spots), k);
    AllBeyond(t, spots);
    DeepStarts(spots, Above, AncestorGens(spots), k);
    DeepStarts(spots, Below, DescendantGens(spots), k);
  }

  lemma {:induction false} FirstStarts(spots: seq<Spot>, side: Side, persons: seq<Person>, seedAt: nat, k: nat)
    requires k < |spots| && ById(spots, spots[k].id) != Some(k) && seedAt != k
    ensures forall e | e in FirstEdges(spots, side, persons, seedAt) :: e.from != k
  {
    hide ById;
    if persons != [] {
      FirstStarts(spots, side, persons[..|persons| - 1], seedAt, k);
    }
  }

  lemma {:induction false} DeepStarts(spots: seq<Spot>, side: Side, gens: seq<int>, k: nat)
    requires k < |spots| && spots[k].generation == -1 && Beyond(spots, side, gens)
    ensures forall e | e in DeepEdges(spots, side, gens) :: e.from != k
  {
    hide Bucket, RowEdges;
    if gens != [] {
      var n := |gens| - 1;
      DeepStarts(spots, side, gens[..n], k);
      var g := gens[n];
      if g != -1 {
        RowEdgesAt(spots, side, Bucket(spots, Closer(side, g)), Bucket(spots, g));
      }
    }
  }

  ghost predicate ReachesSeed(t: Tree, k: nat)
    requires k < |Spots(t)|
  {
    Reaches(Spots(t), Edges(t, Spots(t)), SeedAt(t, Spots(t)), k, Abs(Spots(t)[k].generation))
  }

  lemma ReachesWhenFound(t: Tree, k: nat)
    requires Sent(t) && ParentsOnce(t) && k < |Spots(t)| && Spots(t)[k].generation != 0
    ensures ReachesSeed(t, k)
  {
    hide Spots, Sent, Entries, Stands, Placeable, ById, Edges, SeedAt, Reaches;
    TreeStands(t);
    forall i | 0 <= i < |t.ancestors| && t.ancestors[i].depth == 1
      ensures ById(Spots(t), t.ancestors[i].id).Some?
      ensures Spots(t)[ById(Spots(t), t.ancestors[i].id).value].generation == -1
    {
      ParentIsFound(t, t.ancestors[i]);
    }
    EverybodyReachesSeed(t, Spots(t), k);
  }

  lemma LostParent(t: Tree, p: Person, e: Entry) returns (k: nat)
    requires Sent(t) && p in t.ancestors && p.depth == 1
    requires e in Entries(t) && e.generation >= 0 && Placeable(e) && e.person.id == p.id
    ensures k < |Spots(t)| && Spots(t)[k].id == p.id && Spots(t)[k].generation == -1
    ensures forall e | e in Edges(t, Spots(t)) :: e.from != k
    ensures !ReachesSeed(t, k)
  {
    hide Spots, Sent, Entries, Stands, Placeable, ById, Edges, SeedAt;
    TreeStands(t);
    ParentIsFound(t, p);
    var i :| 0 <= i < |t.ancestors| && t.ancestors[i] == p;
    KinPlaced(t, Above, i);
    k :| 0 <= k < |Spots(t)| && Spots(t)[k].id == p.id && Spots(t)[k].generation == -1;
    LostParentIsCut(t, Spots(t), k);
    CutOff(Spots(t), Edges(t, Spots(t)), SeedAt(t, Spots(t)), k);
  }

  lemma CutOff(spots: seq<Spot>, edges: seq<Edge>, seedAt: nat, k: nat)
    requires k < |spots| && spots[k].generation == -1 && forall e | e in edges :: e.from != k
    ensures !Reaches(spots, edges, seedAt, k, 1)
  {
    assert forall i | 0 <= i < |edges| :: edges[i].from != k;
  }

  // In the layout of any tree as sent everybody outside row 0 reaches the seed, in as many
  // edges as rows, exactly when no parent is drawn a second time in a later row.
  lemma DrawnTreeIsRooted(t: Tree)
    requires Sent(t)
    ensures (forall k | 0 <= k < |Spots(t)| && Spots(t)[k].generation != 0 :: ReachesSeed(t, k)) <==> ParentsOnce(t)
  {
    hide Spots, Sent, Entries, Placeable, ReachesSeed;
    if ParentsOnce(t) {
      forall k | 0 <= k < |Spots(t)| && Spots(t)[k].generation != 0
        ensures ReachesSeed(t, k)
      {
        ReachesWhenFound(t, k);
      }
    } else {
      var p, e :| p in t.ancestors && p.depth == 1 && e in Entries(t) && e.generation >= 0 && Placeable(e)
        && e.person.id == p.id;
      var k := LostParent(t, p, e);
    }
  }

  // A mother who is also the spouse stands alone in her row: her edge goes from the
  // spouse's place.
  const MOTHER_AND_SPOUSE: Tree :=
    Tree(Person(1, "self", 0), [Person(2, "mother", 1)], [], [Person(2, "spouse", 1)], [])

  lemma MotherIsCut()
    ensures Sent(MOTHER_AND_SPOUSE)
    ensures var spots := Spots(MOTHER_AND_SPOUSE);
      exists k: nat :: k < |spots| && spots[k].id == 2 && spots[k].generation == -1
        && forall e | e in Edges(MOTHER_AND_SPOUSE, spots) :: e.from != k
  {
    hide Spots, Edges, ReachesSeed;
    var t := MOTHER_AND_SPOUSE;
    var p, e := t.ancestors[0], Entry(0, t.spouses[0]);
    assert t.ancestors[..0] == [] && t.spouses[..0] == [];
    assert Entries(t) == [SeedEntry(t), Entry(-1, p), e];
    assert e in Entries(t) && Placeable(e);
    var k := LostParent(t, p, e);
  }
}
