/** Who stands where on the lineage page, in the words of the page itself: the relations
    it names, the lists it is sent, columns and rows in pixels. */
module LineagePlaces {
  import opened Options
  import opened Lineage
  import opened LineageTree

  predicate SaysSibling(p: Person) {
    p.relation in {"sibling", "half_sibling"}
  }

  predicate SaysPartner(p: Person) {
    p.relation in {"spouse", "former_spouse", "concubine", "betrothed"}
  }

  predicate SaysSelf(p: Person) {
    p.relation == "self"
  }

  // Those that satisfy keep, in their order.
  function Only(persons: seq<Person>, keep: Person -> bool): seq<Person> {
    if persons == [] then []
    else
      var last := persons[|persons| - 1];
      Only(persons[..|persons| - 1], keep) + if keep(last) then [last] else []
  }

  function BesideSeed(t: Tree): seq<Person> {
    t.spouses + t.siblings
  }

  function Kin(t: Tree, g: int): seq<Person> {
    if g < 0 then t.ancestors else t.descendants
  }

  // Row g from left to right.
  function Row(t: Tree, g: int): seq<Person> {
    if g == 0 then
      Reversed(Only(BesideSeed(t), SaysSibling)) + [SeedEntry(t).person] + Only(BesideSeed(t), SaysPartner)
    else Only(Kin(t, g), (p: Person) => p.depth == Abs(g))
  }

  // The spots from `at` on are these people: centred columns 260 apart, rows 130 apart,
  // the focus on the seed's id.
  ghost predicate Stand(spots: seq<Spot>, at: nat, row: seq<Person>, g: int, seedId: int) {
    && at + |row| <= |spots|
    && (forall i | 0 <= i < |row| :: spots[at + i] ==
          Spot(row[i].id, row[i].relation, g, row[i].id == seedId, 260 * i - 130 * (|row| - 1), 130 * g))
    && (forall k | 0 <= k < |spots| :: spots[k].generation == g <==> at <= k < at + |row|)
  }

  // ---- Rows of entries ----

  lemma {:induction false} RowConcat(a: seq<Entry>, b: seq<Entry>, g: int)
    ensures RowOf(a + b, g) == RowOf(a, g) + RowOf(b, g)
  {
    if b == [] {
      assert a + b == a;
    } else {
      RowConcat(a, b[..|b| - 1], g);
      assert (a + b)[..|a + b| - 1] == a + b[..|b| - 1];
    }
  }

  lemma {:induction false} EnteredBeside(persons: seq<Person>, g: int)
    ensures RowOf(Entered(Beside, persons), g) == if g == 0 then persons else []
  {
    if persons != [] {
      EnteredBeside(persons[..|persons| - 1], g);
      EnteredButLast(Beside, persons);
    }
  }

  lemma EnteredButLast(side: Side, persons: seq<Person>)
    requires persons != []
    ensures Entered(side, persons)[..|persons| - 1] == Entered(side, persons[..|persons| - 1])
  {
  }

  lemma {:induction false} EnteredKin(side: Side, persons: seq<Person>, g: int)
    requires side != Beside && forall i | 0 <= i < |persons| :: persons[i].depth >= 1
    ensures RowOf(Entered(side, persons), g) ==
      if (side == Above && g < 0) || (side == Below && g > 0)
      then Only(persons, (p: Person) => p.depth == Abs(g)) else []
  {
    if persons != [] {
      EnteredKin(side, persons[..|persons| - 1], g);
      EnteredButLast(side, persons);
    }
  }

  lemma EntriesRow(t: Tree, g: int)
    requires Sent(t)
    ensures RowOf(Entries(t), g)
      == if g == 0 then [SeedEntry(t).person] + BesideSeed(t) else Only(Kin(t, g), (p: Person) => p.depth == Abs(g))
  {
    hide SeedApart, Entered, RowOf, SeedEntry;
    var e0, e1, e2 := [SeedEntry(t)], Entered(Above, t.ancestors), Entered(Below, t.descendants);
    var e3, e4 := Entered(Beside, t.spouses), Entered(Beside, t.siblings);
    RowConcat(e0, e1, g);
    RowConcat(e0 + e1, e2, g);
    RowConcat(e0 + e1 + e2, e3, g);
    RowConcat(e0 + e1 + e2 + e3, e4, g);
    EnteredKin(Above, t.ancestors, g);
    EnteredKin(Below, t.descendants, g);
    EnteredBeside(t.spouses, g);
    EnteredBeside(t.siblings, g);
    SeedRow(t, g);
  }

  lemma SeedRow(t: Tree, g: int)
    ensures RowOf([SeedEntry(t)], g) == if g == 0 then [SeedEntry(t).person] else []
  {
    assert [SeedEntry(t)][..0] == [];
  }

  // ---- Row 0 sorted by relation ----

  lemma {:induction false} OnlyKinds(row: seq<Person>)
    ensures OfKind(row, KSibling) == Only(row, SaysSibling)
    ensures OfKind(row, KPartner) == Only(row, SaysPartner)
    ensures OfKind(row, KSelf) == Only(row, SaysSelf)
  {
    if row != [] {
      OnlyKinds(row[..|row| - 1]);
    }
  }

  lemma {:induction false} OnlyConcat(a: seq<Person>, b: seq<Person>, keep: Person -> bool)
    ensures Only(a + b, keep) == Only(a, keep) + Only(b, keep)
  {
    if b == [] {
      assert a + b == a;
    } else {
      OnlyConcat(a, b[..|b| - 1], keep);
      assert (a + b)[..|a + b| - 1] == a + b[..|b| - 1];
    }
  }

  lemma {:induction false} OnlyNone(row: seq<Person>, keep: Person -> bool)
    requires forall p | p in row :: !keep(p)
    ensures Only(row, keep) == []
  {
    if row != [] {
      OnlyNone(row[..|row| - 1], keep);
    }
  }

  lemma OnlyOne(p: Person, keep: Person -> bool)
    ensures Only([p], keep) == if keep(p) then [p] else []
  {
    assert [p][..0] == [];
  }

  lemma BesideNotSelf(t: Tree)
    requires Sent(t)
    ensures forall p | p in BesideSeed(t) :: p.relation != "self"
  {
    hide Contiguous, DistinctPersons;
    var before := 1 + |t.ancestors| + |t.descendants|;
    forall i | 0 <= i < |BesideSeed(t)|
      ensures BesideSeed(t)[i].relation != "self"
    {
      assert Entries(t)[before + i] == Entry(0, BesideSeed(t)[i]);
    }
  }

  lemma Row0Selves(t: Tree)
    requires Sent(t)
    ensures OfKind([SeedEntry(t).person] + BesideSeed(t), KSelf) == [SeedEntry(t).person]
  {
    hide Sent, OfKind;
    var seed, beside := SeedEntry(t).person, BesideSeed(t);
    OnlyKinds([seed] + beside);
    OnlyConcat([seed], beside, SaysSelf);
    OnlyOne(seed, SaysSelf);
    BesideNotSelf(t);
    OnlyNone(beside, SaysSelf);
  }

  lemma Row0Others(t: Tree, keep: Person -> bool)
    requires keep == SaysSibling || keep == SaysPartner
    ensures Only([SeedEntry(t).person] + BesideSeed(t), keep) == Only(BesideSeed(t), keep)
  {
    hide BesideSeed;
    var seed := SeedEntry(t).person;
    OnlyConcat([seed], BesideSeed(t), keep);
    OnlyOne(seed, keep);
  }

  lemma OrderedRow(t: Tree, g: int)
    requires Sent(t)
    ensures Ordered(RowOf(Entries(t), g), g) == Row(t, g)
  {
    hide Sent, Entries, RowOf, OfKind, Reversed, BesideSeed, SeedEntry, Only;
    EntriesRow(t, g);
    if g == 0 {
      OnlyKinds([SeedEntry(t).person] + BesideSeed(t));
      Row0Selves(t);
      Row0Others(t, SaysSibling);
      Row0Others(t, SaysPartner);
    }
  }

  // ---- The rows as they are drawn ----

  lemma {:induction false} BlockOf(rows: map<int, seq<Person>>, gens: seq<int>, seedId: int, g: int) returns (at: nat)
    requires forall i | 0 <= i < |gens| :: gens[i] in rows
    requires forall i, j | 0 <= i < j < |gens| :: gens[i] < gens[j]
    requires g in gens
    ensures Stand(Positioned(rows, gens, seedId), at, Ordered(rows[g], g), g, seedId)
  {
    hide Ordered, Placed, Stand;
    var n := |gens| - 1;
    var before := Positioned(rows, gens[..n], seedId);
    forall k | 0 <= k < |before|
      ensures before[k].generation in gens[..n]
    {
      PlacedFrom(rows, gens[..n], seedId, k);
    }
    if g == gens[n] {
      at := |before|;
      LastBlock(before, Ordered(rows[g], g), g, seedId);
    } else {
      at := BlockOf(rows, gens[..n], seedId, g);
      EarlierBlock(before, at, Ordered(rows[g], g), g, Ordered(rows[gens[n]], gens[n]), gens[n], seedId);
    }
  }

  lemma LastBlock(before: seq<Spot>, row: seq<Person>, g: int, seedId: int)
    requires forall k | 0 <= k < |before| :: before[k].generation != g
    ensures Stand(before + Placed(row, g, seedId, |row|), |before|, row, g, seedId)
  {
    hide Placed;
    var placed := Placed(row, g, seedId, |row|);
    assert forall i | 0 <= i < |row| :: placed[i] == SpotAt(row, g, seedId, i);
  }

  lemma EarlierBlock(before: seq<Spot>, at: nat, row: seq<Person>, g: int, last: seq<Person>, h: int, seedId: int)
    requires Stand(before, at, row, g, seedId) && h != g
    ensures Stand(before + Placed(last, h, seedId, |last|), at, row, g, seedId)
  {
    hide Placed;
    var placed := Placed(last, h, seedId, |last|);
    assert forall i | 0 <= i < |last| :: placed[i].generation == h;
  }

  // For every tree as sent, the rows of the page read off the tree's lists.
  lemma RowReads(t: Tree, g: int) returns (at: nat)
    requires Sent(t)
    ensures Stand(Spots(t), at, Row(t, g), g, t.seed.id)
  {
    hide Sent, Entries, Ordered, Positioned, Sorted, Row, RowOf;
    var entries := Entries(t);
    var gens := Sorted(GenerationsOf(entries));
    RowsKeys(entries);
    OrderedRow(t, g);
    if g in gens {
      at := BlockOf(RowsOf(entries), gens, t.seed.id, g);
    } else {
      at := |Spots(t)|;
      AbsentRow(entries, g);
      SeedHasRow(t);
      assert Ordered(RowOf(entries, g), g) == [] by { EmptyRow(g); }
      forall k | 0 <= k < |Spots(t)|
        ensures Spots(t)[k].generation != g
      {
        PlacedFrom(RowsOf(entries), gens, t.seed.id, k);
      }
    }
  }

  lemma SeedHasRow(t: Tree)
    ensures 0 in GenerationsOf(Entries(t))
  {
    assert Entries(t)[0] == SeedEntry(t);
  }

  lemma EmptyRow(g: int)
    ensures Ordered([], g) == []
  {
  }

  // ---- What that says of one person and of two ----

  lemma {:induction false} OnlyMembers(persons: seq<Person>, keep: Person -> bool, p: Person)
    ensures p in Only(persons, keep) <==> p in persons && keep(p)
  {
    if persons != [] {
      OnlyMembers(persons[..|persons| - 1], keep, p);
      assert persons == persons[..|persons| - 1] + [persons[|persons| - 1]];
    }
  }

  // Where two of those kept stand among them.
  lemma {:induction false} OnlyOrder(persons: seq<Person>, keep: Person -> bool, i: nat, j: nat) returns (a: nat, b: nat)
    requires i < j < |persons| && keep(persons[i]) && keep(persons[j])
    ensures a < b < |Only(persons, keep)| && Only(persons, keep)[a] == persons[i] && Only(persons, keep)[b] == persons[j]
  {
    var n := |persons| - 1;
    if j < n {
      a, b := OnlyOrder(persons[..n], keep, i, j);
    } else {
      OnlyMembers(persons[..n], keep, persons[i]);
      assert persons[..n][i] == persons[i];
      a :| 0 <= a < |Only(persons[..n], keep)| && Only(persons[..n], keep)[a] == persons[i];
      b := |Only(persons[..n], keep)|;
    }
  }

  ghost predicate DrawnAt(spots: seq<Spot>, k: int, p: Person, g: int) {
    && 0 <= k < |spots| && spots[k].id == p.id && spots[k].relation == p.relation
    && spots[k].generation == g && spots[k].y == 130 * g
  }

  lemma Row0Members(t: Tree, p: Person)
    ensures p in Row(t, 0) <==>
      p == SeedEntry(t).person || (p in BesideSeed(t) && (SaysSibling(p) || SaysPartner(p)))
  {
    hide BesideSeed, Only, Reversed, SeedEntry;
    OnlyMembers(BesideSeed(t), SaysSibling, p);
    OnlyMembers(BesideSeed(t), SaysPartner, p);
    ReversedMembers(Only(BesideSeed(t), SaysSibling), p);
  }

  // Beside the seed stand exactly those of a relation the page names.
  lemma DrawnBesideIff(t: Tree, p: Person)
    requires Sent(t) && p in BesideSeed(t)
    ensures (exists k :: DrawnAt(Spots(t), k, p, 0)) <==> SaysSibling(p) || SaysPartner(p)
  {
    hide Spots, Sent, BesideSeed, Row;
    var row := Row(t, 0);
    var at := RowReads(t, 0);
    Row0Members(t, p);
    BesideNotSelf(t);
    if SaysSibling(p) || SaysPartner(p) {
      var i :| 0 <= i < |row| && row[i] == p;
      assert DrawnAt(Spots(t), at + i, p, 0);
    }
    if k :| DrawnAt(Spots(t), k, p, 0) {
      var q := row[k - at];
      assert q in row && q.relation == p.relation;
      Row0Members(t, q);
    }
  }

  // Kin stand in their row, 130 pixels a generation.
  lemma KinIsDrawn(t: Tree, p: Person, g: int)
    requires Sent(t) && g != 0 && p in Kin(t, g) && p.depth == Abs(g)
    ensures exists k :: DrawnAt(Spots(t), k, p, g)
  {
    hide Spots, Sent;
    var at := RowReads(t, g);
    OnlyMembers(Kin(t, g), (q: Person) => q.depth == Abs(g), p);
    var i :| 0 <= i < |Row(t, g)| && Row(t, g)[i] == p;
    assert DrawnAt(Spots(t), at + i, p, g);
  }

  ghost predicate ColumnLeftOf(spots: seq<Spot>, p: Person, q: Person, g: int) {
    exists k, l :: DrawnAt(spots, k, p, g) && DrawnAt(spots, l, q, g) && spots[k].x + 260 <= spots[l].x
  }

  lemma RowRunsRight(t: Tree, g: int, a: nat, b: nat)
    requires Sent(t) && a < b < |Row(t, g)|
    ensures ColumnLeftOf(Spots(t), Row(t, g)[a], Row(t, g)[b], g)
  {
    hide Spots, Sent, Row;
    var at := RowReads(t, g);
    assert DrawnAt(Spots(t), at + a, Row(t, g)[a], g) && DrawnAt(Spots(t), at + b, Row(t, g)[b], g);
  }

  // Of two people in one list and row the later stands to the right, but of two siblings
  // to the left.
  lemma KinRunRight(t: Tree, g: int, i: nat, j: nat)
    requires Sent(t) && g != 0 && i < j < |Kin(t, g)| && Kin(t, g)[i].depth == Kin(t, g)[j].depth == Abs(g)
    ensures ColumnLeftOf(Spots(t), Kin(t, g)[i], Kin(t, g)[j], g)
  {
    hide Spots, Sent, Kin;
    var a, b := OnlyOrder(Kin(t, g), (p: Person) => p.depth == Abs(g), i, j);
    RowRunsRight(t, g, a, b);
  }

  lemma PartnersRunRight(t: Tree, i: nat, j: nat)
    requires Sent(t) && i < j < |BesideSeed(t)| && SaysPartner(BesideSeed(t)[i]) && SaysPartner(BesideSeed(t)[j])
    ensures ColumnLeftOf(Spots(t), BesideSeed(t)[i], BesideSeed(t)[j], 0)
  {
    hide Spots, Sent, BesideSeed, Only, Reversed;
    var a, b := OnlyOrder(BesideSeed(t), SaysPartner, i, j);
    var left := |Only(BesideSeed(t), SaysSibling)| + 1;
    RowRunsRight(t, 0, left + a, left + b);
  }

  lemma SiblingsRunLeft(t: Tree, i: nat, j: nat)
    requires Sent(t) && i < j < |BesideSeed(t)| && SaysSibling(BesideSeed(t)[i]) && SaysSibling(BesideSeed(t)[j])
    ensures ColumnLeftOf(Spots(t), BesideSeed(t)[j], BesideSeed(t)[i], 0)
  {
    hide Spots, Sent, BesideSeed, Only;
    var a, b := OnlyOrder(BesideSeed(t), SaysSibling, i, j);
    var n := |Only(BesideSeed(t), SaysSibling)|;
    RowRunsRight(t, 0, n - 1 - b, n - 1 - a);
  }

  // Left of the seed by whole columns stand the siblings, right of it the partners, and
  // the seed alone has the focus.
  lemma SidesOfSeed(t: Tree, k: nat)
    requires Sent(t) && k < |Spots(t)|
    ensures var spots, seed := Spots(t), SeedAt(t, Spots(t));
      && seed < |spots| && (spots[k].focus <==> k == seed)
      && (spots[k].generation == 0 ==>
            && (spots[k].x + 260 <= spots[seed].x <==> spots[k].relation in {"sibling", "half_sibling"})
            && (spots[seed].x + 260 <= spots[k].x
                <==> spots[k].relation in {"spouse", "former_spouse", "concubine", "betrothed"})
            && (k == seed <==> spots[k].relation == "self"))
  {
    hide Spots, Sent, BesideSeed, SeedAt, Row, Only;
    var at := RowReads(t, 0);
    var n := |Only(BesideSeed(t), SaysSibling)|;
    SeedInRow(t);
    assert Spots(t)[at + n].id == t.seed.id;
    FocusIsSeed(t, at + n);
    FocusIsSeed(t, k);
    if Spots(t)[k].generation == 0 {
      var i := k - at;
      assert Spots(t)[at + i].relation == Row(t, 0)[i].relation;
      RowSides(t, i);
    }
  }

  lemma FocusIsSeed(t: Tree, k: nat)
    requires Sent(t) && k < |Spots(t)|
    ensures var seed := SeedAt(t, Spots(t)); seed < |Spots(t)| && (Spots(t)[k].focus <==> k == seed)
    ensures Spots(t)[k].focus <==> Spots(t)[k].id == t.seed.id
  {
    hide Spots, Sent, Row, SeedAt;
    TreeStands(t);
    SeedAtIsSeed(t, Spots(t));
    var own := RowReads(t, Spots(t)[k].generation);
    var i := k - own;
    assert Spots(t)[own + i].id == Row(t, Spots(t)[k].generation)[i].id;
  }

  lemma SeedInRow(t: Tree)
    ensures var n := |Only(BesideSeed(t), SaysSibling)|;
      n < |Row(t, 0)| && Row(t, 0)[n].id == t.seed.id && Row(t, 0)[n].relation == "self"
  {
  }

  lemma RowSides(t: Tree, i: nat)
    requires i < |Row(t, 0)|
    ensures var n, p := |Only(BesideSeed(t), SaysSibling)|, Row(t, 0)[i];
      && (i < n ==> SaysSibling(p)) && (i == n ==> SaysSelf(p)) && (i > n ==> SaysPartner(p))
  {
    hide BesideSeed, Only;
    var a, b := Only(BesideSeed(t), SaysSibling), Only(BesideSeed(t), SaysPartner);
    var n := |a|;
    if i < n {
      OnlyMembers(BesideSeed(t), SaysSibling, a[n - 1 - i]);
    } else if i > n {
      OnlyMembers(BesideSeed(t), SaysPartner, b[i - n - 1]);
    }
  }
}
