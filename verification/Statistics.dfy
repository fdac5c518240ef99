/** Holm's step-down correction and the bootstrap estimates, over real numbers. */
module Statistics {
  import opened Sorting

  // -- Holm's step-down procedure -----------------------------------------------------------

  /** A dictionary as its items in insertion order. */
  ghost predicate DistinctNames(items: seq<(string, real)>) {
    forall i, j :: 0 <= i < j < |items| ==> items[i].0 != items[j].0
  }

  ghost function Table(items: seq<(string, real)>): map<string, real> {
    map i | 0 <= i < |items| && FirstAt(items, i) :: items[i].0 := items[i].1
  }

  ghost predicate FirstAt(items: seq<(string, real)>, i: nat)
    requires i < |items|
  {
    forall j :: 0 <= j < i ==> items[j].0 != items[i].0
  }

  /** `names` is the dictionary's insertion order. */
  ghost predicate Listing(pvalues: map<string, real>, names: seq<string>) {
    && (forall h :: h in names <==> h in pvalues)
    && (forall i, j :: 0 <= i < j < |names| ==> names[i] != names[j])
  }

  function Items(pvalues: map<string, real>, names: seq<string>): seq<(string, real)>
    requires forall h :: h in names ==> h in pvalues
  {
    seq(|names|, i requires 0 <= i < |names| => (names[i], pvalues[names[i]]))
  }

  lemma ItemsFacts(pvalues: map<string, real>, names: seq<string>)
    requires Listing(pvalues, names)
    ensures DistinctNames(Items(pvalues, names)) && Table(Items(pvalues, names)) == pvalues
  {
    hide Table;
    var items := Items(pvalues, names);
    forall i, j | 0 <= i < j < |items| ensures items[i].0 != items[j].0 { assert names[i] != names[j]; }
    forall h | h in pvalues ensures h in Table(items) && Table(items)[h] == pvalues[h] {
      assert h in names;
      var i :| 0 <= i < |names| && names[i] == h;
      TableAt(items, i);
    }
    forall h | h in Table(items) ensures h in pvalues { var i := TableHas(items, h); }
  }

  predicate ByP(a: (string, real), b: (string, real)) { a.1 <= b.1 }

  /** The items by ascending p-value, ties in insertion order. */
  function Ordered(pvalues: map<string, real>, names: seq<string>): seq<(string, real)>
    requires Listing(pvalues, names)
  {
    SortBy(Items(pvalues, names), (a, b) => ByP(a, b))
  }

  ghost predicate Ascending(s: seq<(string, real)>) {
    forall i, j :: 0 <= i <= j < |s| ==> s[i].1 <= s[j].1
  }

  /** The level shared among `n` hypotheses. */
  function Level(alpha: real, n: int): real
    requires n > 0
  {
    alpha / n as real
  }

  /** Within its share of the level: times their number, it is within the level. */
  lemma LevelSays(p: real, alpha: real, n: int)
    requires n > 0
    ensures p <= Level(alpha, n) <==> p * n as real <= alpha
  {
    var q, m := alpha / n as real, n as real;
    assert q * m == alpha;
    if p <= q {
      assert (q - p) * m >= 0.0;
      assert (q - p) * m == q * m - p * m;
    } else {
      assert (p - q) * m > 0.0;
      assert (p - q) * m == p * m - q * m;
    }
  }

  predicate Passes(ordered: seq<(string, real)>, alpha: real, i: nat)
    requires i < |ordered|
  {
    ordered[i].1 <= Level(alpha, |ordered| - i)
  }

  /** Position `i` and every smaller p-value before it passed its threshold. */
  ghost predicate StepsDown(ordered: seq<(string, real)>, alpha: real, i: nat)
    requires i < |ordered|
  {
    forall j :: 0 <= j <= i ==> Passes(ordered, alpha, j)
  }

  /** Position `i` is rejected exactly if it and every one before it is within the level when multiplied by
      the number of positions from it on. */
  lemma StepsDownSays(ordered: seq<(string, real)>, alpha: real, i: nat)
    requires i < |ordered|
    ensures StepsDown(ordered, alpha, i)
            <==> forall j :: 0 <= j <= i ==> ordered[j].1 * (|ordered| - j) as real <= alpha
  {
    hide Level;
    forall j | 0 <= j <= i ensures Passes(ordered, alpha, j) <==> ordered[j].1 * (|ordered| - j) as real <= alpha {
      LevelSays(ordered[j].1, alpha, |ordered| - j);
    }
  }

  /** Stepping down through the dictionary's ordered items reaches and rejects `h`. */
  ghost predicate HolmRejects(pvalues: map<string, real>, names: seq<string>, alpha: real, h: string)
    requires Listing(pvalues, names)
  {
    exists j :: 0 <= j < |Ordered(pvalues, names)| && Ordered(pvalues, names)[j].0 == h
                && StepsDown(Ordered(pvalues, names), alpha, j)
  }

  /** The verdicts step down, and they are those of the closed test exactly where a rejected p-value
      is no larger than the level; with a nonnegative level that is everywhere. */
  method HolmCorrection(pvalues: map<string, real>, names: seq<string>, alpha: real)
    returns (rejected: map<string, bool>)
    requires Listing(pvalues, names)
    ensures rejected.Keys == pvalues.Keys
    ensures forall h :: h in pvalues ==> (rejected[h] <==> HolmRejects(pvalues, names, alpha, h))
    ensures forall h :: h in pvalues ==>
              (ClosedRejects(pvalues, alpha, h) <==> rejected[h] && pvalues[h] <= alpha)
    ensures alpha >= 0.0 ==> forall h :: h in pvalues && rejected[h] ==> pvalues[h] <= alpha
  {
    hide Listing, Ordered, Ascending, DistinctNames, Table, ClosedRejects, StepsDown;
    OrderedFacts(pvalues, names);
    var ordered := Ordered(pvalues, names);
    rejected := StepDown(ordered, alpha);
    forall h | h in rejected ensures h in pvalues {
      var j :| 0 <= j < |ordered| && ordered[j].0 == h;
      TableAt(ordered, j);
    }
    forall h | h in pvalues
      ensures h in rejected && (rejected[h] <==> HolmRejects(pvalues, names, alpha, h))
      ensures ClosedRejects(pvalues, alpha, h) <==> rejected[h] && pvalues[h] <= alpha
      ensures alpha >= 0.0 && rejected[h] ==> pvalues[h] <= alpha
    {
      HolmIsClosed(pvalues, names, alpha, h);
      var j := PositionOf(pvalues, names, h);
      HolmAt(pvalues, names, alpha, j);
    }
  }

  /** The loop over the p-values in ascending order. */
  method StepDown(ordered: seq<(string, real)>, alpha: real) returns (rejected: map<string, bool>)
    requires DistinctNames(ordered)
    ensures forall j :: 0 <= j < |ordered| ==>
              ordered[j].0 in rejected && (rejected[ordered[j].0] <==> StepsDown(ordered, alpha, j))
    ensures forall h :: h in rejected ==> exists j :: 0 <= j < |ordered| && ordered[j].0 == h
  {
    hide DistinctNames, Level;
    var m := |ordered|;
    rejected := map[];
    var stillRejecting := true;
    for i := 0 to m
      invariant stillRejecting <==> forall j :: 0 <= j < i ==> Passes(ordered, alpha, j)
      invariant forall j :: 0 <= j < i ==>
                  ordered[j].0 in rejected && (rejected[ordered[j].0] <==> StepsDown(ordered, alpha, j))
      invariant forall h :: h in rejected ==> exists j :: 0 <= j < i && ordered[j].0 == h
    {
      var (name, p) := ordered[i];
      var threshold := Level(alpha, m - i);
      forall j | 0 <= j < i ensures ordered[j].0 != name { DistinctAt(ordered, j, i); }
      assert p <= threshold <==> Passes(ordered, alpha, i);
      if stillRejecting && p <= threshold {
        rejected := rejected[name := true];
      } else {
        stillRejecting := false;
        rejected := rejected[name := false];
      }
    }
  }

  // -- the closed test --------------------------------------------------------------------------

  /** Bonferroni's test of the intersection of the hypotheses in `s`: some p-value of `s` is at
      most alpha divided by their number. */
  ghost predicate BonferroniRejects(p: map<string, real>, alpha: real, s: set<string>)
    requires s != {} && s <= p.Keys
  {
    exists h :: h in s && p[h] <= Level(alpha, |s|)
  }

  /** The closed test built from it rejects `h` iff every intersection containing `h` is rejected. */
  ghost predicate ClosedRejects(p: map<string, real>, alpha: real, h: string) {
    h in p && forall s: set<string> | s <= p.Keys && h in s :: BonferroniRejects(p, alpha, s)
  }

  lemma DistinctAt(items: seq<(string, real)>, i: nat, j: nat)
    requires DistinctNames(items) && i < j < |items|
    ensures items[i].0 != items[j].0
  {}

  lemma TableAt(items: seq<(string, real)>, i: nat)
    requires DistinctNames(items) && i < |items|
    ensures items[i].0 in Table(items) && Table(items)[items[i].0] == items[i].1
  {
    assert FirstAt(items, i);
  }

  lemma TableHas(items: seq<(string, real)>, h: string) returns (i: nat)
    requires h in Table(items)
    ensures i < |items| && items[i].0 == h && items[i].1 == Table(items)[h]
  {
    i :| 0 <= i < |items| && FirstAt(items, i) && items[i].0 == h;
  }

  lemma SortedAscends(s: seq<(string, real)>)
    requires SortedBy(s, (a, b) => ByP(a, b))
    ensures Ascending(s)
  {
    forall i, j | 0 <= i < j < |s| ensures s[i].1 <= s[j].1 { assert ByP(s[i], s[j]); }
  }

  lemma OrderedItems(items: seq<(string, real)>, ordered: seq<(string, real)>)
    requires DistinctNames(items) && ordered == SortBy(items, (a, b) => ByP(a, b))
    ensures DistinctNames(ordered) && Ascending(ordered) && Table(ordered) == Table(items)
  {
    SortBySorted(items, (a, b) => ByP(a, b));
    SortedAscends(ordered);
    SameMembers(ordered, items);
    hide SortBy, SortedBy, Ascending;
    forall i, j | 0 <= i < j < |items| ensures items[i] != items[j] { DistinctAt(items, i, j); }
    RearrangedDistinct(ordered, items);
    SameDistinct(ordered, items);
    SameTable(ordered, items);
  }

  lemma OrderedFacts(pvalues: map<string, real>, names: seq<string>)
    requires Listing(pvalues, names)
    ensures var ordered := Ordered(pvalues, names);
            DistinctNames(ordered) && Ascending(ordered) && Table(ordered) == pvalues
  {
    hide Items, SortBy, Ascending, DistinctNames, Table;
    ItemsFacts(pvalues, names);
    OrderedItems(Items(pvalues, names), Ordered(pvalues, names));
  }

  lemma SameDistinct(r: seq<(string, real)>, s: seq<(string, real)>)
    requires DistinctNames(s) && forall x :: x in r <==> x in s
    requires forall i, j :: 0 <= i < j < |r| ==> r[i] != r[j]
    ensures DistinctNames(r)
  {
    forall i, j | 0 <= i < j < |r| ensures r[i].0 != r[j].0 {
      assert r[i] in s && r[j] in s;
      var a :| 0 <= a < |s| && s[a] == r[i];
      var b :| 0 <= b < |s| && s[b] == r[j];
      assert r[i] != r[j];
    }
  }

  lemma SameTable(r: seq<(string, real)>, s: seq<(string, real)>)
    requires DistinctNames(r) && DistinctNames(s) && forall x :: x in r <==> x in s
    ensures Table(r) == Table(s)
  {
    TableIn(r, s);
    TableIn(s, r);
  }

  lemma TableIn(r: seq<(string, real)>, s: seq<(string, real)>)
    requires DistinctNames(r) && DistinctNames(s) && forall x :: x in r <==> x in s
    ensures forall h :: h in Table(r) ==> h in Table(s) && Table(s)[h] == Table(r)[h]
  {
    forall h | h in Table(r) ensures h in Table(s) && Table(s)[h] == Table(r)[h] {
      var i := TableHas(r, h);
      assert r[i] in s;
      var j :| 0 <= j < |s| && s[j] == r[i];
      TableAt(s, j);
    }
  }

  lemma QuotientShrinks(alpha: real, a: nat, b: nat)
    requires 0 < a <= b && alpha >= 0.0
    ensures Level(alpha, b) <= Level(alpha, a)
  {
    var q := alpha / a as real;
    assert q * a as real == alpha;
    assert q >= 0.0;
    assert q * b as real >= q * a as real;
    assert (alpha / b as real) * b as real == alpha;
  }

  /** The names from position `j` on. */
  ghost function NamesFrom(ordered: seq<(string, real)>, j: nat): set<string>
    requires j <= |ordered|
  {
    set k | j <= k < |ordered| :: ordered[k].0
  }

  lemma {:induction false} NamesFromSize(ordered: seq<(string, real)>, j: nat)
    requires DistinctNames(ordered) && j <= |ordered|
    ensures |NamesFrom(ordered, j)| == |ordered| - j
    decreases |ordered| - j
  {
    if j < |ordered| {
      NamesFromSize(ordered, j + 1);
      assert NamesFrom(ordered, j) == NamesFrom(ordered, j + 1) + {ordered[j].0};
      assert ordered[j].0 !in NamesFrom(ordered, j + 1);
    } else {
      assert NamesFrom(ordered, j) == {};
    }
  }

  /** Passing every threshold so far, the least p-value of any set is small enough for the set. */
  lemma SteppedSetIsRejected(ordered: seq<(string, real)>, alpha: real, i: nat, s: set<string>)
    requires DistinctNames(ordered) && alpha >= 0.0 && i < |ordered| && StepsDown(ordered, alpha, i)
    requires s <= Table(ordered).Keys && ordered[i].0 in s
    ensures BonferroniRejects(Table(ordered), alpha, s)
  {
    var j := LeastIndex(ordered, s, i);
    forall h | h in s ensures h in NamesFrom(ordered, j) {
      var k := TableHas(ordered, h);
      assert k >= j;
    }
    NamesFromSize(ordered, j);
    Subset(s, NamesFrom(ordered, j));
    QuotientShrinks(alpha, |s|, |ordered| - j);
    TableAt(ordered, j);
    assert Passes(ordered, alpha, j);
  }

  lemma {:induction false} LeastIndex(ordered: seq<(string, real)>, s: set<string>, i: nat) returns (j: nat)
    requires i < |ordered| && ordered[i].0 in s
    ensures j <= i && ordered[j].0 in s && forall k :: 0 <= k < j ==> ordered[k].0 !in s
  {
    if k: nat :| k < i && ordered[k].0 in s {
      j := LeastIndex(ordered, s, k);
    } else {
      j := i;
    }
  }

  lemma Subset(a: set<string>, b: set<string>)
    requires a <= b
    ensures |a| <= |b|
  {
    assert b == a + (b - a);
  }

  /** If the set of everything from position `j` on is rejected, position `j` passed. */
  lemma TailRejectedMeansPassed(ordered: seq<(string, real)>, alpha: real, j: nat)
    requires DistinctNames(ordered) && Ascending(ordered) && j < |ordered|
    requires NamesFrom(ordered, j) <= Table(ordered).Keys && NamesFrom(ordered, j) != {}
    requires BonferroniRejects(Table(ordered), alpha, NamesFrom(ordered, j))
    ensures Passes(ordered, alpha, j)
  {
    hide Level, Table;
    NamesFromSize(ordered, j);
    var s := NamesFrom(ordered, j);
    var h :| h in s && Table(ordered)[h] <= Level(alpha, |s|);
    var k :| j <= k < |ordered| && ordered[k].0 == h;
    TableAt(ordered, k);
    assert ordered[j].1 <= ordered[k].1;
  }

  /** A p-value that is itself within the level puts every set around it within its share. */
  lemma LevelShared(ordered: seq<(string, real)>, alpha: real, i: nat, s: set<string>)
    requires DistinctNames(ordered) && alpha < 0.0 && i < |ordered| && ordered[i].1 <= alpha
    requires s <= Table(ordered).Keys && ordered[i].0 in s
    ensures BonferroniRejects(Table(ordered), alpha, s)
  {
    hide Level;
    TableAt(ordered, i);
    SharedLevel(alpha, |s|);
  }

  lemma SharedLevel(alpha: real, n: nat)
    requires alpha < 0.0 && n > 0
    ensures Level(alpha, n) >= alpha
  {
    var q, m := alpha / n as real, n as real;
    assert q * m == alpha;
    assert q <= 0.0 && m >= 1.0;
    Product(q, m - 1.0);
    assert q * m == q + q * (m - 1.0);
  }

  lemma Product(q: real, r: real)
    requires q <= 0.0 && r >= 0.0
    ensures q * r <= 0.0
  {}

  lemma LevelOfOne(alpha: real)
    ensures Level(alpha, 1) == alpha
  {}

  /** Stepping down through positions with a nonnegative level stays within the level. */
  lemma PassedWithinLevel(ordered: seq<(string, real)>, alpha: real, i: nat)
    requires alpha >= 0.0 && i < |ordered| && Passes(ordered, alpha, i)
    ensures ordered[i].1 <= alpha
  {
    QuotientShrinks(alpha, 1, |ordered| - i);
    LevelOfOne(alpha);
  }

  /** Closed Bonferroni testing is stepping down within the level, position by position. */
  lemma StepDownIsClosed(ordered: seq<(string, real)>, alpha: real, i: nat)
    requires DistinctNames(ordered) && Ascending(ordered) && i < |ordered|
    ensures ClosedRejects(Table(ordered), alpha, ordered[i].0)
            <==> StepsDown(ordered, alpha, i) && ordered[i].1 <= alpha
  {
    hide Level;
    TableAt(ordered, i);
    var p, h := Table(ordered), ordered[i].0;
    if ClosedRejects(p, alpha, h) {
      forall j | 0 <= j <= i ensures Passes(ordered, alpha, j) { ClosedPasses(ordered, alpha, i, j); }
      assert BonferroniRejects(p, alpha, {h});
      assert |{h}| == 1;
      LevelOfOne(alpha);
    }
    if StepsDown(ordered, alpha, i) && ordered[i].1 <= alpha {
      forall s: set<string> | s <= p.Keys && h in s ensures BonferroniRejects(p, alpha, s) {
        if alpha >= 0.0 {
          SteppedSetIsRejected(ordered, alpha, i, s);
        } else {
          LevelShared(ordered, alpha, i, s);
        }
      }
    }
  }

  lemma ClosedPasses(ordered: seq<(string, real)>, alpha: real, i: nat, j: nat)
    requires DistinctNames(ordered) && Ascending(ordered) && j <= i < |ordered|
    requires ClosedRejects(Table(ordered), alpha, ordered[i].0)
    ensures Passes(ordered, alpha, j)
  {
    hide Level;
    var s := NamesFrom(ordered, j);
    forall h | h in s ensures h in Table(ordered) {
      var k :| j <= k < |ordered| && ordered[k].0 == h;
      TableAt(ordered, k);
    }
    assert ordered[i].0 in s;
    assert BonferroniRejects(Table(ordered), alpha, s);
    TailRejectedMeansPassed(ordered, alpha, j);
  }

  lemma PositionOf(p: map<string, real>, names: seq<string>, h: string) returns (j: nat)
    requires Listing(p, names) && h in p
    ensures j < |Ordered(p, names)| && Ordered(p, names)[j] == (h, p[h])
  {
    hide Ordered, Listing;
    OrderedFacts(p, names);
    j := TableHas(Ordered(p, names), h);
  }

  lemma HolmAt(p: map<string, real>, names: seq<string>, alpha: real, j: nat)
    requires Listing(p, names) && j < |Ordered(p, names)|
    ensures HolmRejects(p, names, alpha, Ordered(p, names)[j].0) <==> StepsDown(Ordered(p, names), alpha, j)
  {
    hide Ordered, Listing, StepsDown;
    OrderedFacts(p, names);
    var ordered := Ordered(p, names);
    if HolmRejects(p, names, alpha, ordered[j].0) {
      var k :| 0 <= k < |ordered| && ordered[k].0 == ordered[j].0 && StepsDown(ordered, alpha, k);
      assert k == j;
    }
  }

  /** The closed test is Holm's verdict within the level, whatever the dictionary's order. */
  lemma HolmIsClosed(p: map<string, real>, names: seq<string>, alpha: real, h: string)
    requires Listing(p, names) && h in p
    ensures ClosedRejects(p, alpha, h) <==> HolmRejects(p, names, alpha, h) && p[h] <= alpha
    ensures alpha >= 0.0 && HolmRejects(p, names, alpha, h) ==> p[h] <= alpha
  {
    hide Ordered, Listing, ClosedRejects, HolmRejects;
    OrderedFacts(p, names);
    var j := PositionOf(p, names, h);
    HolmAt(p, names, alpha, j);
    StepDownIsClosed(Ordered(p, names), alpha, j);
    if alpha >= 0.0 && HolmRejects(p, names, alpha, h) { PassedWithinLevel(Ordered(p, names), alpha, j); }
  }

  /** At level -1 two p-values of -0.6 part the two tests, and make the verdict depend on the order:
      whichever hypothesis comes first is rejected by stepping down and not by the closed test. */
  lemma NegativeLevelSeparates(ordered: seq<(string, real)>, other: seq<(string, real)>)
    requires ordered == [("a", -0.6), ("b", -0.6)] && other == [("b", -0.6), ("a", -0.6)]
    ensures DistinctNames(ordered) && Ascending(ordered) && DistinctNames(other) && Ascending(other)
    ensures StepsDown(ordered, -1.0, 0) && !ClosedRejects(Table(ordered), -1.0, "a")
    ensures !StepsDown(other, -1.0, 1)
  {
    assert ordered[0].0 != ordered[1].0;
    assert Level(-1.0, 2) == -0.5 && Level(-1.0, 1) == -1.0;
    hide Level;
    assert !Passes(other, -1.0, 1);
    StepDownIsClosed(ordered, -1.0, 0);
  }

  // -- what follows for every use of the correction ------------------------------------------------

  /** Any rejection inside a set of hypotheses means that the set's least p-value is within the level
      divided by the set's size: falsely rejecting some true hypothesis is as rare as that. */
  lemma FamilywiseControl(p: map<string, real>, names: seq<string>, alpha: real, n: set<string>, h: string)
    requires Listing(p, names) && n <= p.Keys && h in n && HolmRejects(p, names, alpha, h)
    requires alpha >= 0.0 || p[h] <= alpha
    ensures exists x :: x in n && p[x] * |n| as real <= alpha
  {
    hide Listing, HolmRejects, Level;
    HolmIsClosed(p, names, alpha, h);
    assert BonferroniRejects(p, alpha, n);
    var x :| x in n && p[x] <= Level(alpha, |n|);
    LevelSays(p[x], alpha, |n|);
  }

  lemma ClosedMonotoneInP(p: map<string, real>, p': map<string, real>, alpha: real, h: string)
    requires p.Keys == p'.Keys && (forall x :: x in p ==> p'[x] <= p[x]) && ClosedRejects(p, alpha, h)
    ensures ClosedRejects(p', alpha, h)
  {
    hide Level;
    forall s: set<string> | s <= p'.Keys && h in s ensures BonferroniRejects(p', alpha, s) {
      assert BonferroniRejects(p, alpha, s);
      var x :| x in s && p[x] <= Level(alpha, |s|);
      assert x in p && p'[x] <= p[x];
    }
  }

  /** Smaller p-values only add rejections, in whatever order either dictionary lists them. */
  lemma MonotoneInP(p: map<string, real>, names: seq<string>, p': map<string, real>, names': seq<string>, alpha: real,
                    h: string)
    requires Listing(p, names) && Listing(p', names') && p.Keys == p'.Keys && h in p
    requires (forall x :: x in p ==> p'[x] <= p[x]) && HolmRejects(p, names, alpha, h)
    requires alpha >= 0.0 || p[h] <= alpha
    ensures HolmRejects(p', names', alpha, h)
  {
    hide Listing, HolmRejects, ClosedRejects;
    HolmIsClosed(p, names, alpha, h);
    ClosedMonotoneInP(p, p', alpha, h);
    HolmIsClosed(p', names', alpha, h);
  }

  lemma ClosedMonotoneInAlpha(p: map<string, real>, alpha: real, alpha': real, h: string)
    requires alpha <= alpha' && ClosedRejects(p, alpha, h)
    ensures ClosedRejects(p, alpha', h)
  {
    hide Level;
    forall s: set<string> | s <= p.Keys && h in s ensures BonferroniRejects(p, alpha', s) {
      assert BonferroniRejects(p, alpha, s);
      var x :| x in s && p[x] <= Level(alpha, |s|);
      QuotientGrows(alpha, alpha', |s|);
    }
  }

  lemma QuotientGrows(alpha: real, alpha': real, n: nat)
    requires alpha <= alpha' && n > 0
    ensures Level(alpha, n) <= Level(alpha', n)
  {
    assert (alpha / n as real) * n as real == alpha && (alpha' / n as real) * n as real == alpha';
  }

  /** A higher level only adds rejections. */
  lemma MonotoneInAlpha(p: map<string, real>, names: seq<string>, alpha: real, alpha': real, h: string)
    requires Listing(p, names) && h in p && alpha <= alpha' && HolmRejects(p, names, alpha, h)
    requires alpha >= 0.0 || p[h] <= alpha
    ensures HolmRejects(p, names, alpha', h)
  {
    hide Listing, HolmRejects, ClosedRejects;
    HolmIsClosed(p, names, alpha, h);
    ClosedMonotoneInAlpha(p, alpha, alpha', h);
    HolmIsClosed(p, names, alpha', h);
  }

  lemma BonferroniCloses(p: map<string, real>, alpha: real, h: string)
    requires alpha >= 0.0 && h in p && p[h] <= Level(alpha, |p|)
    ensures ClosedRejects(p, alpha, h)
  {
    forall s: set<string> | s <= p.Keys && h in s ensures BonferroniRejects(p, alpha, s) {
      Subset(s, p.Keys);
      QuotientShrinks(alpha, |s|, |p|);
    }
  }

  /** It rejects at least what plain Bonferroni rejects, and nothing above the level. */
  lemma BetweenBonferroniAndUncorrected(p: map<string, real>, names: seq<string>, alpha: real, h: string)
    requires Listing(p, names) && alpha >= 0.0 && h in p
    ensures p[h] * |p| as real <= alpha ==> HolmRejects(p, names, alpha, h)
    ensures HolmRejects(p, names, alpha, h) ==> p[h] <= alpha
  {
    hide Listing, HolmRejects, ClosedRejects, Level;
    HolmIsClosed(p, names, alpha, h);
    assert |p.Keys| == |p| && p.Keys != {};
    LevelSays(p[h], alpha, |p|);
    if p[h] <= Level(alpha, |p|) { BonferroniCloses(p, alpha, h); }
  }

  /** The verdict depends on the dictionary and not on the order it lists its hypotheses in. */
  lemma OrderIsIrrelevant(p: map<string, real>, names: seq<string>, names': seq<string>, alpha: real, h: string)
    requires Listing(p, names) && Listing(p, names') && h in p && (alpha >= 0.0 || p[h] <= alpha)
    ensures HolmRejects(p, names, alpha, h) <==> HolmRejects(p, names', alpha, h)
  {
    hide Listing, HolmRejects, ClosedRejects;
    HolmIsClosed(p, names, alpha, h);
    HolmIsClosed(p, names', alpha, h);
  }
}
