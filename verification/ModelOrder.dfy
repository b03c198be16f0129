/** The default model of a provider (src/foundations/models-catalog.ts): five comparators one behind the other,
    a stable sort, and its first element. `collate` is the locale's comparison of ids, which need not tell
    every two ids apart. */
module ModelOrder {
  /** A scored candidate. */
  datatype Model = Model(id: string, score: int, generation: seq<nat>, context: nat)

  type Comparator = (Model, Model) -> int

  // ---- Generations

  function Part(g: seq<nat>, i: nat): nat {
    if i < |g| then g[i] else 0
  }

  /** The first difference from position `i` on, below `n`. */
  function DifferenceFrom(a: seq<nat>, b: seq<nat>, i: nat, n: nat): int
    requires i <= n
    decreases n - i
  {
    if i == n then 0
    else if Part(a, i) != Part(b, i) then Part(a, i) - Part(b, i)
    else DifferenceFrom(a, b, i + 1, n)
  }

  function Longer(a: seq<nat>, b: seq<nat>): nat {
    if |a| < |b| then |b| else |a|
  }

  function Difference(a: seq<nat>, b: seq<nat>): int {
    DifferenceFrom(a, b, 0, Longer(a, b))
  }

  method CompareGenerations(a: seq<nat>, b: seq<nat>) returns (d: int)
    ensures d == Difference(a, b)
  {
    var maxLen := Longer(a, b);
    for i := 0 to maxLen
      invariant Difference(a, b) == DifferenceFrom(a, b, i, maxLen)
    {
      var valA: int := if i < |a| then a[i] else 0;
      var valB: int := if i < |b| then b[i] else 0;
      if valA != valB {
        return valA - valB;
      }
    }
    return 0;
  }

  /** Without its trailing zeros. */
  function Trimmed(g: seq<nat>): seq<nat> {
    if g != [] && g[|g| - 1] == 0 then Trimmed(g[..|g| - 1]) else g
  }

  /** Lexicographic order, in which a proper prefix comes first. */
  function Lexicographic(a: seq<nat>, b: seq<nat>): int {
    if a == [] && b == [] then 0
    else if a == [] then -1
    else if b == [] then 1
    else if a[0] != b[0] then a[0] - b[0]
    else Lexicographic(a[1..], b[1..])
  }

  predicate SameSign(x: int, y: int) {
    (x < 0 <==> y < 0) && (x > 0 <==> y > 0)
  }

  lemma {:induction false} TrimmedParts(g: seq<nat>, i: nat)
    ensures Part(Trimmed(g), i) == Part(g, i)
    ensures Trimmed(g) != [] ==> Trimmed(g)[|Trimmed(g)| - 1] != 0
  {
    if g != [] && g[|g| - 1] == 0 {
      TrimmedParts(g[..|g| - 1], i);
    }
  }

  /** More positions, all zero on both sides, change nothing. */
  lemma {:induction false} DifferenceStable(a: seq<nat>, b: seq<nat>, i: nat, n: nat, m: nat)
    requires i <= n <= m && |a| <= n && |b| <= n
    ensures DifferenceFrom(a, b, i, n) == DifferenceFrom(a, b, i, m)
    decreases m - i
  {
    if i < n {
      DifferenceStable(a, b, i + 1, n, m);
    } else if i < m {
      DifferenceStable(a, b, i + 1, n + 1, m);
    }
  }

  lemma {:induction false} SameParts(a: seq<nat>, b: seq<nat>, c: seq<nat>, d: seq<nat>, i: nat, n: nat)
    requires i <= n && forall k: nat :: Part(a, k) == Part(c, k) && Part(b, k) == Part(d, k)
    ensures DifferenceFrom(a, b, i, n) == DifferenceFrom(c, d, i, n)
    decreases n - i
  {
    if i < n {
      SameParts(a, b, c, d, i + 1, n);
    }
  }

  lemma {:induction false} DifferenceShift(a: seq<nat>, b: seq<nat>, i: nat, n: nat)
    requires a != [] && b != [] && 1 <= i <= n
    ensures DifferenceFrom(a, b, i, n) == DifferenceFrom(a[1..], b[1..], i - 1, n - 1)
    decreases n - i
  {
    if i < n {
      DifferenceShift(a, b, i + 1, n);
    }
  }

  lemma {:induction false} OneEmpty(b: seq<nat>, i: nat, n: nat)
    requires |b| == n && i < n && b[n - 1] != 0
    ensures DifferenceFrom([], b, i, n) < 0 && DifferenceFrom(b, [], i, n) > 0
    decreases n - i
  {
    if i + 1 < n {
      OneEmpty(b, i + 1, n);
    }
  }

  lemma {:induction false} DifferenceIsLexicographic(a: seq<nat>, b: seq<nat>)
    requires a != [] ==> a[|a| - 1] != 0
    requires b != [] ==> b[|b| - 1] != 0
    ensures SameSign(Difference(a, b), Lexicographic(a, b))
  {
    if a == [] && b != [] {
      OneEmpty(b, 0, |b|);
    } else if b == [] && a != [] {
      OneEmpty(a, 0, |a|);
    } else if a != [] && a[0] == b[0] {
      DifferenceShift(a, b, 1, Longer(a, b));
      DifferenceIsLexicographic(a[1..], b[1..]);
    }
  }

  /** The generation comparison is lexicographic comparison with trailing zeros ignored. */
  lemma GenerationsLexicographic(a: seq<nat>, b: seq<nat>)
    ensures SameSign(Difference(a, b), Lexicographic(Trimmed(a), Trimmed(b)))
  {
    var s, t := Trimmed(a), Trimmed(b);
    forall k: nat ensures Part(s, k) == Part(a, k) && Part(t, k) == Part(b, k) {
      TrimmedParts(a, k);
      TrimmedParts(b, k);
    }
    TrimmedParts(a, 0);
    TrimmedParts(b, 0);
    var n := Longer(a, b) + Longer(s, t);
    DifferenceStable(a, b, 0, Longer(a, b), n);
    DifferenceStable(s, t, 0, Longer(s, t), n);
    SameParts(a, b, s, t, 0, n);
    DifferenceIsLexicographic(s, t);
  }

  lemma {:induction false} DifferenceConsistentFrom(a: seq<nat>, b: seq<nat>, c: seq<nat>, i: nat, n: nat)
    requires i <= n
    ensures DifferenceFrom(a, b, i, n) == -DifferenceFrom(b, a, i, n)
    ensures DifferenceFrom(a, b, i, n) >= 0 && DifferenceFrom(b, c, i, n) >= 0 ==> DifferenceFrom(a, c, i, n) >= 0
    decreases n - i
  {
    if i < n {
      DifferenceConsistentFrom(a, b, c, i + 1, n);
    }
  }

  lemma DifferenceConsistent(a: seq<nat>, b: seq<nat>, c: seq<nat>)
    ensures Difference(a, b) == -Difference(b, a)
    ensures Difference(a, b) >= 0 && Difference(b, c) >= 0 ==> Difference(a, c) >= 0
  {
    var n := |a| + |b| + |c|;
    DifferenceStable(a, b, 0, Longer(a, b), n);
    DifferenceStable(b, a, 0, Longer(b, a), n);
    DifferenceStable(b, c, 0, Longer(b, c), n);
    DifferenceStable(a, c, 0, Longer(a, c), n);
    DifferenceConsistentFrom(a, b, c, 0, n);
  }

  // ---- Comparators

  /** A total preorder: what a sort may rely on. */
  ghost predicate Consistent(c: Comparator) {
    && (forall x, y :: c(x, y) > 0 <==> c(y, x) < 0)
    && (forall x, y, z :: c(x, y) >= 0 && c(y, z) >= 0 ==> c(x, z) >= 0)
  }

  function Then(first: Comparator, second: Comparator): Comparator {
    (x, y) => if first(x, y) != 0 then first(x, y) else second(x, y)
  }

  lemma ThenConsistent(first: Comparator, second: Comparator)
    requires Consistent(first) && Consistent(second)
    ensures Consistent(Then(first, second))
  {
    var c := Then(first, second);
    forall x, y, z | c(x, y) >= 0 && c(y, z) >= 0 ensures c(x, z) >= 0 {
      assert first(x, y) >= 0 && first(y, z) >= 0;
      assert first(x, z) == 0 ==> first(z, x) >= 0;
      assert first(z, x) >= 0 && first(x, y) >= 0 ==> first(z, y) >= 0;
      assert first(y, z) >= 0 && first(z, x) >= 0 ==> first(y, x) >= 0;
    }
  }

  function ByScore(): Comparator { (x: Model, y: Model) => x.score - y.score }
  function ByGeneration(): Comparator { (x: Model, y: Model) => Difference(x.generation, y.generation) }
  function ByContext(): Comparator { (x: Model, y: Model) => x.context - y.context }
  function ByShortId(): Comparator { (x: Model, y: Model) => |y.id| - |x.id| }
  function ById(collate: (string, string) -> int): Comparator { (x: Model, y: Model) => collate(x.id, y.id) }

  /** Positive when the first is the better one. */
  function Better(collate: (string, string) -> int): Comparator {
    Then(ByScore(), Then(ByGeneration(), Then(ByContext(), Then(ByShortId(), ById(collate)))))
  }

  /** What a locale's comparison is: a total preorder on strings. */
  ghost predicate Collation(collate: (string, string) -> int) {
    && (forall s, t :: collate(s, t) > 0 <==> collate(t, s) < 0)
    && (forall s, t, u :: collate(s, t) >= 0 && collate(t, u) >= 0 ==> collate(s, u) >= 0)
  }

  /** The chain is a consistent order, so sorting by it is well defined. */
  lemma BetterConsistent(collate: (string, string) -> int)
    requires Collation(collate)
    ensures Consistent(Better(collate))
  {
    GenerationConsistent();
    IdConsistent(collate);
    assert Consistent(ByScore()) && Consistent(ByContext()) && Consistent(ByShortId());
    ThenConsistent(ByShortId(), ById(collate));
    ThenConsistent(ByContext(), Then(ByShortId(), ById(collate)));
    ThenConsistent(ByGeneration(), Then(ByContext(), Then(ByShortId(), ById(collate))));
    ThenConsistent(ByScore(), Then(ByGeneration(), Then(ByContext(), Then(ByShortId(), ById(collate)))));
  }

  lemma IdConsistent(collate: (string, string) -> int)
    requires Collation(collate)
    ensures Consistent(ById(collate))
  {
    var c := ById(collate);
    forall x, y ensures c(x, y) > 0 <==> c(y, x) < 0 {
      assert collate(x.id, y.id) > 0 <==> collate(y.id, x.id) < 0;
    }
    forall x, y, z | c(x, y) >= 0 && c(y, z) >= 0 ensures c(x, z) >= 0 {
      assert collate(x.id, y.id) >= 0 && collate(y.id, z.id) >= 0;
    }
  }

  lemma GenerationConsistent()
    ensures Consistent(ByGeneration())
  {
    forall x: Model, y: Model, z: Model
      ensures Difference(x.generation, y.generation) == -Difference(y.generation, x.generation)
      ensures Difference(x.generation, y.generation) >= 0 && Difference(y.generation, z.generation) >= 0 ==>
                Difference(x.generation, z.generation) >= 0
    {
      DifferenceConsistent(x.generation, y.generation, z.generation);
    }
  }

  // ---- The choice

  /** `sort` is stable, so its first element is the earliest of the best. */
  function Chosen(better: Comparator, catalog: seq<Model>): Model
    requires catalog != []
  {
    if |catalog| == 1 then catalog[0]
    else
      var before := Chosen(better, catalog[..|catalog| - 1]);
      if better(catalog[|catalog| - 1], before) > 0 then catalog[|catalog| - 1] else before
  }

  predicate Best(better: Comparator, catalog: seq<Model>, m: Model) {
    m in catalog && forall x :: x in catalog ==> better(m, x) >= 0
  }

  /** Best first. */
  predicate Sorted(better: Comparator, s: seq<Model>) {
    forall i, j :: 0 <= i < j < |s| ==> better(s[i], s[j]) >= 0
  }

  /** Whatever the sort, its first element is one of the best. */
  lemma HeadOfSorted(better: Comparator, catalog: seq<Model>, s: seq<Model>)
    requires Consistent(better) && s != [] && Reordered(catalog, s) && Sorted(better, s)
    ensures Best(better, catalog, s[0])
  {
    SameMembers(catalog, s);
    forall x | x in catalog ensures better(s[0], x) >= 0 {
      var j :| 0 <= j < |s| && s[j] == x;
      assert better(s[0], s[0]) > 0 <==> better(s[0], s[0]) < 0;
    }
  }

  lemma {:induction false} ChosenIsBest(better: Comparator, catalog: seq<Model>)
    requires Consistent(better) && catalog != []
    ensures Best(better, catalog, Chosen(better, catalog))
  {
    var m := Chosen(better, catalog);
    if |catalog| == 1 {
      assert better(m, m) >= 0 by { assert better(m, m) > 0 <==> better(m, m) < 0; }
    } else {
      var n := |catalog| - 1;
      var before, last := Chosen(better, catalog[..n]), catalog[n];
      ChosenIsBest(better, catalog[..n]);
      assert catalog == catalog[..n] + [last];
      assert better(m, m) >= 0 by { assert better(m, m) > 0 <==> better(m, m) < 0; }
      forall x | x in catalog ensures better(m, x) >= 0 {
        if x in catalog[..n] {
          assert better(before, x) >= 0;
          assert better(m, before) >= 0 by { assert better(before, before) > 0 <==> better(before, before) < 0; }
        } else {
          assert x == last;
          assert better(last, before) > 0 <==> better(before, last) < 0;
        }
      }
    }
  }

  lemma {:induction false} ChosenEarliest(better: Comparator, catalog: seq<Model>, m: Model)
    requires Consistent(better) && Best(better, [m] + catalog, m)
    ensures Chosen(better, [m] + catalog) == m
    decreases |catalog|
  {
    if catalog != [] {
      var n := |catalog| - 1;
      assert ([m] + catalog)[..n + 1] == [m] + catalog[..n];
      forall x | x in [m] + catalog[..n] ensures better(m, x) >= 0 {
        assert x in [m] + catalog;
      }
      ChosenEarliest(better, catalog[..n], m);
      assert catalog[n] in [m] + catalog;
      assert better(catalog[n], m) > 0 <==> better(m, catalog[n]) < 0;
    }
  }

  /** The same catalogue in another order. */
  predicate Reordered(a: seq<Model>, b: seq<Model>) {
    multiset(a) == multiset(b)
  }

  lemma SameMembers(a: seq<Model>, b: seq<Model>)
    requires Reordered(a, b)
    ensures forall x :: x in a <==> x in b
  {
    assert forall x :: x in a <==> x in multiset(a);
    assert forall x :: x in b <==> x in multiset(b);
  }

  /** The exact condition for the order of the catalogue not to matter: no two candidates tie for best. */
  lemma OrderDoesNotMatterExactly(collate: (string, string) -> int, catalog: seq<Model>)
    requires Collation(collate) && catalog != []
    ensures (forall other :: other != [] && Reordered(catalog, other) ==>
               Chosen(Better(collate), other) == Chosen(Better(collate), catalog))
       <==> (forall x, y :: Best(Better(collate), catalog, x) && Best(Better(collate), catalog, y) ==> x == y)
  {
    var better := Better(collate);
    BetterConsistent(collate);
    if forall x, y :: Best(better, catalog, x) && Best(better, catalog, y) ==> x == y {
      forall other | other != [] && Reordered(catalog, other) ensures Chosen(better, other) == Chosen(better, catalog) {
        SameMembers(catalog, other);
        ChosenIsBest(better, other);
        ChosenIsBest(better, catalog);
        assert Best(better, catalog, Chosen(better, other));
      }
    } else {
      var x, y :| Best(better, catalog, x) && Best(better, catalog, y) && x != y;
      var first := BestFirst(better, catalog, x);
      var second := BestFirst(better, catalog, y);
    }
  }

  /** An order in which one of the best stands first. */
  lemma BestFirst(better: Comparator, catalog: seq<Model>, m: Model) returns (other: seq<Model>)
    requires Consistent(better) && Best(better, catalog, m)
    ensures other != [] && Reordered(catalog, other) && Chosen(better, other) == m
  {
    var i :| 0 <= i < |catalog| && catalog[i] == m;
    var rest := catalog[..i] + catalog[i + 1..];
    other := [m] + rest;
    assert catalog == catalog[..i] + ([m] + catalog[i + 1..]);
    SameMembers(catalog, other);
    assert Best(better, other, m);
    ChosenEarliest(better, rest, m);
  }

  /** With distinct ids the order matters only when the locale cannot tell two ids of one length apart. */
  lemma DistinctIdsSuffice(collate: (string, string) -> int, catalog: seq<Model>)
    requires Collation(collate) && catalog != []
    requires forall x, y :: x in catalog && y in catalog && x != y ==> x.id != y.id && collate(x.id, y.id) != 0
    ensures forall other :: other != [] && Reordered(catalog, other) ==>
              Chosen(Better(collate), other) == Chosen(Better(collate), catalog)
  {
    var better := Better(collate);
    BetterConsistent(collate);
    forall x, y | Best(better, catalog, x) && Best(better, catalog, y) ensures x == y {
      TieMeans(collate, x, y);
    }
    OrderDoesNotMatterExactly(collate, catalog);
  }

  /** Two models tie only when all five comparators say so. */
  lemma TieMeans(collate: (string, string) -> int, x: Model, y: Model)
    requires Consistent(Better(collate)) && Better(collate)(x, y) >= 0 && Better(collate)(y, x) >= 0
    ensures x.score == y.score && x.context == y.context && |x.id| == |y.id| && collate(x.id, y.id) == 0
    ensures Difference(x.generation, y.generation) == 0
  {
    assert Better(collate)(x, y) > 0 <==> Better(collate)(y, x) < 0;
  }
}
