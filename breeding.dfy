/** The breeding season: the three strategies that turn a tick's emergent
    adults into offspring counts per genotype (cicada.py, HybridModel.breed,
    Proportional.breed and RealSex.breed).

    Each strategy is given twice: a specification function that says what the
    offspring count of one genotype is, and a method with the source's loops
    that builds the offspring mapping and is proved to agree with it.
    Arithmetic is exact: rates are `real`, and every `math.floor` is `.Floor`. */
module Breeding {

  /** One entry of the emergent list: a genotype (its period) and the number
      of adults of that genotype that emerged this year. */
  datatype Emergence = Emergence(genotype: int, count: int)

  /** Which subclass of the ecosystem supplies `breed`. */
  datatype Strategy = HybridModel | Proportional | RealSex

  function Min(a: int, b: int): int { if a <= b then a else b }

  /** Lookup in an offspring mapping, reading 0 for a genotype it does not set
      (the source's `defaultdict(lambda: 0)`). */
  function Get(m: map<int, real>, g: int): real { if g in m then m[g] else 0.0 }

  /** What the engine guarantees of the list it passes to `breed`. */
  predicate Positive(em: seq<Emergence>)
  {
    forall k :: 0 <= k < |em| ==> em[k].count > 0
  }

  predicate PositiveGenotypes(em: seq<Emergence>)
  {
    forall k :: 0 <= k < |em| ==> em[k].genotype > 0
  }

  predicate DistinctGenotypes(em: seq<Emergence>)
  {
    forall i, j :: 0 <= i < j < |em| ==> em[i].genotype != em[j].genotype
  }

  /** The genotypes that occur in an emergent list. */
  function Genotypes(em: seq<Emergence>): set<int>
  {
    if em == [] then {} else Genotypes(em[..|em| - 1]) + {em[|em| - 1].genotype}
  }

  /** `tot_emergent`: the number of emerging adults. */
  function Total(em: seq<Emergence>): int
  {
    if em == [] then 0 else Total(em[..|em| - 1]) + em[|em| - 1].count
  }

  lemma {:induction false} GenotypesIn(em: seq<Emergence>, k: int)
    requires 0 <= k < |em|
    ensures em[k].genotype in Genotypes(em)
  {
    var p := em[..|em| - 1];
    if k < |p| {
      assert p[k] == em[k];
      GenotypesIn(p, k);
    }
  }

  lemma {:induction false} GenotypesNotIn(em: seq<Emergence>, g: int)
    requires forall k :: 0 <= k < |em| ==> em[k].genotype != g
    ensures g !in Genotypes(em)
  {
    if em != [] {
      var p := em[..|em| - 1];
      assert forall k :: 0 <= k < |p| ==> p[k] == em[k];
      GenotypesNotIn(p, g);
    }
  }

  /** Every entry is at most the total, so a non-empty list has a positive
      total and the divisions by `tot_emergent` are defined. */
  lemma {:induction false} TotalBounds(em: seq<Emergence>, k: int)
    requires Positive(em)
    requires 0 <= k < |em|
    ensures 0 < em[k].count <= Total(em)
  {
    var p := em[..|em| - 1];
    assert Positive(p) by {
      forall i | 0 <= i < |p| ensures p[i].count > 0 {
        assert p[i] == em[i];
      }
    }
    if k < |p| {
      assert p[k] == em[k];
      TotalBounds(p, k);
    } else {
      TotalNonNegative(p);
    }
  }

  lemma {:induction false} TotalNonNegative(em: seq<Emergence>)
    requires Positive(em)
    ensures Total(em) >= 0
  {
    if em != [] {
      TotalBounds(em, |em| - 1);
    }
  }

  // ---------------------------------------------------------------------
  // HybridModel: every ordered pair breeds, the child takes the shorter period
  // ---------------------------------------------------------------------

  /** What the ordered pair (e1, e2) adds to `offspring[min(g1, g2)]`:
      floor(n1 * n2 / T * clutch_rate * min(g1, g2)). */
  function HybridTerm(e1: Emergence, e2: Emergence, t: int, c: real): int
    requires t > 0
  {
    ((e1.count * e2.count) as real / t as real * c * Min(e1.genotype, e2.genotype) as real).Floor
  }

  /** Contribution to genotype g of the pairs (e1, e2) with e2 ranging over es. */
  function HybridRow(e1: Emergence, es: seq<Emergence>, t: int, c: real, g: int): real
    requires t > 0
  {
    if es == [] then 0.0
    else
      var e2 := es[|es| - 1];
      HybridRow(e1, es[..|es| - 1], t, c, g)
        + (if Min(e1.genotype, e2.genotype) == g then HybridTerm(e1, e2, t, c) as real else 0.0)
  }

  /** Contribution to genotype g of the pairs (e1, e2), e1 in rows, e2 in es. */
  function HybridSum(rows: seq<Emergence>, es: seq<Emergence>, t: int, c: real, g: int): real
    requires t > 0
  {
    if rows == [] then 0.0
    else HybridSum(rows[..|rows| - 1], es, t, c, g) + HybridRow(rows[|rows| - 1], es, t, c, g)
  }

  /** `HybridModel.breed(emergent)[g]`: the sum, over every ordered pair of
      entries (self-pairs included), of the pair's term when its child
      genotype is g. */
  function HybridOffspring(em: seq<Emergence>, c: real, g: int): real
    requires Positive(em)
  {
    if em == [] then 0.0
    else
      TotalBounds(em, 0);
      HybridSum(em, em, Total(em), c, g)
  }

  /** The loops of `HybridModel.breed`. */
  method HybridBreed(em: seq<Emergence>, c: real) returns (offspring: map<int, real>)
    requires Positive(em)
    ensures offspring.Keys == Genotypes(em)
    ensures forall g :: Get(offspring, g) == HybridOffspring(em, c, g)
  {
    var total := 0;
    for i := 0 to |em|
      invariant total == Total(em[..i])
    {
      assert em[..i + 1][..i] == em[..i];
      total := total + em[i].count;
    }
    assert em[..|em|] == em;
    if em != [] {
      TotalBounds(em, 0);
    }
    offspring := map[];
    for i := 0 to |em|
      invariant offspring.Keys <= Genotypes(em)
      invariant Genotypes(em[..i]) <= offspring.Keys
      invariant em != [] ==> forall g :: Get(offspring, g) == HybridSum(em[..i], em, total, c, g)
    {
      assert em[..i + 1][..i] == em[..i];
      for j := 0 to |em|
        invariant offspring.Keys <= Genotypes(em)
        invariant Genotypes(em[..i]) <= offspring.Keys
        invariant j > i ==> em[i].genotype in offspring
        invariant forall g :: Get(offspring, g)
                    == HybridSum(em[..i], em, total, c, g) + HybridRow(em[i], em[..j], total, c, g)
      {
        assert em[..j + 1][..j] == em[..j];
        var child := Min(em[i].genotype, em[j].genotype);
        GenotypesIn(em, i);
        GenotypesIn(em, j);
        offspring := offspring[child := Get(offspring, child) + HybridTerm(em[i], em[j], total, c) as real];
        forall g ensures Get(offspring, g)
                         == HybridSum(em[..i], em, total, c, g) + HybridRow(em[i], em[..j + 1], total, c, g)
        {
          assert em[..j + 1][j] == em[j];
          assert HybridRow(em[i], em[..j + 1], total, c, g)
                 == HybridRow(em[i], em[..j], total, c, g)
                    + (if child == g then HybridTerm(em[i], em[j], total, c) as real else 0.0);
        }
      }
      assert em[..|em|] == em;
    }
  }

  lemma {:induction false} HybridRowZero(e1: Emergence, es: seq<Emergence>, t: int, c: real, g: int)
    requires t > 0
    requires g != e1.genotype && g !in Genotypes(es)
    ensures HybridRow(e1, es, t, c, g) == 0.0
  {
    if es != [] {
      HybridRowZero(e1, es[..|es| - 1], t, c, g);
    }
  }

  lemma {:induction false} HybridSumZero(rows: seq<Emergence>, es: seq<Emergence>, t: int, c: real, g: int)
    requires t > 0
    requires g !in Genotypes(rows) && g !in Genotypes(es)
    ensures HybridSum(rows, es, t, c, g) == 0.0
  {
    if rows != [] {
      HybridSumZero(rows[..|rows| - 1], es, t, c, g);
      HybridRowZero(rows[|rows| - 1], es, t, c, g);
    }
  }

  /** HybridModel only credits genotypes that emerged. */
  lemma HybridOnlyEmergent(em: seq<Emergence>, c: real, g: int)
    requires Positive(em)
    requires g !in Genotypes(em)
    ensures HybridOffspring(em, c, g) == 0.0
  {
    if em != [] {
      TotalBounds(em, 0);
      HybridSumZero(em, em, Total(em), c, g);
    }
  }

  lemma HybridTermNonNegative(e1: Emergence, e2: Emergence, t: int, c: real)
    requires t > 0 && c >= 0.0
    requires e1.count > 0 && e2.count > 0 && e1.genotype > 0 && e2.genotype > 0
    ensures HybridTerm(e1, e2, t, c) >= 0
  {
    var pairs := (e1.count * e2.count) as real / t as real;
    assert pairs >= 0.0;
    assert pairs * c >= 0.0;
  }

  lemma {:induction false} HybridRowNonNegative(e1: Emergence, es: seq<Emergence>, t: int, c: real, g: int)
    requires t > 0 && c >= 0.0
    requires e1.count > 0 && e1.genotype > 0
    requires Positive(es) && PositiveGenotypes(es)
    ensures HybridRow(e1, es, t, c, g) >= 0.0
  {
    if es != [] {
      var p := es[..|es| - 1];
      assert Positive(p) && PositiveGenotypes(p) by {
        forall k | 0 <= k < |p| ensures p[k].count > 0 && p[k].genotype > 0 {
          assert p[k] == es[k];
        }
      }
      HybridRowNonNegative(e1, p, t, c, g);
      HybridTermNonNegative(e1, es[|es| - 1], t, c);
    }
  }

  lemma {:induction false} HybridSumNonNegative(rows: seq<Emergence>, es: seq<Emergence>, t: int, c: real, g: int)
    requires t > 0 && c >= 0.0
    requires Positive(rows) && PositiveGenotypes(rows)
    requires Positive(es) && PositiveGenotypes(es)
    ensures HybridSum(rows, es, t, c, g) >= 0.0
  {
    if rows != [] {
      var p := rows[..|rows| - 1];
      assert Positive(p) && PositiveGenotypes(p) by {
        forall k | 0 <= k < |p| ensures p[k].count > 0 && p[k].genotype > 0 {
          assert p[k] == rows[k];
        }
      }
      HybridSumNonNegative(p, es, t, c, g);
      HybridRowNonNegative(rows[|rows| - 1], es, t, c, g);
    }
  }

  /** With a non-negative clutch rate and positive periods, every offspring
      count of HybridModel is non-negative. */
  lemma HybridNonNegative(em: seq<Emergence>, c: real, g: int)
    requires Positive(em) && PositiveGenotypes(em)
    requires c >= 0.0
    ensures HybridOffspring(em, c, g) >= 0.0
  {
    if em != [] {
      TotalBounds(em, 0);
      HybridSumNonNegative(em, em, Total(em), c, g);
    }
  }

  /** Sum of the terms of the pairs (e1, e2), e2 in es, that involve genotype g
      on either side, whatever the child's genotype. */
  function InvolvingRow(e1: Emergence, es: seq<Emergence>, t: int, c: real, g: int): real
    requires t > 0
  {
    if es == [] then 0.0
    else
      var e2 := es[|es| - 1];
      InvolvingRow(e1, es[..|es| - 1], t, c, g)
        + (if e1.genotype == g || e2.genotype == g then HybridTerm(e1, e2, t, c) as real else 0.0)
  }

  function InvolvingSum(rows: seq<Emergence>, es: seq<Emergence>, t: int, c: real, g: int): real
    requires t > 0
  {
    if rows == [] then 0.0
    else InvolvingSum(rows[..|rows| - 1], es, t, c, g) + InvolvingRow(rows[|rows| - 1], es, t, c, g)
  }

  predicate AtMost(g: int, em: seq<Emergence>)
  {
    forall k :: 0 <= k < |em| ==> g <= em[k].genotype
  }

  lemma {:induction false} SmallestRow(e1: Emergence, es: seq<Emergence>, t: int, c: real, g: int)
    requires t > 0
    requires g <= e1.genotype && AtMost(g, es)
    ensures HybridRow(e1, es, t, c, g) == InvolvingRow(e1, es, t, c, g)
  {
    if es != [] {
      var p := es[..|es| - 1];
      assert AtMost(g, p) by {
        forall k | 0 <= k < |p| ensures g <= p[k].genotype {
          assert p[k] == es[k];
        }
      }
      SmallestRow(e1, p, t, c, g);
    }
  }

  lemma {:induction false} SmallestSum(rows: seq<Emergence>, es: seq<Emergence>, t: int, c: real, g: int)
    requires t > 0
    requires AtMost(g, rows) && AtMost(g, es)
    ensures HybridSum(rows, es, t, c, g) == InvolvingSum(rows, es, t, c, g)
  {
    if rows != [] {
      var p := rows[..|rows| - 1];
      assert AtMost(g, p) by {
        forall k | 0 <= k < |p| ensures g <= p[k].genotype {
          assert p[k] == rows[k];
        }
      }
      SmallestSum(p, es, t, c, g);
      SmallestRow(rows[|rows| - 1], es, t, c, g);
    }
  }

  /** The smallest emergent genotype receives the term of every ordered pair
      in which it takes part, its own self-pairs and all cross pairs. */
  lemma HybridSmallestTakesAll(em: seq<Emergence>, c: real, g: int)
    requires Positive(em) && em != []
    requires AtMost(g, em)
    ensures Total(em) > 0
    ensures HybridOffspring(em, c, g) == InvolvingSum(em, em, Total(em), c, g)
  {
    TotalBounds(em, 0);
    SmallestSum(em, em, Total(em), c, g);
  }

  /** The two-genotype case: the shorter period gets its self-term plus the
      cross term twice (once per order of the pair); the longer period gets
      only its self-term. */
  lemma HybridTwoGenotypes(e1: Emergence, e2: Emergence, c: real)
    requires 0 < e1.count && 0 < e2.count && e1.genotype < e2.genotype
    ensures var t := e1.count + e2.count;
            && HybridOffspring([e1, e2], c, e1.genotype)
               == HybridTerm(e1, e1, t, c) as real + 2.0 * HybridTerm(e1, e2, t, c) as real
            && HybridOffspring([e1, e2], c, e2.genotype) == HybridTerm(e2, e2, t, c) as real
  {
    var em := [e1, e2];
    var t := e1.count + e2.count;
    assert em[..1] == [e1];
    assert [e1][..0] == [];
    assert Total([e1]) == e1.count;
    assert Total(em) == t;
    assert HybridTerm(e2, e1, t, c) == HybridTerm(e1, e2, t, c) by {
      assert e2.count * e1.count == e1.count * e2.count;
    }
    assert HybridRow(e1, [e1], t, c, e1.genotype) == HybridTerm(e1, e1, t, c) as real;
    assert HybridRow(e2, [e1], t, c, e1.genotype) == HybridTerm(e2, e1, t, c) as real;
    assert HybridRow(e1, [e1], t, c, e2.genotype) == 0.0;
    assert HybridRow(e2, [e1], t, c, e2.genotype) == 0.0;
    forall g ensures HybridOffspring(em, c, g) == HybridRow(e1, em, t, c, g) + HybridRow(e2, em, t, c, g) {
      assert HybridSum(em, em, t, c, g) == HybridSum([e1], em, t, c, g) + HybridRow(e2, em, t, c, g);
      assert HybridSum([e1], em, t, c, g) == HybridRow(e1, em, t, c, g);
    }
    forall e | e == e1 || e == e2
      ensures forall g :: HybridRow(e, em, t, c, g) == HybridRow(e, [e1], t, c, g)
                + (if Min(e.genotype, e2.genotype) == g then HybridTerm(e, e2, t, c) as real else 0.0)
    {
    }
  }

  /** The emergent list {(3, 10), (5, 6)} with clutch rate 2: period 3 gets
      floor(100/16 * 2 * 3) + 2 * floor(60/16 * 2 * 3) = 37 + 2 * 22, and
      period 5 gets floor(36/16 * 2 * 5) = 22. */
  lemma HybridExample()
    ensures HybridOffspring([Emergence(3, 10), Emergence(5, 6)], 2.0, 3) == 81.0
    ensures HybridOffspring([Emergence(3, 10), Emergence(5, 6)], 2.0, 5) == 22.0
  {
    var e1, e2 := Emergence(3, 10), Emergence(5, 6);
    HybridTwoGenotypes(e1, e2, 2.0);
    assert HybridTerm(e1, e1, 16, 2.0) == 37;
    assert HybridTerm(e1, e2, 16, 2.0) == 22;
    assert HybridTerm(e2, e2, 16, 2.0) == 22;
  }

  // ---------------------------------------------------------------------
  // Proportional: same genotype only, weighted by the square of its share
  // ---------------------------------------------------------------------

  /** What the entry e adds to `offspring[e.genotype]`:
      floor(n * (n / T) * clutch_rate). */
  function ProportionalTerm(e: Emergence, t: int, c: real): int
    requires t > 0
  {
    (e.count as real * (e.count as real / t as real) * c).Floor
  }

  function ProportionalSum(es: seq<Emergence>, t: int, c: real, g: int): real
    requires t > 0
  {
    if es == [] then 0.0
    else
      var e := es[|es| - 1];
      ProportionalSum(es[..|es| - 1], t, c, g) + (if e.genotype == g then ProportionalTerm(e, t, c) as real else 0.0)
  }

  /** `Proportional.breed(emergent)[g]`. */
  function ProportionalOffspring(em: seq<Emergence>, c: real, g: int): real
    requires Positive(em)
  {
    if em == [] then 0.0
    else
      TotalBounds(em, 0);
      ProportionalSum(em, Total(em), c, g)
  }

  /** The loops of `Proportional.breed`. */
  method ProportionalBreed(em: seq<Emergence>, c: real) returns (offspring: map<int, real>)
    requires Positive(em)
    ensures offspring.Keys == Genotypes(em)
    ensures forall g :: Get(offspring, g) == ProportionalOffspring(em, c, g)
  {
    var total := 0;
    for i := 0 to |em|
      invariant total == Total(em[..i])
    {
      assert em[..i + 1][..i] == em[..i];
      total := total + em[i].count;
    }
    assert em[..|em|] == em;
    if em != [] {
      TotalBounds(em, 0);
    }
    offspring := map[];
    for i := 0 to |em|
      invariant offspring.Keys == Genotypes(em[..i])
      invariant em != [] ==> forall g :: Get(offspring, g) == ProportionalSum(em[..i], total, c, g)
    {
      assert em[..i + 1][..i] == em[..i];
      offspring := offspring[em[i].genotype := Get(offspring, em[i].genotype) + ProportionalTerm(em[i], total, c) as real];
      forall g ensures Get(offspring, g) == ProportionalSum(em[..i + 1], total, c, g) {
        assert em[..i + 1][i] == em[i];
      }
    }
  }

  lemma {:induction false} ProportionalSumZero(es: seq<Emergence>, t: int, c: real, g: int)
    requires t > 0
    requires g !in Genotypes(es)
    ensures ProportionalSum(es, t, c, g) == 0.0
  {
    if es != [] {
      ProportionalSumZero(es[..|es| - 1], t, c, g);
    }
  }

  /** Proportional only credits genotypes that emerged. */
  lemma ProportionalOnlyEmergent(em: seq<Emergence>, c: real, g: int)
    requires Positive(em)
    requires g !in Genotypes(em)
    ensures ProportionalOffspring(em, c, g) == 0.0
  {
    if em != [] {
      TotalBounds(em, 0);
      ProportionalSumZero(em, Total(em), c, g);
    }
  }

  lemma {:induction false} ProportionalSumSingle(es: seq<Emergence>, t: int, c: real, k: int)
    requires t > 0
    requires DistinctGenotypes(es)
    requires 0 <= k < |es|
    ensures ProportionalSum(es, t, c, es[k].genotype) == ProportionalTerm(es[k], t, c) as real
  {
    var p := es[..|es| - 1];
    var g := es[k].genotype;
    if k == |es| - 1 {
      assert g !in Genotypes(p) by {
        forall j | 0 <= j < |p| ensures p[j].genotype != g {
          assert p[j] == es[j];
        }
        GenotypesNotIn(p, g);
      }
      ProportionalSumZero(p, t, c, g);
    } else {
      assert p[k] == es[k];
      assert DistinctGenotypes(p) by {
        forall i, j | 0 <= i < j < |p| ensures p[i].genotype != p[j].genotype {
          assert p[i] == es[i] && p[j] == es[j];
        }
      }
      ProportionalSumSingle(p, t, c, k);
    }
  }

  /** With distinct genotypes (as the engine produces), the offspring of an
      emergent genotype is floor(n * (n / T) * clutch_rate), which is at most
      n * clutch_rate because n is at most T. */
  lemma ProportionalEntry(em: seq<Emergence>, c: real, k: int)
    requires Positive(em) && DistinctGenotypes(em)
    requires 0 <= k < |em|
    requires c >= 0.0
    ensures Total(em) > 0
    ensures ProportionalOffspring(em, c, em[k].genotype) == ProportionalTerm(em[k], Total(em), c) as real
    ensures ProportionalOffspring(em, c, em[k].genotype) <= em[k].count as real * c
  {
    TotalBounds(em, k);
    var t := Total(em);
    ProportionalSumSingle(em, t, c, k);
    ProportionalTermBound(em[k], t, c);
  }

  /** A genotype's share n / T is at most 1, so its term is at most n * c. */
  lemma ProportionalTermBound(e: Emergence, t: int, c: real)
    requires 0 < e.count <= t && c >= 0.0
    ensures ProportionalTerm(e, t, c) as real <= e.count as real * c
  {
  }

  /** A lone emergent genotype gets floor(n * clutch_rate). */
  lemma ProportionalSingle(g: int, n: int, c: real)
    requires n > 0
    ensures ProportionalOffspring([Emergence(g, n)], c, g) == (n as real * c).Floor as real
  {
    var em := [Emergence(g, n)];
    assert em[..0] == [];
    assert Total(em) == n;
    assert ProportionalSum(em[..0], n, c, g) == 0.0;
    assert ProportionalSum(em, n, c, g) == ProportionalTerm(em[0], n, c) as real;
    WholeShare(n as real, c);
    assert ProportionalTerm(em[0], n, c) == (n as real * c).Floor;
  }

  lemma WholeShare(r: real, c: real)
    requires r > 0.0
    ensures r * (r / r) * c == r * c
  {
  }

  /** Six adults of period 3 and two of period 5, clutch rate 2: period 3
      gets floor(6 * 6/8 * 2) = 9, period 5 gets floor(2 * 2/8 * 2) = 1. */
  lemma ProportionalExample()
    ensures ProportionalOffspring([Emergence(3, 6), Emergence(5, 2)], 2.0, 3) == 9.0
    ensures ProportionalOffspring([Emergence(3, 6), Emergence(5, 2)], 2.0, 5) == 1.0
  {
    var em := [Emergence(3, 6), Emergence(5, 2)];
    assert em[..1] == [em[0]] && [em[0]][..0] == [];
    assert Total(em) == 8;
    assert ProportionalTerm(em[0], 8, 2.0) == 9;
    assert ProportionalTerm(em[1], 8, 2.0) == 1;
    assert ProportionalSum(em[..1], 8, 2.0, 3) == 9.0;
    assert ProportionalSum(em[..1], 8, 2.0, 5) == 0.0;
    assert ProportionalOffspring(em, 2.0, 3) == ProportionalSum(em, 8, 2.0, 3) == 9.0;
    assert ProportionalOffspring(em, 2.0, 5) == ProportionalSum(em, 8, 2.0, 5) == 1.0;
  }

  lemma {:induction false} ProportionalSumNonNegative(es: seq<Emergence>, t: int, c: real, g: int)
    requires t > 0 && c >= 0.0
    requires Positive(es)
    ensures ProportionalSum(es, t, c, g) >= 0.0
  {
    if es != [] {
      var p := es[..|es| - 1];
      assert Positive(p) by {
        forall k | 0 <= k < |p| ensures p[k].count > 0 {
          assert p[k] == es[k];
        }
      }
      ProportionalSumNonNegative(p, t, c, g);
      var n := es[|es| - 1].count as real;
      assert n / t as real >= 0.0;
      assert n * (n / t as real) >= 0.0;
      assert n * (n / t as real) * c >= 0.0;
    }
  }

  lemma ProportionalNonNegative(em: seq<Emergence>, c: real, g: int)
    requires Positive(em) && c >= 0.0
    ensures ProportionalOffspring(em, c, g) >= 0.0
  {
    if em != [] {
      TotalBounds(em, 0);
      ProportionalSumNonNegative(em, Total(em), c, g);
    }
  }

  // ---------------------------------------------------------------------
  // RealSex: random halves, only matching periods breed
  // ---------------------------------------------------------------------

  /** `adults`: every emerging individual, as its genotype, before the shuffle. */
  function Flatten(em: seq<Emergence>): seq<int>
  {
    if em == [] then []
    else
      var e := em[|em| - 1];
      Flatten(em[..|em| - 1]) + seq(if e.count < 0 then 0 else e.count, _ => e.genotype)
  }

  /** The number of pairs (i, i + h), i < k, both of genotype g. */
  function MatchCount(adults: seq<int>, k: nat, h: nat, g: int): nat
    requires k <= h && k + h <= |adults|
  {
    if k == 0 then 0
    else MatchCount(adults, k - 1, h, g) + (if adults[k - 1] == g && adults[k - 1 + h] == g then 1 else 0)
  }

  /** clutch_rate added once for every pair (i, i + h), i < k, both of genotype g. */
  function Credit(adults: seq<int>, k: nat, h: nat, c: real, g: int): real
    requires k <= h && k + h <= |adults|
  {
    if k == 0 then 0.0
    else Credit(adults, k - 1, h, c, g) + (if adults[k - 1] == g && adults[k - 1 + h] == g then c else 0.0)
  }

  /** `RealSex.breed(emergent)[g]` for the shuffled `adults`: clutch_rate for
      every matched pair of genotype g among the pairs (i, i + half). */
  function RealSexOffspring(adults: seq<int>, c: real, g: int): real
  {
    Credit(adults, |adults| / 2, |adults| / 2, c, g)
  }

  /** Repeated addition of clutch_rate is clutch_rate times the number of
      matched pairs. */
  lemma {:induction false} CreditIsProduct(adults: seq<int>, k: nat, h: nat, c: real, g: int)
    requires k <= h && k + h <= |adults|
    ensures Credit(adults, k, h, c, g) == c * MatchCount(adults, k, h, g) as real
  {
    if k > 0 {
      CreditIsProduct(adults, k - 1, h, c, g);
      var m := MatchCount(adults, k - 1, h, g) as real;
      assert c * (m + 1.0) == c * m + c;
    }
  }

  /** The loop of `RealSex.breed`, on the already shuffled `adults`. */
  method RealSexBreed(em: seq<Emergence>, adults: seq<int>, c: real) returns (offspring: map<int, real>)
    requires multiset(adults) == multiset(Flatten(em))
    ensures forall g :: g in offspring <==> MatchCount(adults, |adults| / 2, |adults| / 2, g) > 0
    ensures forall g :: g in offspring ==> g in adults
    ensures forall g :: Get(offspring, g) == RealSexOffspring(adults, c, g)
  {
    var half := |adults| / 2;
    offspring := map[];
    for i := 0 to half
      invariant forall g :: g in offspring <==> MatchCount(adults, i, half, g) > 0
      invariant forall g :: Get(offspring, g) == Credit(adults, i, half, c, g)
    {
      if adults[i] == adults[i + half] {
        offspring := offspring[adults[i] := Get(offspring, adults[i]) + c];
      }
    }
    forall g | g in offspring ensures g in adults {
      MatchCountPresent(adults, half, half, g);
    }
  }

  lemma {:induction false} MatchCountPresent(adults: seq<int>, k: nat, h: nat, g: int)
    requires k <= h && k + h <= |adults|
    requires MatchCount(adults, k, h, g) > 0
    ensures g in adults
  {
    if adults[k - 1] != g || adults[k - 1 + h] != g {
      MatchCountPresent(adults, k - 1, h, g);
    }
  }

  /** Pairs of a genotype absent from the population never breed. */
  lemma RealSexOnlyPresent(adults: seq<int>, c: real, g: int)
    requires g !in adults
    ensures RealSexOffspring(adults, c, g) == 0.0
  {
    CreditAbsent(adults, |adults| / 2, |adults| / 2, c, g);
  }

  lemma {:induction false} CreditAbsent(adults: seq<int>, k: nat, h: nat, c: real, g: int)
    requires k <= h && k + h <= |adults|
    requires g !in adults
    ensures Credit(adults, k, h, c, g) == 0.0
  {
    if k > 0 {
      assert adults[k - 1] in adults;
      CreditAbsent(adults, k - 1, h, c, g);
    }
  }

  lemma {:induction false} FlattenMember(em: seq<Emergence>, x: int)
    requires Positive(em)
    ensures x in Flatten(em) <==> x in Genotypes(em)
  {
    if em != [] {
      var p := em[..|em| - 1];
      var e := em[|em| - 1];
      assert Positive(p) by {
        forall k | 0 <= k < |p| ensures p[k].count > 0 {
          assert p[k] == em[k];
        }
      }
      FlattenMember(p, x);
      var block := seq(e.count, _ => e.genotype);
      assert Flatten(em) == Flatten(p) + block;
      assert block[0] == e.genotype;
      assert x in block <==> x == e.genotype;
    }
  }

  /** The flattened population holds one entry per emerging individual. */
  lemma {:induction false} FlattenLength(em: seq<Emergence>)
    requires Positive(em)
    ensures |Flatten(em)| == Total(em)
  {
    if em != [] {
      var p := em[..|em| - 1];
      assert Positive(p) by {
        forall k | 0 <= k < |p| ensures p[k].count > 0 {
          assert p[k] == em[k];
        }
      }
      FlattenLength(p);
    }
  }

  /** Only genotypes that emerged can receive RealSex offspring, and the
      shuffled population has one entry per emerging adult. */
  lemma RealSexOnlyEmergent(em: seq<Emergence>, adults: seq<int>, c: real, g: int)
    requires Positive(em)
    requires multiset(adults) == multiset(Flatten(em))
    requires g !in Genotypes(em)
    ensures |adults| == Total(em)
    ensures RealSexOffspring(adults, c, g) == 0.0
  {
    FlattenLength(em);
    assert |adults| == |multiset(adults)| == |multiset(Flatten(em))| == |Flatten(em)|;
    FlattenMember(em, g);
    assert g !in multiset(adults);
    RealSexOnlyPresent(adults, c, g);
  }

  lemma {:induction false} MatchCountAll(adults: seq<int>, k: nat, h: nat, g: int)
    requires k <= h && k + h <= |adults|
    requires forall i :: 0 <= i < |adults| ==> adults[i] == g
    ensures MatchCount(adults, k, h, g) == k
  {
    if k > 0 {
      MatchCountAll(adults, k - 1, h, g);
    }
  }

  /** A lone emergent genotype of n adults gets clutch_rate * (n // 2): all
      pairs match. */
  lemma RealSexSingle(g: int, n: int, adults: seq<int>, c: real)
    requires n > 0
    requires multiset(adults) == multiset(Flatten([Emergence(g, n)]))
    ensures RealSexOffspring(adults, c, g) == c * (n / 2) as real
  {
    var em := [Emergence(g, n)];
    assert em[..0] == [];
    assert Flatten(em) == seq(n, _ => g);
    assert |adults| == |multiset(adults)| == |multiset(Flatten(em))| == n;
    forall i | 0 <= i < |adults| ensures adults[i] == g {
      assert adults[i] in multiset(adults);
      assert adults[i] in Flatten(em);
    }
    MatchCountAll(adults, n / 2, n / 2, g);
    CreditIsProduct(adults, n / 2, n / 2, c, g);
  }

  lemma {:induction false} MatchCountPrefix(a: seq<int>, b: seq<int>, k: nat, h: nat, g: int)
    requires k <= h && k + h <= |a| && k + h <= |b|
    requires a[..k + h] == b[..k + h]
    ensures MatchCount(a, k, h, g) == MatchCount(b, k, h, g)
  {
    if k > 0 {
      assert a[k - 1] == a[..k + h][k - 1] && b[k - 1] == b[..k + h][k - 1];
      assert a[k - 1 + h] == a[..k + h][k - 1 + h] && b[k - 1 + h] == b[..k + h][k - 1 + h];
      assert a[..k - 1 + h] == a[..k + h][..k - 1 + h] && b[..k - 1 + h] == b[..k + h][..k - 1 + h];
      MatchCountPrefix(a, b, k - 1, h, g);
    }
  }

  /** With an odd number of adults the last one is never paired: replacing it
      by anything leaves every offspring count unchanged. */
  lemma RealSexOddLastUnpaired(adults: seq<int>, x: int, c: real, g: int)
    requires |adults| % 2 == 1
    ensures RealSexOffspring(adults[..|adults| - 1] + [x], c, g) == RealSexOffspring(adults, c, g)
  {
    var b := adults[..|adults| - 1] + [x];
    var h := |adults| / 2;
    assert |b| / 2 == h;
    assert adults[..h + h] == b[..h + h];
    MatchCountPrefix(adults, b, h, h, g);
    CreditIsProduct(adults, h, h, c, g);
    CreditIsProduct(b, h, h, c, g);
  }

  /** Pairs are formed across the two halves, not between neighbours:
      [2, 3, 2, 3] pairs 2 with 2 and 3 with 3, while [2, 2, 3, 3] pairs 2
      with 3 twice and breeds nothing. */
  lemma RealSexPairsAcrossHalves()
    ensures RealSexOffspring([2, 3, 2, 3], 1.5, 2) == 1.5
    ensures RealSexOffspring([2, 3, 2, 3], 1.5, 3) == 1.5
    ensures RealSexOffspring([2, 2, 3, 3], 1.5, 2) == 0.0
    ensures RealSexOffspring([2, 2, 3, 3], 1.5, 3) == 0.0
  {
  }

  predicate Distinct(gs: seq<int>)
  {
    forall i, j :: 0 <= i < j < |gs| ==> gs[i] != gs[j]
  }

  /** clutch_rate once for every occurrence of x in gs. */
  function OccurrenceCredit(gs: seq<int>, x: int, c: real): real
  {
    if gs == [] then 0.0 else OccurrenceCredit(gs[..|gs| - 1], x, c) + (if gs[|gs| - 1] == x then c else 0.0)
  }

  lemma {:induction false} OccurrenceCreditAbsent(gs: seq<int>, x: int, c: real)
    requires x !in gs
    ensures OccurrenceCredit(gs, x, c) == 0.0
  {
    if gs != [] {
      var p := gs[..|gs| - 1];
      assert x !in p by {
        forall i | 0 <= i < |p| ensures p[i] != x {
          assert p[i] == gs[i];
        }
      }
      OccurrenceCreditAbsent(p, x, c);
    }
  }

  /** A genotype occurs at most once in a list of distinct genotypes. */
  lemma {:induction false} OccurrenceCreditDistinct(gs: seq<int>, x: int, c: real)
    requires Distinct(gs) && c >= 0.0
    ensures 0.0 <= OccurrenceCredit(gs, x, c) <= c
  {
    if gs != [] {
      var p := gs[..|gs| - 1];
      assert Distinct(p) by {
        forall i, j | 0 <= i < j < |p| ensures p[i] != p[j] {
          assert p[i] == gs[i] && p[j] == gs[j];
        }
      }
      OccurrenceCreditDistinct(p, x, c);
      if gs[|gs| - 1] == x {
        assert x !in p by {
          forall i | 0 <= i < |p| ensures p[i] != x {
            assert p[i] == gs[i];
          }
        }
        OccurrenceCreditAbsent(p, x, c);
      }
    }
  }

  /** The credits of the pairs (i, i + h), i < k, summed over the genotypes gs. */
  function CreditSum(adults: seq<int>, k: nat, h: nat, c: real, gs: seq<int>): real
    requires k <= h && k + h <= |adults|
  {
    if gs == [] then 0.0 else CreditSum(adults, k, h, c, gs[..|gs| - 1]) + Credit(adults, k, h, c, gs[|gs| - 1])
  }

  /** Pair k - 1, when its genotypes match, adds its clutch once per
      occurrence of its genotype in gs. */
  lemma {:induction false} CreditSumStep(adults: seq<int>, k: nat, h: nat, c: real, gs: seq<int>)
    requires 0 < k <= h && k + h <= |adults|
    ensures CreditSum(adults, k, h, c, gs) == CreditSum(adults, k - 1, h, c, gs)
              + (if adults[k - 1] == adults[k - 1 + h] then OccurrenceCredit(gs, adults[k - 1], c) else 0.0)
  {
    if gs != [] {
      CreditSumStep(adults, k, h, c, gs[..|gs| - 1]);
    }
  }

  lemma {:induction false} CreditSumZero(adults: seq<int>, h: nat, c: real, gs: seq<int>)
    requires h <= |adults|
    ensures CreditSum(adults, 0, h, c, gs) == 0.0
  {
    if gs != [] {
      CreditSumZero(adults, h, c, gs[..|gs| - 1]);
    }
  }

  lemma {:induction false} CreditSumBound(adults: seq<int>, k: nat, h: nat, c: real, gs: seq<int>)
    requires k <= h && k + h <= |adults|
    requires Distinct(gs) && c >= 0.0
    ensures CreditSum(adults, k, h, c, gs) <= c * k as real
  {
    if k == 0 {
      CreditSumZero(adults, h, c, gs);
    } else {
      CreditSumBound(adults, k - 1, h, c, gs);
      CreditSumStep(adults, k, h, c, gs);
      OccurrenceCreditDistinct(gs, adults[k - 1], c);
      MulStep(c, k - 1);
    }
  }

  lemma MulStep(c: real, k: nat)
    ensures c * (k + 1) as real == c * k as real + c
  {
  }

  /** RealSex offspring summed over a list of genotypes. */
  function RealSexTotal(adults: seq<int>, c: real, gs: seq<int>): real
  {
    if gs == [] then 0.0 else RealSexTotal(adults, c, gs[..|gs| - 1]) + RealSexOffspring(adults, c, gs[|gs| - 1])
  }

  lemma {:induction false} RealSexTotalIsCreditSum(adults: seq<int>, c: real, gs: seq<int>)
    ensures RealSexTotal(adults, c, gs) == CreditSum(adults, |adults| / 2, |adults| / 2, c, gs)
  {
    if gs != [] {
      RealSexTotalIsCreditSum(adults, c, gs[..|gs| - 1]);
    }
  }

  /** Over any list of distinct genotypes, RealSex breeds at most
      clutch_rate times the number of pairs, half the number of adults
      rounded down. */
  lemma RealSexTotalBound(adults: seq<int>, c: real, gs: seq<int>)
    requires c >= 0.0
    requires Distinct(gs)
    ensures RealSexTotal(adults, c, gs) <= c * (|adults| / 2) as real
  {
    RealSexTotalIsCreditSum(adults, c, gs);
    CreditSumBound(adults, |adults| / 2, |adults| / 2, c, gs);
  }

  lemma RealSexNonNegative(adults: seq<int>, c: real, g: int)
    requires c >= 0.0
    ensures RealSexOffspring(adults, c, g) >= 0.0
  {
    CreditNonNegative(adults, |adults| / 2, |adults| / 2, c, g);
  }

  lemma {:induction false} CreditNonNegative(adults: seq<int>, k: nat, h: nat, c: real, g: int)
    requires k <= h && k + h <= |adults|
    requires c >= 0.0
    ensures Credit(adults, k, h, c, g) >= 0.0
  {
    if k > 0 {
      CreditNonNegative(adults, k - 1, h, c, g);
    }
  }

  // ---------------------------------------------------------------------
  // Dispatch on the strategy
  // ---------------------------------------------------------------------

  /** `self.breed(emergent)[g]` for the ecosystem's strategy; `adults` is the
      shuffled population RealSex pairs, unused by the other two. */
  function Offspring(strategy: Strategy, em: seq<Emergence>, adults: seq<int>, c: real, g: int): real
    requires Positive(em)
  {
    match strategy
    case HybridModel => HybridOffspring(em, c, g)
    case Proportional => ProportionalOffspring(em, c, g)
    case RealSex => RealSexOffspring(adults, c, g)
  }

  /** `self.breed(emergent)`, dispatched on the strategy. */
  method Breed(strategy: Strategy, em: seq<Emergence>, adults: seq<int>, c: real) returns (offspring: map<int, real>)
    requires Positive(em)
    requires strategy == RealSex ==> multiset(adults) == multiset(Flatten(em))
    ensures offspring.Keys <= Genotypes(em)
    ensures strategy != RealSex ==> offspring.Keys == Genotypes(em)
    ensures forall g :: Get(offspring, g) == Offspring(strategy, em, adults, c, g)
  {
    match strategy
    case HybridModel =>
      offspring := HybridBreed(em, c);
    case Proportional =>
      offspring := ProportionalBreed(em, c);
    case RealSex =>
      offspring := RealSexBreed(em, adults, c);
      forall g | g in offspring ensures g in Genotypes(em) {
        assert g in multiset(adults);
        FlattenMember(em, g);
      }
  }

  /** Every strategy gives non-negative offspring for a non-negative clutch rate. */
  lemma OffspringNonNegative(strategy: Strategy, em: seq<Emergence>, adults: seq<int>, c: real, g: int)
    requires Positive(em) && PositiveGenotypes(em)
    requires c >= 0.0
    ensures Offspring(strategy, em, adults, c, g) >= 0.0
  {
    match strategy
    case HybridModel => HybridNonNegative(em, c, g);
    case Proportional => ProportionalNonNegative(em, c, g);
    case RealSex => RealSexNonNegative(adults, c, g);
  }

  /** Every strategy credits only genotypes that emerged. */
  lemma OffspringOnlyEmergent(strategy: Strategy, em: seq<Emergence>, adults: seq<int>, c: real, g: int)
    requires Positive(em)
    requires strategy == RealSex ==> multiset(adults) == multiset(Flatten(em))
    requires g !in Genotypes(em)
    ensures Offspring(strategy, em, adults, c, g) == 0.0
  {
    match strategy
    case HybridModel => HybridOnlyEmergent(em, c, g);
    case Proportional => ProportionalOnlyEmergent(em, c, g);
    case RealSex => RealSexOnlyEmergent(em, adults, c, g);
  }

  /** With nothing emerging, no strategy breeds anything. */
  lemma NoEmergenceNoOffspring(strategy: Strategy, adults: seq<int>, c: real, g: int)
    requires strategy == RealSex ==> multiset(adults) == multiset(Flatten([]))
    ensures Offspring(strategy, [], adults, c, g) == 0.0
  {
    OffspringOnlyEmergent(strategy, [], adults, c, g);
  }
}
