/** The age-structured population engine (cicada.py, class Ecosystem): one
    queue of cohort counts per genotype, oldest cohort first, advanced one
    year at a time by Tick. */
module Population {
  import opened Breeding

  /** The cohort queue a genotype of period g starts with (`__init__`): the
      whole initial size n in the youngest slot g - 1, or n / g in every slot
      when the population starts saturated. */
  predicate InitialQueue(q: seq<real>, g: int, n: real, saturated: bool)
    requires g > 0
  {
    |q| == g &&
    forall i :: 0 <= i < g ==> q[i] == (if saturated then n / g as real else if i == g - 1 then n else 0.0)
  }

  /** `math.floor(x * rate)`. */
  function FloorScale(x: real, rate: real): int
  {
    (x * rate).Floor
  }

  /** `after` is `before` with its front cohort removed and every remaining
      cohort floor-scaled by the survival rate. */
  predicate Aged(after: seq<real>, before: seq<real>, rate: real)
  {
    |before| > 0 && |after| == |before| - 1 &&
    forall i :: 0 <= i < |after| ==> after[i] == FloorScale(before[i + 1], rate) as real
  }

  /** Floor-scaling a non-negative count by a non-negative rate keeps it
      non-negative, so a tick keeps every cohort non-negative when its
      newborn cohort is. */
  lemma AgedNonNegative(after: seq<real>, before: seq<real>, rate: real)
    requires |after| > 0
    requires Aged(after[..|after| - 1], before, rate)
    requires rate >= 0.0 && after[|after| - 1] >= 0.0
    requires forall i :: 0 <= i < |before| ==> before[i] >= 0.0
    ensures forall i :: 0 <= i < |after| ==> after[i] >= 0.0
  {
  }

  /** The number of individuals in a queue. */
  function Sum(q: seq<real>): real
  {
    if q == [] then 0.0 else Sum(q[..|q| - 1]) + q[|q| - 1]
  }

  /** Every initial queue holds exactly the initial size: spread evenly
      over the g cohorts, or all of it in the youngest. */
  lemma InitialPopulation(q: seq<real>, g: int, n: real, saturated: bool)
    requires g > 0
    requires InitialQueue(q, g, n, saturated)
    ensures Sum(q) == n
  {
    if saturated {
      SumConstant(q, n / g as real);
      assert g as real * (n / g as real) == n;
    } else {
      var p := q[..g - 1];
      SumConstant(p, 0.0);
    }
  }

  lemma {:induction false} SumConstant(q: seq<real>, x: real)
    requires forall i :: 0 <= i < |q| ==> q[i] == x
    ensures Sum(q) == |q| as real * x
  {
    if q != [] {
      var p := q[..|q| - 1];
      SumConstant(p, x);
      assert Sum(q) == (|q| - 1) as real * x + x;
    }
  }

  /** Popping and scaling, then appending the offspring, gives each queue
      back its old length: aged cohorts in front, the newborn cohort last. */
  lemma NextQueues(before: map<int, seq<real>>, aged: map<int, seq<real>>, after: map<int, seq<real>>,
                   offspring: map<int, real>, rate: real)
    requires after.Keys == aged.Keys == before.Keys
    requires forall g :: g in aged ==> Aged(aged[g], before[g], rate)
    requires forall g :: g in after ==> after[g] == aged[g] + [Get(offspring, g)]
    ensures forall g :: g in after ==>
              && |after[g]| == |before[g]|
              && Aged(after[g][..|after[g]| - 1], before[g], rate)
              && after[g][|after[g]| - 1] == Get(offspring, g)
  {
  }

  /** With a non-negative survival rate and non-negative offspring, a year
      keeps every cohort of a non-negative population non-negative. */
  lemma NextQueuesNonNegative(before: map<int, seq<real>>, after: map<int, seq<real>>,
                              offspring: map<int, real>, rate: real)
    requires after.Keys == before.Keys
    requires forall g :: g in after ==>
               && |after[g]| == |before[g]| > 0
               && Aged(after[g][..|after[g]| - 1], before[g], rate)
               && after[g][|after[g]| - 1] == Get(offspring, g)
    requires rate >= 0.0
    requires forall g :: Get(offspring, g) >= 0.0
    requires forall g :: g in before ==> forall i :: 0 <= i < |before[g]| ==> before[g][i] >= 0.0
    ensures forall g :: g in after ==> forall i :: 0 <= i < |after[g]| ==> after[g][i] >= 0.0
  {
    forall g | g in after
      ensures forall i :: 0 <= i < |after[g]| ==> after[g][i] >= 0.0
    {
      AgedNonNegative(after[g], before[g], rate);
    }
  }

  /** The emergent list one year produces, genotypes taken in the order
      given: floor(front cohort * emergence rate) for each genotype, recorded
      only when positive. */
  function EmergentOf(order: seq<int>, counts: map<int, seq<real>>, rate: real): (em: seq<Emergence>)
    requires forall k :: 0 <= k < |order| ==> order[k] in counts && |counts[order[k]]| > 0
    ensures Positive(em)
  {
    if order == [] then []
    else
      var g := order[|order| - 1];
      var e := FloorScale(counts[g][0], rate);
      EmergentOf(order[..|order| - 1], counts, rate) + (if e > 0 then [Emergence(g, e)] else [])
  }

  /** Each recorded entry is a genotype of the order with its emergence
      floor(front cohort * emergence rate). */
  lemma {:induction false} EmergentOfEntry(order: seq<int>, counts: map<int, seq<real>>, rate: real, k: int)
    requires forall k :: 0 <= k < |order| ==> order[k] in counts && |counts[order[k]]| > 0
    requires 0 <= k < |EmergentOf(order, counts, rate)|
    ensures var e := EmergentOf(order, counts, rate)[k];
            e.genotype in order && e.count == FloorScale(counts[e.genotype][0], rate)
  {
    var p := order[..|order| - 1];
    var last := order[|order| - 1];
    assert forall k :: 0 <= k < |p| ==> p[k] == order[k];
    assert order == p + [last];
    var ep := EmergentOf(p, counts, rate);
    if k < |ep| {
      EmergentOfEntry(p, counts, rate, k);
      assert EmergentOf(order, counts, rate)[k] == ep[k];
    }
  }

  /** A genotype is recorded exactly when its front cohort yields a
      positive emergence. */
  lemma {:induction false} EmergentOfGenotypes(order: seq<int>, counts: map<int, seq<real>>, rate: real, g: int)
    requires forall k :: 0 <= k < |order| ==> order[k] in counts && |counts[order[k]]| > 0
    ensures g in Genotypes(EmergentOf(order, counts, rate)) <==> g in order && FloorScale(counts[g][0], rate) > 0
  {
    if order != [] {
      var p := order[..|order| - 1];
      var last := order[|order| - 1];
      assert forall k :: 0 <= k < |p| ==> p[k] == order[k];
      EmergentOfGenotypes(p, counts, rate, g);
      var ep := EmergentOf(p, counts, rate);
      var e := FloorScale(counts[last][0], rate);
      if e > 0 {
        var em := ep + [Emergence(last, e)];
        assert em[..|em| - 1] == ep;
      } else {
        assert ep + [] == ep;
      }
      assert order == p + [last];
    }
  }

  /** With distinct genotypes in the order, each genotype is recorded at most once. */
  lemma {:induction false} EmergentOfDistinct(order: seq<int>, counts: map<int, seq<real>>, rate: real)
    requires forall k :: 0 <= k < |order| ==> order[k] in counts && |counts[order[k]]| > 0
    requires Distinct(order)
    ensures DistinctGenotypes(EmergentOf(order, counts, rate))
  {
    if order != [] {
      var p := order[..|order| - 1];
      var last := order[|order| - 1];
      assert forall k :: 0 <= k < |p| ==> p[k] == order[k];
      EmergentOfDistinct(p, counts, rate);
      var ep := EmergentOf(p, counts, rate);
      var e := FloorScale(counts[last][0], rate);
      if e > 0 {
        var em := ep + [Emergence(last, e)];
        assert last !in p;
        forall i, j | 0 <= i < j < |em| ensures em[i].genotype != em[j].genotype {
          if j < |ep| {
            assert em[i] == ep[i] && em[j] == ep[j];
          } else {
            assert em[i] == ep[i];
            EmergentOfEntry(p, counts, rate, i);
            assert em[j].genotype == last;
          }
        }
      } else {
        assert ep + [] == ep;
      }
    }
  }

  /** The population: a queue of cohort counts per genotype, `gen` years
      elapsed, the three rates and the breeding strategy (the subclass). */
  class Ecosystem {
    var counts: map<int, seq<real>>
    var gen: nat
    /** The genotypes in the order the source's dictionary iterates them:
        first-insertion order of the constructor's genotype list. */
    const genotypes: seq<int>
    const larvalSurvivalRate: real
    const emergenceSuccessRate: real
    const clutchRate: real
    const strategy: Strategy

    /** Every genotype is a positive period with a queue of that length. */
    ghost predicate Valid()
      reads this
    {
      && (forall i :: 0 <= i < |genotypes| ==> genotypes[i] in counts)
      && (forall g :: g in counts ==> g in genotypes && g > 0 && |counts[g]| == g)
      && Distinct(genotypes)
    }

    /** Every cohort count is non-negative. */
    ghost predicate NonNegative()
      reads this
    {
      forall g :: g in counts ==> forall i :: 0 <= i < |counts[g]| ==> counts[g][i] >= 0.0
    }

    /** `Emergent()` is the list this year's tick hands to `breed`. */
    function Emergent(): (em: seq<Emergence>)
      reads this
      requires Valid()
      ensures Positive(em)
    {
      assert forall k :: 0 <= k < |genotypes| ==> |counts[genotypes[k]]| == genotypes[k] > 0;
      EmergentOf(genotypes, counts, emergenceSuccessRate)
    }

    /** `__init__` in its non-random branch: `initialSize` is the initial
        size of every genotype, the same for all of them.
        `strategy` names the subclass; the other parameters keep the
        source's defaults. */
    constructor (strategy: Strategy, genotype: seq<int> := [1], larvalSurvivalRate: real := 1.0,
                 emergenceSuccessRate: real := 1.0, clutchRate: real := 1.0,
                 initialSize: real := 1000.0, initialSaturated: bool := true)
      requires forall i :: 0 <= i < |genotype| ==> genotype[i] > 0
      ensures Valid()
      ensures gen == 0
      ensures forall g :: g in counts <==> g in genotype
      ensures forall g :: g in counts ==> InitialQueue(counts[g], g, initialSize, initialSaturated)
      ensures this.larvalSurvivalRate == larvalSurvivalRate
      ensures this.emergenceSuccessRate == emergenceSuccessRate
      ensures this.clutchRate == clutchRate
      ensures this.strategy == strategy
    {
      var cs: map<int, seq<real>> := map[];
      var order: seq<int> := [];
      for k := 0 to |genotype|
        invariant forall g :: g in cs <==> g in genotype[..k]
        invariant forall g :: g in cs ==> g > 0 && InitialQueue(cs[g], g, initialSize, initialSaturated)
        invariant forall g :: g in order <==> g in cs
        invariant Distinct(order)
      {
        assert genotype[..k + 1] == genotype[..k] + [genotype[k]];
        var g := genotype[k];
        var q := seq(g, _ => 0.0);
        if initialSaturated {
          for i := 0 to g
            invariant |q| == g
            invariant forall j :: 0 <= j < i ==> q[j] == initialSize / g as real
          {
            q := q[i := initialSize / g as real];
          }
        } else {
          q := q[g - 1 := initialSize];
        }
        if g !in cs {
          order := order + [g];
        }
        cs := cs[g := q];
      }
      assert genotype[..|genotype|] == genotype;
      counts := cs;
      genotypes := order;
      gen := 0;
      this.larvalSurvivalRate := larvalSurvivalRate;
      this.emergenceSuccessRate := emergenceSuccessRate;
      this.clutchRate := clutchRate;
      this.strategy := strategy;
    }

    /** The underground half of `tick`: each genotype's front cohort leaves
        the queue, the emerging share of it is reported, and every remaining
        cohort is thinned by the larval survival rate. */
    method Emerge() returns (emergent: seq<Emergence>)
      requires Valid()
      modifies this`counts
      ensures counts.Keys == old(counts.Keys)
      ensures forall k :: 0 <= k < |genotypes| ==> genotypes[k] in old(counts) && |old(counts)[genotypes[k]]| > 0
      ensures emergent == EmergentOf(genotypes, old(counts), emergenceSuccessRate)
      ensures forall g :: g in counts ==> Aged(counts[g], old(counts[g]), larvalSurvivalRate)
    {
      ghost var before := counts;
      assert forall k :: 0 <= k < |genotypes| ==> |before[genotypes[k]]| == genotypes[k] > 0;
      emergent := [];
      for k := 0 to |genotypes|
        invariant counts.Keys == before.Keys
        invariant emergent == EmergentOf(genotypes[..k], before, emergenceSuccessRate)
        invariant forall j :: 0 <= j < k ==> Aged(counts[genotypes[j]], before[genotypes[j]], larvalSurvivalRate)
        invariant forall j :: k <= j < |genotypes| ==> counts[genotypes[j]] == before[genotypes[j]]
      {
        assert genotypes[..k + 1][..k] == genotypes[..k];
        var g := genotypes[k];
        var q := counts[g];
        var front := q[0];
        q := q[1..];
        var e := FloorScale(front, emergenceSuccessRate);
        if e > 0 {
          emergent := emergent + [Emergence(g, e)];
        }
        for i := 0 to |q|
          invariant |q| == |before[g]| - 1
          invariant forall j :: 0 <= j < i ==> q[j] == FloorScale(before[g][j + 1], larvalSurvivalRate) as real
          invariant forall j :: i <= j < |q| ==> q[j] == before[g][j + 1]
        {
          q := q[i := FloorScale(q[i], larvalSurvivalRate) as real];
        }
        counts := counts[g := q];
      }
      assert genotypes[..|genotypes|] == genotypes;
      forall g | g in counts ensures Aged(counts[g], before[g], larvalSurvivalRate) {
        var j :| 0 <= j < |genotypes| && genotypes[j] == g;
      }
    }

    /** The second half of `tick`: each genotype's offspring (zero when
        `breed` left it out) join the back of its queue. */
    method AddOffspring(offspring: map<int, real>)
      requires forall i :: 0 <= i < |genotypes| ==> genotypes[i] in counts
      requires forall g :: g in counts ==> g in genotypes
      requires Distinct(genotypes)
      modifies this`counts
      ensures counts.Keys == old(counts.Keys)
      ensures forall g :: g in counts ==> counts[g] == old(counts[g]) + [Get(offspring, g)]
    {
      ghost var aged := counts;
      for k := 0 to |genotypes|
        invariant counts.Keys == aged.Keys
        invariant forall j :: 0 <= j < k ==> counts[genotypes[j]] == aged[genotypes[j]] + [Get(offspring, genotypes[j])]
        invariant forall j :: k <= j < |genotypes| ==> counts[genotypes[j]] == aged[genotypes[j]]
      {
        var g := genotypes[k];
        counts := counts[g := counts[g] + [Get(offspring, g)]];
      }
      forall g | g in counts ensures counts[g] == aged[g] + [Get(offspring, g)] {
        var j :| 0 <= j < |genotypes| && genotypes[j] == g;
      }
    }

    /** `tick`: one year passes. `adults` is the shuffled population RealSex
        pairs, a permutation of the emergent individuals. */
    method Tick(adults: seq<int>)
      requires Valid()
      requires strategy == RealSex ==> multiset(adults) == multiset(Flatten(Emergent()))
      modifies this
      ensures Valid()
      ensures gen == old(gen) + 1
      ensures counts.Keys == old(counts.Keys)
      ensures forall g :: g in counts ==>
                && |counts[g]| == |old(counts[g])|
                && Aged(counts[g][..|counts[g]| - 1], old(counts[g]), larvalSurvivalRate)
                && counts[g][|counts[g]| - 1] == Offspring(strategy, old(Emergent()), adults, clutchRate, g)
      ensures forall g :: g in counts && FloorScale(old(counts[g][0]), emergenceSuccessRate) <= 0 ==>
                counts[g][|counts[g]| - 1] == 0.0
      ensures larvalSurvivalRate >= 0.0 && clutchRate >= 0.0 && old(NonNegative()) ==> NonNegative()
    {
      ghost var before := counts;
      ghost var em := Emergent();
      gen := gen + 1;
      var emergent := Emerge();
      ghost var aged := counts;
      var offspring := Breed(strategy, emergent, adults, clutchRate);
      AddOffspring(offspring);
      NextQueues(before, aged, counts, offspring, larvalSurvivalRate);
      forall g | g in counts && FloorScale(before[g][0], emergenceSuccessRate) <= 0
        ensures Get(offspring, g) == 0.0
      {
        EmergentOfGenotypes(genotypes, before, emergenceSuccessRate, g);
        OffspringOnlyEmergent(strategy, em, adults, clutchRate, g);
      }
      if larvalSurvivalRate >= 0.0 && clutchRate >= 0.0 && old(NonNegative()) {
        forall k | 0 <= k < |em| ensures em[k].genotype > 0 {
          EmergentOfEntry(genotypes, before, emergenceSuccessRate, k);
        }
        forall g ensures Get(offspring, g) >= 0.0 {
          OffspringNonNegative(strategy, em, adults, clutchRate, g);
        }
        NextQueuesNonNegative(before, counts, offspring, larvalSurvivalRate);
      }
    }
  }
}
