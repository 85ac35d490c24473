# Periodical cicada population model

This project models a small simulation of periodical cicadas (`cicada.py`).
Each genotype is a period `g` in years. For each genotype the ecosystem keeps
a queue of `g` cohort counts, oldest first, plus a generation counter. One
year (`tick`) does the following:

- the oldest cohort of every genotype leaves its queue;
- a floored share of that cohort, set by the emergence success rate, comes
  above ground;
- every cohort still underground is floor-scaled by the larval survival rate;
- the adults that emerged breed, and each genotype's offspring join the back
  of its queue.

The breeding rule is chosen by a subclass of the ecosystem:

- **HybridModel**: every ordered pair of emergent groups breeds, and the child
  takes the shorter period.
- **Proportional**: a genotype breeds only with itself, weighted by the
  square of its share of the adults.
- **RealSex**: the shuffled adults are paired across the two halves of the
  list. A pair breeds only when both parents have the same period.

The project has two modules:

- `Breeding` (`breeding.dfy`) holds the emergent list datatype and the three
  strategies. Each strategy has a specification function giving one
  genotype's offspring count and a method with the source's loops, proved
  equal to that function. Lemmas state what each strategy promises.
- `Population` (`ecosystem.dfy`) holds the `Ecosystem` class. Its constructor
  and `Tick` are imperative methods on the `counts` map and `gen` counter,
  proved against the `InitialQueue`, `Aged` and `EmergentOf` specifications.
  `Tick` is split into `Emerge` (the underground loop) and `AddOffspring`
  (the append loop), with the call to `breed` between them, as in the source.

Arithmetic is exact. Rates and cohort counts are `real`, emergent counts are
`int`, and every `math.floor` is `.Floor`. Cohort counts are real, not
integer, because a saturated start puts `n / g` in every slot, which need not
be whole, and RealSex adds `clutch_rate` per pair.

## Model

| member | source | states |
|---|---|---|
| Population.Ecosystem.constructor | cicada.py:12-39 | Every listed genotype gets a key and nothing else does. Each queue has length exactly `g`. Saturated queues hold `n / g` in every slot; otherwise slot `g - 1` holds `n` and all others hold 0. `gen` is 0. The three rates are stored. The defaults are the source's: genotypes `[1]`, every rate 1, initial size 1000, saturated. |
| Population.InitialPopulation | cicada.py:26-33 | Each initial queue, saturated or not, holds exactly the initial size `n` in total. |
| Population.Ecosystem.Emergent | cicada.py:53-60 | Every count in the emergent list handed to `breed` is strictly positive. |
| Population.EmergentOfEntry | cicada.py:56-60 | Each emergent entry is one of the ecosystem's genotypes, and its count is `floor(front cohort * emergence_success_rate)`. |
| Population.EmergentOfGenotypes | cicada.py:56-60 | A genotype appears among the emergent entries if and only if it is a key and its front cohort floors to a positive emergence. |
| Population.EmergentOfDistinct | cicada.py:56-60 | No genotype appears twice in the emergent list. |
| Population.Ecosystem.Emerge | cicada.py:55-64 | The underground loop returns exactly the emergent list of the old queues. It leaves each queue as the old one without its front, each remaining cohort floor-scaled by the larval survival rate. The keys are unchanged. |
| Population.Ecosystem.AddOffspring | cicada.py:68-70 | Each queue gains exactly one element at its back: that genotype's offspring, or 0 when `breed` left the genotype out. Nothing else changes. |
| Population.Ecosystem.Tick | cicada.py:50-70 | `gen` increases by exactly 1, the keys are unchanged, and every queue keeps its length `g`. The first `g - 1` slots are `floor(old[i + 1] * larval_survival_rate)`. The last slot is the strategy's offspring for that genotype, and it is 0 when the genotype's front cohort did not emerge. With non-negative rates, a non-negative population stays non-negative. |
| Population.NextQueues | cicada.py:58-70 | After the pop, the scaling and the append, each queue has its old length. Its front holds the old queue's cohorts after the first, each floor-scaled by the survival rate, and its last slot holds the genotype's offspring, read as 0 when absent. |
| Population.NextQueuesNonNegative | cicada.py:63-70 | With a non-negative survival rate and non-negative offspring, a non-negative population stays non-negative over a year. |
| Population.AgedNonNegative | cicada.py:63-64 | Floor-scaling non-negative cohorts by a non-negative rate, then appending a non-negative newborn cohort, leaves every cohort non-negative. |
| Breeding.TotalBounds | cicada.py:89-91 | Every emergent count lies in (0, `tot_emergent`], so a non-empty list has a positive total and every division by it is defined. |
| Breeding.HybridBreed | cicada.py:88-100 | The keys set are exactly the emergent genotypes. Each value is the sum, over every ordered pair of entries (self-pairs included), of that pair's floored term when the child genotype `min(g1, g2)` is the key. |
| Breeding.HybridOnlyEmergent | cicada.py:94-98 | A genotype that did not emerge gets no hybrid offspring. |
| Breeding.HybridNonNegative | cicada.py:94-98 | With positive periods and a non-negative clutch rate, every hybrid offspring count is non-negative. |
| Breeding.HybridSmallestTakesAll | cicada.py:94-98 | The smallest emergent period receives the term of every ordered pair it takes part in, cross pairs included. |
| Breeding.HybridTwoGenotypes | cicada.py:94-98 | With two periods `g1 < g2`, `g1` gets its self-term plus the cross term twice (once per order of the pair), and `g2` gets only its self-term. |
| Breeding.HybridExample | cicada.py:89-98 | Ten adults of period 3 and six of period 5 with clutch rate 2 give 81 offspring of period 3 and 22 of period 5. |
| Breeding.ProportionalBreed | cicada.py:107-116 | The keys set are exactly the emergent genotypes. Each value is the sum of `floor(n * (n / T) * clutch_rate)` over that genotype's entries. |
| Breeding.ProportionalOnlyEmergent | cicada.py:113-114 | A genotype that did not emerge gets no offspring. |
| Breeding.ProportionalEntry | cicada.py:108-114 | With distinct genotypes, an emergent genotype of `n` adults gets exactly `floor(n * (n / T) * clutch_rate)`, which is at most `n * clutch_rate`. |
| Breeding.ProportionalSingle | cicada.py:108-114 | A lone emergent genotype of `n` adults gets `floor(n * clutch_rate)`. |
| Breeding.ProportionalNonNegative | cicada.py:113-114 | With a non-negative clutch rate, every proportional offspring count is non-negative. |
| Breeding.ProportionalExample | cicada.py:108-114 | Six adults of period 3 and two of period 5 with clutch rate 2 give 9 and 1 offspring: each group's weight is the square of its share. |
| Breeding.FlattenLength | cicada.py:124-126 | The population that RealSex pairs has one individual per emerging adult, `tot_emergent` in all. |
| Breeding.FlattenMember | cicada.py:124-126 | A genotype occurs in the flattened population if and only if it emerged. |
| Breeding.RealSexBreed | cicada.py:123-136 | For the shuffled adults, a genotype gets a key if and only if at least one pair `(i, i + half)` matches on it, and each key occurs among the adults. Each value is `clutch_rate` credited once per matching pair. |
| Breeding.CreditIsProduct | cicada.py:132-134 | The repeated credits equal `clutch_rate` times the number of matching pairs of that genotype. |
| Breeding.RealSexOnlyPresent | cicada.py:131-134 | A genotype absent from the adults gets no offspring. |
| Breeding.RealSexOnlyEmergent | cicada.py:124-134 | For any shuffle of the emergent population, its length is `tot_emergent`, and a genotype that did not emerge gets no offspring. |
| Breeding.RealSexSingle | cicada.py:124-134 | A lone emergent genotype of `n` adults gets `clutch_rate * (n // 2)`. |
| Breeding.RealSexOddLastUnpaired | cicada.py:129-133 | With an odd number of adults, the last one is never paired: changing it changes no offspring count. |
| Breeding.RealSexPairsAcrossHalves | cicada.py:129-134 | Pairs are `(i, i + half)`, not neighbours: `[2, 3, 2, 3]` gives one clutch to each period, and `[2, 2, 3, 3]` gives none. |
| Breeding.RealSexTotalBound | cicada.py:129-134 | Summed over any list of distinct genotypes, RealSex breeds at most `clutch_rate * half`. |
| Breeding.RealSexNonNegative | cicada.py:132-134 | With a non-negative clutch rate, every RealSex offspring count is non-negative. |
| Breeding.Breed | cicada.py:72-79 | `breed` dispatches on the subclass. It credits only emergent genotypes; HybridModel and Proportional credit all of them. Each value is the chosen strategy's offspring count. |
| Breeding.OffspringNonNegative | cicada.py:72-79 | Under every strategy, positive periods and a non-negative clutch rate give non-negative offspring. |
| Breeding.OffspringOnlyEmergent | cicada.py:72-79 | Under every strategy, a genotype that did not emerge gets no offspring. |
| Breeding.NoEmergenceNoOffspring | cicada.py:94-98 | When nothing emerges, no strategy breeds anything: the loops never run, so there is no division by a zero total. |

## Left out

- `__str__` (cicada.py:41-48) and the command-line driver (cicada.py:138-184) are text formatting, argument parsing and printing.
- The random branch of `initial_random` (cicada.py:28) is not modelled. It draws a separate size for each genotype. The constructor models only the non-random branch, where every genotype starts with the same initial size `n`.
- `random.shuffle` (cicada.py:127) is not modelled. `Tick` and `RealSexBreed` take the shuffled adults as a parameter, required to be a permutation (as a multiset) of the flattened emergent list. Nothing probabilistic is stated.
- Floating point: the model is exact. Python's IEEE rounding of products and quotients before `math.floor` (for example in `n1*n2/tot_emergent`) is not modelled.
- Dictionary order: genotypes are visited in first-insertion order, which is the order Python's `dict` uses. The constructor records it in `genotypes`. Independence of the offspring counts from this order is not proved.
- The `NotImplementedError` of the base class `breed` (cicada.py:78-79) is not modelled. `breed` is a dispatch on the `Strategy` datatype, so a base-class ecosystem cannot be built.
- Population.Ecosystem.constructor: requires every genotype to be a positive period. For a period of 0 or less the source fails in one of two ways. Unsaturated, it writes slot `g - 1` of an empty list and raises an error during construction. Saturated (the default), it builds an empty queue and raises an error at the first `tick`, when it pops the front of that empty queue.
- Rates are not required to lie in [0, 1]. The non-negativity results require only non-negative rates.
- The HybridModel and Proportional lemmas state their counts through `HybridTerm` and `ProportionalTerm`, the floored term of one pair or one entry, rather than through a closed form of the whole sum.
