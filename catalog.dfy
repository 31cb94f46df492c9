/**
 * The fixed catalogs of the preprocessing step: product code to price,
 * fitness score to label, and the age bins of `pd.cut`.
 */
module Catalog {
  import opened Wrappers

  // ---------------------------------------------------------------------
  // Product code -> price (a dict applied with Series.map)
  // ---------------------------------------------------------------------

  const ProductPrices: map<string, nat> := map["KP281" := 1500, "KP481" := 1750, "KP781" := 2500]

  /** Series.map with a dict: a code the dict does not know becomes missing. */
  function ProductPrice(product: string): (r: Option<nat>)
    ensures r.Some? <==> product == "KP281" || product == "KP481" || product == "KP781"
    ensures r.Some? ==> 1500 <= r.value <= 2500
  {
    if product in ProductPrices then Some(ProductPrices[product]) else None
  }

  lemma PriceCatalog(product: string)
    ensures ProductPrice("KP281") == Some(1500)
    ensures ProductPrice("KP481") == Some(1750)
    ensures ProductPrice("KP781") == Some(2500)
    ensures product != "KP281" && product != "KP481" && product != "KP781" ==> ProductPrice(product) == None
  {
  }

  // ---------------------------------------------------------------------
  // Fitness score -> label
  // ---------------------------------------------------------------------

  const FitnessLabels: map<int, string> :=
    map[1 := "Poor Shape", 2 := "Bad Shape", 3 := "Average Shape", 4 := "Good Shape", 5 := "Excellent Shape"]

  /** Series.map with a dict: a score outside 1..5 becomes missing. */
  function FitnessCategory(score: int): (r: Option<string>)
    ensures r.Some? <==> 1 <= score <= 5
  {
    if score in FitnessLabels then Some(FitnessLabels[score]) else None
  }

  /** Every score in 1..5, and no other, gets a label, and no two scores share one. */
  lemma FitnessCatalog(score: int, other: int)
    ensures FitnessCategory(score).Some? <==> 1 <= score <= 5
    ensures FitnessCategory(1) == Some("Poor Shape")
    ensures FitnessCategory(2) == Some("Bad Shape")
    ensures FitnessCategory(3) == Some("Average Shape")
    ensures FitnessCategory(4) == Some("Good Shape")
    ensures FitnessCategory(5) == Some("Excellent Shape")
    ensures FitnessCategory(score).Some? && FitnessCategory(score) == FitnessCategory(other) ==> score == other
  {
  }

  // ---------------------------------------------------------------------
  // pd.cut: right-closed bins (edges[i], edges[i+1]], with the lowest edge
  // included when includeLowest holds
  // ---------------------------------------------------------------------

  /** pd.cut refuses bin edges that do not increase. */
  ghost predicate StrictlyIncreasing(edges: seq<int>)
  {
    forall i, j :: 0 <= i < j < |edges| ==> edges[i] < edges[j]
  }

  /** x falls in bin i, which is (edges[i], edges[i+1]] or [edges[0], edges[1]]. */
  predicate InBin(edges: seq<int>, i: nat, x: int, includeLowest: bool)
    requires i + 1 < |edges|
  {
    (edges[i] < x || (includeLowest && i == 0 && x == edges[0])) && x <= edges[i + 1]
  }

  /** x lies between the outer edges, inclusive at the top and, if asked, at the bottom. */
  predicate InRange(edges: seq<int>, x: int, includeLowest: bool)
    requires |edges| >= 2
  {
    (edges[0] < x || (includeLowest && x == edges[0])) && x <= edges[|edges| - 1]
  }

  /** Search for the bin of x among bins i, i+1, ... */
  function CutFrom(x: int, edges: seq<int>, includeLowest: bool, i: nat): (r: Option<nat>)
    decreases |edges| - i
    ensures r.Some? ==> i <= r.value && r.value + 1 < |edges| && InBin(edges, r.value, x, includeLowest)
    ensures r.None? ==> forall j :: i <= j && j + 1 < |edges| ==> !InBin(edges, j, x, includeLowest)
  {
    if i + 1 >= |edges| then None
    else if InBin(edges, i, x, includeLowest) then Some(i)
    else CutFrom(x, edges, includeLowest, i + 1)
  }

  /** The index of the bin x falls in, or missing when x is outside every bin. */
  function Cut(x: int, edges: seq<int>, includeLowest: bool): (r: Option<nat>)
    requires StrictlyIncreasing(edges)
    ensures r.Some? ==> r.value + 1 < |edges| && InBin(edges, r.value, x, includeLowest)
    ensures r.None? <==> forall j :: 0 <= j && j + 1 < |edges| ==> !InBin(edges, j, x, includeLowest)
  {
    CutFrom(x, edges, includeLowest, 0)
  }

  /** With increasing edges the bins do not overlap. */
  lemma BinsDisjoint(edges: seq<int>, i: nat, j: nat, x: int, includeLowest: bool)
    requires StrictlyIncreasing(edges)
    requires i + 1 < |edges| && j + 1 < |edges|
    requires InBin(edges, i, x, includeLowest) && InBin(edges, j, x, includeLowest)
    ensures i == j
  {
  }

  /** Cut finds a bin exactly for the values between the outer edges. */
  lemma {:induction false} CutCovers(x: int, edges: seq<int>, includeLowest: bool)
    requires StrictlyIncreasing(edges) && |edges| >= 2
    ensures Cut(x, edges, includeLowest).Some? <==> InRange(edges, x, includeLowest)
  {
    if InRange(edges, x, includeLowest) {
      CutFromFinds(x, edges, includeLowest, 0);
    }
  }

  lemma {:induction false} CutFromFinds(x: int, edges: seq<int>, includeLowest: bool, i: nat)
    requires StrictlyIncreasing(edges)
    requires i + 1 < |edges|
    requires edges[i] < x || (includeLowest && i == 0 && x == edges[0])
    requires x <= edges[|edges| - 1]
    ensures CutFrom(x, edges, includeLowest, i).Some?
    decreases |edges| - i
  {
    if !InBin(edges, i, x, includeLowest) {
      CutFromFinds(x, edges, includeLowest, i + 1);
    }
  }

  // ---------------------------------------------------------------------
  // Age -> age bucket
  // ---------------------------------------------------------------------

  /** The four age buckets, in bin order. */
  datatype AgeBucket = Teen | Adult | MidAge | TowardsOldAge
  {
    function Index(): nat
    {
      match this
      case Teen => 0
      case Adult => 1
      case MidAge => 2
      case TowardsOldAge => 3
    }

    /** The category label pandas stores; it need not agree with the edges. */
    function Label(): string
    {
      match this
      case Teen => "Teen (0-21)"
      case Adult => "Adult (22-35)"
      case MidAge => "Mid-age (36-45)"
      case TowardsOldAge => "Towards old-age (>46)"
    }
  }

  const AgeEdges: seq<int> := [0, 21, 35, 45, 60]

  function BucketAt(i: nat): AgeBucket
  {
    if i == 0 then Teen else if i == 1 then Adult else if i == 2 then MidAge else TowardsOldAge
  }

  lemma AgeEdgesIncreasing()
    ensures StrictlyIncreasing(AgeEdges)
  {
  }

  /** The age bucket: the bin of the age among AgeEdges, the lowest edge included. */
  function AgeCategory(age: int): (r: Option<AgeBucket>)
    ensures r.Some? <==> 0 <= age <= 60
    ensures r.Some? ==> InBin(AgeEdges, r.value.Index(), age, true)
  {
    AgeEdgesIncreasing();
    CutCovers(age, AgeEdges, true);
    match Cut(age, AgeEdges, true)
    case None => None
    case Some(i) => Some(BucketAt(i))
  }

  /**
   * Ages 0..21 are Teen, 22..35 Adult, 36..45 Mid-age, 46..60 Towards
   * old-age; any other age gets no bucket.
   */
  lemma {:induction false} AgeCategoryBuckets(age: int)
    ensures AgeCategory(age) == Some(Teen) <==> 0 <= age <= 21
    ensures AgeCategory(age) == Some(Adult) <==> 21 < age <= 35
    ensures AgeCategory(age) == Some(MidAge) <==> 35 < age <= 45
    ensures AgeCategory(age) == Some(TowardsOldAge) <==> 45 < age <= 60
    ensures AgeCategory(age) == None <==> age < 0 || 60 < age
  {
    AgeEdgesIncreasing();
    CutCovers(age, AgeEdges, true);
  }

  /** Every age in 0..60 falls in exactly one bucket, whose bin contains it. */
  lemma {:induction false} AgeCategoryExactlyOne(age: int)
    requires 0 <= age <= 60
    ensures AgeCategory(age).Some?
    ensures var i := AgeCategory(age).value.Index();
            InBin(AgeEdges, i, age, true) &&
            forall j :: 0 <= j < 4 && InBin(AgeEdges, j, age, true) ==> j == i
  {
    AgeEdgesIncreasing();
    AgeCategoryBuckets(age);
  }

  /** The bucket never moves back as age grows. */
  lemma {:induction false} AgeCategoryMonotone(a: int, b: int)
    requires a <= b
    requires AgeCategory(a).Some? && AgeCategory(b).Some?
    ensures AgeCategory(a).value.Index() <= AgeCategory(b).value.Index()
  {
    AgeCategoryBuckets(a);
    AgeCategoryBuckets(b);
  }

  /** Age 46 is "Towards old-age (>46)" although the label says it is excluded. */
  lemma AgeLabelBoundary()
    ensures AgeCategory(46) == Some(TowardsOldAge) && AgeCategory(46).value.Label() == "Towards old-age (>46)"
    ensures AgeCategory(22).value.Label() == "Adult (22-35)"
    ensures AgeCategory(45) == Some(MidAge)
    ensures AgeCategory(21) == Some(Teen) && AgeCategory(22) == Some(Adult)
  {
    AgeCategoryBuckets(46);
    AgeCategoryBuckets(45);
    AgeCategoryBuckets(21);
    AgeCategoryBuckets(22);
  }
}
