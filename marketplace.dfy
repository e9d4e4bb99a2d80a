/** The marketplace catalog: three fixed seed lists and the case-insensitive search
    over them, plus the split of the gym list between the "Gyms" and the
    "Sports Centers" tabs. The search text `q`, the location text `loc` and the
    selected tab are inputs. */
module Marketplace {
  import opened Collections
  import opened Text

  datatype Gym = Gym(id: string, name: string, location: string, ratingTenths: nat, price: nat, category: string)
  datatype Trainer = Trainer(id: string, name: string, expertise: string, ratingTenths: nat, price: nat)
  datatype BrandProduct = BrandProduct(id: string, name: string, product: string, price: nat, url: string)

  /** The category that sends a gym to the "Sports Centers" tab. */
  const SportsCenter: string := "Sports Center"

  const SeedGyms: seq<Gym> := [
    Gym("g1", "Pulse Arena Gym", "Downtown", 47, 29, "Gym"),
    Gym("g2", "Iron Forge Fitness", "Uptown", 45, 25, "Gym"),
    Gym("g3", "ZenFit Studio", "Midtown", 48, 35, SportsCenter)
  ]

  const SeedTrainers: seq<Trainer> := [
    Trainer("t1", "Alex Strong", "Strength & Conditioning", 49, 40),
    Trainer("t2", "Mia Flex", "Mobility & Yoga", 46, 30)
  ]

  const SeedBrands: seq<BrandProduct> := [
    BrandProduct("b1", "ProteinX", "Whey Isolate 1kg", 49, "https://example.com/proteinx"),
    BrandProduct("b2", "FitWear", "Breathable Tee", 19, "https://example.com/fitwear")
  ]

  /** The four tabs; the page opens on Gyms. */
  datatype Tab = GymsTab | TrainersTab | BrandsTab | SportsCentersTab

  const InitialTab: Tab := GymsTab

  /** `field.toLowerCase().includes(query.toLowerCase())`. */
  predicate Matches(field: string, query: string) {
    Contains(Lower(field), Lower(query))
  }

  predicate GymMatches(g: Gym, q: string, loc: string) {
    Matches(g.name, q) && Matches(g.location, loc)
  }

  /** The gyms of `gyms` whose name matches `q` and whose location matches `loc`. */
  function SearchGyms(gyms: seq<Gym>, q: string, loc: string): seq<Gym> {
    Filter(gyms, (g: Gym) => GymMatches(g, q, loc))
  }

  /** The trainers of `trainers` whose name matches `q`; the location plays no part. */
  function SearchTrainers(trainers: seq<Trainer>, q: string): seq<Trainer> {
    Filter(trainers, (t: Trainer) => Matches(t.name, q))
  }

  /** The products of `brands` whose brand name matches `q`; the location plays no part. */
  function SearchBrands(brands: seq<BrandProduct>, q: string): seq<BrandProduct> {
    Filter(brands, (b: BrandProduct) => Matches(b.name, q))
  }

  /** `filteredGyms`, `filteredTrainers` and `filteredBrands` of the page. */
  function FilteredGyms(q: string, loc: string): seq<Gym> { SearchGyms(SeedGyms, q, loc) }
  function FilteredTrainers(q: string): seq<Trainer> { SearchTrainers(SeedTrainers, q) }
  function FilteredBrands(q: string): seq<BrandProduct> { SearchBrands(SeedBrands, q) }

  /** The gym cards the page shows under `tab`: on Gyms the matches that are not sports
      centers, on Sports Centers the matches that are, and no gym on the other two tabs. */
  function GymsOnTab(gyms: seq<Gym>, tab: Tab, q: string, loc: string): seq<Gym> {
    match tab
    case GymsTab => Filter(SearchGyms(gyms, q, loc), IsPlainGym)
    case SportsCentersTab => Filter(SearchGyms(gyms, q, loc), IsSportsCenter)
    case _ => []
  }

  /** Which of the two gym tabs a gym card goes to. */
  predicate IsPlainGym(g: Gym) { g.category != SportsCenter }
  predicate IsSportsCenter(g: Gym) { g.category == SportsCenter }

  // ---------------------------------------------------------------- properties

  /** A gym is found exactly when it is in the list, its lower-cased name contains the
      lower-cased query and its lower-cased location contains the lower-cased location
      text; the found gyms keep the order of the list. */
  lemma SearchGymsSpec(gyms: seq<Gym>, q: string, loc: string, g: Gym)
    ensures g in SearchGyms(gyms, q, loc) <==>
      g in gyms && Contains(Lower(g.name), Lower(q)) && Contains(Lower(g.location), Lower(loc))
    ensures IsSubsequence(SearchGyms(gyms, q, loc), gyms)
  {
    FilterMembership(gyms, (g: Gym) => GymMatches(g, q, loc), g);
    FilterIsSubsequence(gyms, (g: Gym) => GymMatches(g, q, loc));
  }

  /** Trainers and products are found by name alone, in list order. */
  lemma SearchByNameSpec(trainers: seq<Trainer>, brands: seq<BrandProduct>, q: string, t: Trainer, b: BrandProduct)
    ensures t in SearchTrainers(trainers, q) <==> t in trainers && Contains(Lower(t.name), Lower(q))
    ensures b in SearchBrands(brands, q) <==> b in brands && Contains(Lower(b.name), Lower(q))
    ensures IsSubsequence(SearchTrainers(trainers, q), trainers)
    ensures IsSubsequence(SearchBrands(brands, q), brands)
  {
    FilterMembership(trainers, (t: Trainer) => Matches(t.name, q), t);
    FilterMembership(brands, (b: BrandProduct) => Matches(b.name, q), b);
    FilterIsSubsequence(trainers, (t: Trainer) => Matches(t.name, q));
    FilterIsSubsequence(brands, (b: BrandProduct) => Matches(b.name, q));
  }

  /** An empty query and an empty location text show the whole catalog. */
  lemma EmptySearchShowsAll(gyms: seq<Gym>, trainers: seq<Trainer>, brands: seq<BrandProduct>)
    ensures SearchGyms(gyms, "", "") == gyms
    ensures SearchTrainers(trainers, "") == trainers
    ensures SearchBrands(brands, "") == brands
  {
    forall i | 0 <= i < |gyms| ensures GymMatches(gyms[i], "", "") {
      ContainsEmpty(Lower(gyms[i].name));
      ContainsEmpty(Lower(gyms[i].location));
    }
    FilterAllPass(gyms, (g: Gym) => GymMatches(g, "", ""));
    forall i | 0 <= i < |trainers| ensures Matches(trainers[i].name, "") {
      ContainsEmpty(Lower(trainers[i].name));
    }
    FilterAllPass(trainers, (t: Trainer) => Matches(t.name, ""));
    forall i | 0 <= i < |brands| ensures Matches(brands[i].name, "") {
      ContainsEmpty(Lower(brands[i].name));
    }
    FilterAllPass(brands, (b: BrandProduct) => Matches(b.name, ""));
  }

  /** Queries that differ only in letter case find the same gyms, trainers and products. */
  lemma SearchIgnoresCase(gyms: seq<Gym>, trainers: seq<Trainer>, brands: seq<BrandProduct>,
                          q1: string, q2: string, loc1: string, loc2: string)
    requires SameIgnoringCase(q1, q2) && SameIgnoringCase(loc1, loc2)
    ensures SearchGyms(gyms, q1, loc1) == SearchGyms(gyms, q2, loc2)
    ensures SearchTrainers(trainers, q1) == SearchTrainers(trainers, q2)
    ensures SearchBrands(brands, q1) == SearchBrands(brands, q2)
  {
    LowerIgnoresCase(q1, q2);
    LowerIgnoresCase(loc1, loc2);
    FilterSameTest(gyms, (g: Gym) => GymMatches(g, q1, loc1), (g: Gym) => GymMatches(g, q2, loc2));
    FilterSameTest(trainers, (t: Trainer) => Matches(t.name, q1), (t: Trainer) => Matches(t.name, q2));
    FilterSameTest(brands, (b: BrandProduct) => Matches(b.name, q1), (b: BrandProduct) => Matches(b.name, q2));
  }

  /** Narrowing the query narrows the result: when the lower-cased `q` occurs in the
      lower-cased `q'`, everything found for `q'` is also found for `q`, in the same
      order. */
  lemma NarrowerQueryFindsLess(gyms: seq<Gym>, trainers: seq<Trainer>, brands: seq<BrandProduct>,
                               q: string, q': string, loc: string)
    requires Contains(Lower(q'), Lower(q))
    ensures IsSubsequence(SearchGyms(gyms, q', loc), SearchGyms(gyms, q, loc))
    ensures IsSubsequence(SearchTrainers(trainers, q'), SearchTrainers(trainers, q))
    ensures IsSubsequence(SearchBrands(brands, q'), SearchBrands(brands, q))
  {
    forall g: Gym | GymMatches(g, q', loc) ensures GymMatches(g, q, loc) {
      ContainsTransitive(Lower(g.name), Lower(q'), Lower(q));
    }
    FilterMonotone(gyms, (g: Gym) => GymMatches(g, q', loc), (g: Gym) => GymMatches(g, q, loc));
    forall t: Trainer | Matches(t.name, q') ensures Matches(t.name, q) {
      ContainsTransitive(Lower(t.name), Lower(q'), Lower(q));
    }
    FilterMonotone(trainers, (t: Trainer) => Matches(t.name, q'), (t: Trainer) => Matches(t.name, q));
    forall b: BrandProduct | Matches(b.name, q') ensures Matches(b.name, q) {
      ContainsTransitive(Lower(b.name), Lower(q'), Lower(q));
    }
    FilterMonotone(brands, (b: BrandProduct) => Matches(b.name, q'), (b: BrandProduct) => Matches(b.name, q));
  }

  /** The Gyms and the Sports Centers tabs partition the search result: every found gym
      is shown on exactly one of them, as often as it was found. */
  lemma TabsPartitionGyms(gyms: seq<Gym>, q: string, loc: string, g: Gym)
    ensures multiset(GymsOnTab(gyms, GymsTab, q, loc)) + multiset(GymsOnTab(gyms, SportsCentersTab, q, loc))
         == multiset(SearchGyms(gyms, q, loc))
    ensures g in GymsOnTab(gyms, GymsTab, q, loc) <==> g in SearchGyms(gyms, q, loc) && g.category != SportsCenter
    ensures g in GymsOnTab(gyms, SportsCentersTab, q, loc) <==> g in SearchGyms(gyms, q, loc) && g.category == SportsCenter
  {
    var found := SearchGyms(gyms, q, loc);
    FilterComplement(found, IsPlainGym, IsSportsCenter);
    FilterMembership(found, IsPlainGym, g);
    FilterMembership(found, IsSportsCenter, g);
  }

  /** The page as it opens: with the search boxes empty every catalog is listed in
      full, and the Gyms tab shows the two seed gyms that are not sports centers. */
  lemma {:induction false} InitialPage()
    ensures FilteredGyms("", "") == SeedGyms
    ensures FilteredTrainers("") == SeedTrainers
    ensures FilteredBrands("") == SeedBrands
    ensures GymsOnTab(SeedGyms, InitialTab, "", "") == [SeedGyms[0], SeedGyms[1]]
  {
    EmptySearchShowsAll(SeedGyms, SeedTrainers, SeedBrands);
    SeedPlainGyms();
  }

  /** Of the seed gyms, the first two are not sports centers and the third is. */
  lemma SeedPlainGyms()
    ensures Filter(SeedGyms, IsPlainGym) == [SeedGyms[0], SeedGyms[1]]
  {
    assert SeedGyms[1..] == [SeedGyms[1], SeedGyms[2]];
    assert SeedGyms[1..][1..] == [SeedGyms[2]] && [SeedGyms[2]][1..] == [];
    assert Filter([SeedGyms[2]], IsPlainGym) == [];
  }
}
