/** The owner dashboard's derived lists (components/dashboard.tsx): `filteredPets`, the
    search box followed by the category chip, and the four `stats` counters over the
    whole store. */
module Dashboard {
  import opened Wrappers
  import opened Text
  import opened PetData
  import opened Seqs

  /** The category chips, in display order. */
  const Categories: seq<string> := ["Todos", "Perros", "Gatos", "Sano", "Senior"]

  // ---------------------------------------------------------------- element tests

  /** The text test: the lowercased name or breed contains the lowercased query. The
      query is not trimmed here; only the decision to search looks at its trimmed form. */
  function NameOrBreedMatch(query: string): Pet -> bool {
    (p: Pet) => Contains(ToLower(p.name), ToLower(query)) || Contains(ToLower(p.breed), ToLower(query))
  }

  function SpeciesIs(species: string): Pet -> bool {
    (p: Pet) => p.species == species
  }

  function IsHealthy(): Pet -> bool {
    (p: Pet) => p.healthStatus == "Saludable"
  }

  /** `parseInt(p.age) >= 7`, with no radix: `NaN` compares false, so an age without a
      leading number is never senior. */
  predicate IsSenior(p: Pet) {
    var n := ParseInt(p.age);
    n.Some? && n.value >= 7
  }

  function Senior(): Pet -> bool {
    (p: Pet) => IsSenior(p)
  }

  /** `p.vaccines.some((v) => v.status === "Vencida")`. */
  predicate HasExpiredVaccine(p: Pet) {
    exists i :: 0 <= i < |p.vaccines| && p.vaccines[i].status == Vencida
  }

  function AnyTrue(): Pet -> bool {
    (p: Pet) => true
  }

  // ---------------------------------------------------------------- filteredPets

  /** The search step: filter only when the trimmed query is non-empty. */
  function SearchStep(searchQuery: string, pets: seq<Pet>): seq<Pet> {
    if !IsBlank(searchQuery) then Filter(NameOrBreedMatch(searchQuery), pets) else pets
  }

  /** The category step: one filter for each of four chips; "Todos" and any other value
      keep the list as it is. */
  function CategoryStep(activeFilter: string, pets: seq<Pet>): seq<Pet> {
    if activeFilter == "Perros" then Filter(SpeciesIs("Perro"), pets)
    else if activeFilter == "Gatos" then Filter(SpeciesIs("Gato"), pets)
    else if activeFilter == "Sano" then Filter(IsHealthy(), pets)
    else if activeFilter == "Senior" then Filter(Senior(), pets)
    else pets
  }

  /** `filteredPets`. */
  function FilteredPets(pets: seq<Pet>, activeFilter: string, searchQuery: string): seq<Pet> {
    CategoryStep(activeFilter, SearchStep(searchQuery, pets))
  }

  /** The test the search step applies to one record; everything passes a blank query. */
  function SearchTest(searchQuery: string): Pet -> bool {
    if !IsBlank(searchQuery) then NameOrBreedMatch(searchQuery) else AnyTrue()
  }

  /** The test the category step applies to one record. */
  function CategoryTest(activeFilter: string): Pet -> bool {
    if activeFilter == "Perros" then SpeciesIs("Perro")
    else if activeFilter == "Gatos" then SpeciesIs("Gato")
    else if activeFilter == "Sano" then IsHealthy()
    else if activeFilter == "Senior" then Senior()
    else AnyTrue()
  }

  /** A record is shown when it passes the search and belongs to the category. */
  predicate Shown(activeFilter: string, searchQuery: string, p: Pet) {
    && (IsBlank(searchQuery) || NameOrBreedMatch(searchQuery)(p))
    && (if activeFilter == "Perros" then p.species == "Perro"
        else if activeFilter == "Gatos" then p.species == "Gato"
        else if activeFilter == "Sano" then p.healthStatus == "Saludable"
        else if activeFilter == "Senior" then IsSenior(p)
        else true)
  }

  lemma SearchStepIsFilter(searchQuery: string, pets: seq<Pet>)
    ensures SearchStep(searchQuery, pets) == Filter(SearchTest(searchQuery), pets)
  {
    if IsBlank(searchQuery) {
      FilterKeepsAll(AnyTrue(), pets);
    }
  }

  lemma CategoryStepIsFilter(activeFilter: string, pets: seq<Pet>)
    ensures CategoryStep(activeFilter, pets) == Filter(CategoryTest(activeFilter), pets)
  {
    if activeFilter !in {"Perros", "Gatos", "Sano", "Senior"} {
      FilterKeepsAll(AnyTrue(), pets);
    }
  }

  /** `filteredPets` is the single filter by `Shown`: the search and the category compose
      by intersection. */
  lemma FilteredPetsIsFilter(pets: seq<Pet>, activeFilter: string, searchQuery: string)
    ensures FilteredPets(pets, activeFilter, searchQuery) ==
            Filter((p: Pet) => Shown(activeFilter, searchQuery, p), pets)
  {
    SearchStepIsFilter(searchQuery, pets);
    CategoryStepIsFilter(activeFilter, SearchStep(searchQuery, pets));
    var both := And(SearchTest(searchQuery), CategoryTest(activeFilter));
    FilterFilter(CategoryTest(activeFilter), SearchTest(searchQuery), pets);
    forall p | p in pets
      ensures both(p) == Shown(activeFilter, searchQuery, p)
    {
      BothTestsShown(activeFilter, searchQuery, p);
    }
    FilterSamePredicate(both, (p: Pet) => Shown(activeFilter, searchQuery, p), pets);
  }

  lemma BothTestsShown(activeFilter: string, searchQuery: string, p: Pet)
    ensures And(SearchTest(searchQuery), CategoryTest(activeFilter))(p) == Shown(activeFilter, searchQuery, p)
  {
  }

  /** What is shown: exactly the records of `pets` that pass both tests, in their order. */
  lemma FilteredPetsSublist(pets: seq<Pet>, activeFilter: string, searchQuery: string)
    ensures IsSublist(FilteredPets(pets, activeFilter, searchQuery), pets)
    ensures forall p :: p in FilteredPets(pets, activeFilter, searchQuery) <==>
                        p in pets && Shown(activeFilter, searchQuery, p)
  {
    FilteredPetsIsFilter(pets, activeFilter, searchQuery);
    FilterIsSublist((p: Pet) => Shown(activeFilter, searchQuery, p), pets);
  }

  /** Running the category step before the search step gives the same list. */
  lemma StepsCommute(pets: seq<Pet>, activeFilter: string, searchQuery: string)
    ensures SearchStep(searchQuery, CategoryStep(activeFilter, pets)) ==
            FilteredPets(pets, activeFilter, searchQuery)
  {
    CategoryStepIsFilter(activeFilter, pets);
    SearchStepIsFilter(searchQuery, Filter(CategoryTest(activeFilter), pets));
    SearchStepIsFilter(searchQuery, pets);
    CategoryStepIsFilter(activeFilter, Filter(SearchTest(searchQuery), pets));
    FilterCommutes(SearchTest(searchQuery), CategoryTest(activeFilter), pets);
  }

  /** A blank query searches nothing, even one made of spaces; with "Todos" the whole store
      is listed. */
  lemma BlankSearchShowsAll(pets: seq<Pet>, searchQuery: string)
    requires IsBlank(searchQuery)
    ensures FilteredPets(pets, "Todos", searchQuery) == pets
  {
  }

  // ---------------------------------------------------------------- senior

  /** An age label "<n><unit>", where the unit does not start with a digit, is senior
      exactly when `n >= 7`: the unit is ignored. A "0" followed by "x" is the exception:
      without a radix `parseInt` reads it as hexadecimal. */
  lemma SeniorOfLabel(p: Pet, n: nat, unit: string)
    requires unit == [] || !IsDigit(unit[0])
    requires n == 0 && unit != [] ==> unit[0] != 'x' && unit[0] != 'X'
    requires p.age == NatToString(n) + unit
    ensures IsSenior(p) <==> n >= 7
  {
    ParseIntRendered(n, unit);
  }

  /** "8 anos" is senior. */
  lemma EightYearsSenior(p: Pet)
    requires p.age == "8 anos"
    ensures IsSenior(p)
  {
    ParseIntOneDigit(p.age);
  }

  /** "6 meses" is not senior. */
  lemma SixMonthsNotSenior(p: Pet)
    requires p.age == "6 meses"
    ensures !IsSenior(p)
  {
    ParseIntOneDigit(p.age);
  }

  /** "11 meses" is senior: the unit is not read. */
  lemma ElevenMonthsSenior(p: Pet)
    requires p.age == "11 meses"
    ensures IsSenior(p)
  {
    ParseIntTwoDigits(p.age);
  }

  /** "0x1F anos" is senior: `parseInt` without a radix reads it as 31. */
  lemma HexAgeSenior(p: Pet)
    requires p.age == "0x1F anos"
    ensures IsSenior(p)
  {
    ParseHexExample(p.age);
  }

  /** An age with no digit after the optional blanks and sign is never senior. */
  lemma NoNumberNotSenior(p: Pet)
    requires var u := Unsigned(p.age); u == [] || !IsDigit(u[0])
    ensures !IsSenior(p)
  {
  }

  // ---------------------------------------------------------------- stats

  /** The four counters, before they are rendered. */
  datatype Counts = Counts(total: nat, healthy: nat, upcomingVaccines: nat, senior: nat)

  /** One stat card: the rendered number and its caption. */
  datatype Stat = Stat(value: string, caption: string)

  function StatCounts(pets: seq<Pet>): Counts {
    Counts(|pets|, |Filter(IsHealthy(), pets)|,
           |Filter((p: Pet) => HasExpiredVaccine(p), pets)|, |Filter(Senior(), pets)|)
  }

  /** `stats`: the four cards over the whole store. */
  function Stats(pets: seq<Pet>): seq<Stat> {
    Cards(StatCounts(pets))
  }

  /** The cards, each number written with `String(n)`. */
  function Cards(c: Counts): seq<Stat> {
    [Stat(NatToString(c.total), "Mascotas Totales"),
     Stat(NatToString(c.healthy), "Mascotas Sanas"),
     Stat(NatToString(c.upcomingVaccines), "Proximas Vacunas"),
     Stat(NatToString(c.senior), "Mascotas Senior")]
  }

  /** Each counter is the number of records that pass its test, and none exceeds the
      total. */
  lemma CountsBounded(pets: seq<Pet>)
    ensures var c := StatCounts(pets);
            c.healthy <= c.total && c.upcomingVaccines <= c.total && c.senior <= c.total
    ensures StatCounts(pets).total == |pets|
    ensures StatCounts(pets).healthy == |pets| <==> forall p :: p in pets ==> p.healthStatus == "Saludable"
  {
    FilterAllOrShorter(IsHealthy(), pets);
  }

  /** A filter keeps every element exactly when every element passes. */
  lemma {:induction false} FilterAllOrShorter<T(!new)>(f: T -> bool, s: seq<T>)
    ensures |Filter(f, s)| == |s| <==> forall x :: x in s ==> f(x)
  {
    if s != [] {
      FilterAllOrShorter(f, s[1..]);
      assert forall x :: x in s <==> x == s[0] || x in s[1..];
    }
  }

  /** The counters look at the whole store, never at the search or the chip; with a blank
      search the healthy and senior counters are the sizes of the "Sano" and "Senior"
      lists. */
  lemma CountsMatchChips(pets: seq<Pet>, searchQuery: string)
    requires IsBlank(searchQuery)
    ensures StatCounts(pets).healthy == |FilteredPets(pets, "Sano", searchQuery)|
    ensures StatCounts(pets).senior == |FilteredPets(pets, "Senior", searchQuery)|
  {
  }

  /** Each card's number reads back as its counter. */
  lemma CardsReadBack(c: Counts)
    ensures |Cards(c)| == 4
    ensures ParseLeadingInt(Cards(c)[0].value) == Some(c.total)
    ensures ParseLeadingInt(Cards(c)[1].value) == Some(c.healthy)
    ensures ParseLeadingInt(Cards(c)[2].value) == Some(c.upcomingVaccines)
    ensures ParseLeadingInt(Cards(c)[3].value) == Some(c.senior)
  {
    var cards := Cards(c);
    assert cards[0].value == NatToString(c.total) && cards[1].value == NatToString(c.healthy);
    assert cards[2].value == NatToString(c.upcomingVaccines) && cards[3].value == NatToString(c.senior);
    ParseNatToString(c.total);
    ParseNatToString(c.healthy);
    ParseNatToString(c.upcomingVaccines);
    ParseNatToString(c.senior);
  }
}
