/** The staff directory (components/staff-search.tsx): a text search over seven fields and
    two exact filters, applied to the static seed list, and the state that drives them. */
module StaffSearch {
  import opened Wrappers
  import opened Text
  import opened PetData
  import opened Seqs

  /** The filter value that imposes nothing. */
  const All := "all"

  // ---------------------------------------------------------------- element tests

  /** The text test with `q` already lowercased: five fields are lowercased before the
      search, the birth date and the microchip are searched as they are. */
  predicate MatchesLowered(q: string, p: Pet) {
    || Contains(ToLower(p.ownerEmail), q)
    || Contains(ToLower(p.name), q)
    || Contains(ToLower(p.breed), q)
    || Contains(ToLower(p.species), q)
    || Contains(ToLower(p.sex), q)
    || Contains(p.birthDate, q)
    || Contains(p.microchip, q)
  }

  function TextMatch(searchQuery: string): Pet -> bool {
    (p: Pet) => MatchesLowered(ToLower(searchQuery), p)
  }

  function SpeciesEquals(speciesFilter: string): Pet -> bool {
    (p: Pet) => ToLower(p.species) == speciesFilter
  }

  function SexEquals(sexFilter: string): Pet -> bool {
    (p: Pet) => ToLower(p.sex) == sexFilter
  }

  // ---------------------------------------------------------------- results

  function TextStep(searchQuery: string, pets: seq<Pet>): seq<Pet> {
    if !IsBlank(searchQuery) then Filter(TextMatch(searchQuery), pets) else pets
  }

  function SpeciesStep(speciesFilter: string, pets: seq<Pet>): seq<Pet> {
    if speciesFilter != All then Filter(SpeciesEquals(speciesFilter), pets) else pets
  }

  function SexStep(sexFilter: string, pets: seq<Pet>): seq<Pet> {
    if sexFilter != All then Filter(SexEquals(sexFilter), pets) else pets
  }

  /** `results`: always computed from `petDatabase`, never from the store. */
  function Results(petDatabase: seq<Pet>, searchQuery: string, speciesFilter: string, sexFilter: string): seq<Pet> {
    SexStep(sexFilter, SpeciesStep(speciesFilter, TextStep(searchQuery, petDatabase)))
  }

  /** The three tests together, stated on one record. */
  predicate Listed(searchQuery: string, speciesFilter: string, sexFilter: string, p: Pet) {
    && (IsBlank(searchQuery) || MatchesLowered(ToLower(searchQuery), p))
    && (speciesFilter == "all" || ToLower(p.species) == speciesFilter)
    && (sexFilter == "all" || ToLower(p.sex) == sexFilter)
  }

  /** One step keeps exactly the records that pass its test, or all when it is off. */
  lemma {:induction false} StepKeeps(on: bool, f: Pet -> bool, pets: seq<Pet>, r: seq<Pet>)
    requires r == if on then Filter(f, pets) else pets
    ensures IsSublist(r, pets)
    ensures forall p :: p in r <==> p in pets && (!on || f(p))
  {
    if on {
      FilterIsSublist(f, pets);
    } else {
      SublistRefl(pets);
    }
  }

  /** The results are an order-preserving sublist of `petDatabase`: exactly its records that
      pass all three tests. */
  lemma ResultsSpec(petDatabase: seq<Pet>, searchQuery: string, speciesFilter: string, sexFilter: string)
    ensures IsSublist(Results(petDatabase, searchQuery, speciesFilter, sexFilter), petDatabase)
    ensures forall p :: p in Results(petDatabase, searchQuery, speciesFilter, sexFilter) <==>
                        p in petDatabase && Listed(searchQuery, speciesFilter, sexFilter, p)
  {
    var t := TextStep(searchQuery, petDatabase);
    var u := SpeciesStep(speciesFilter, t);
    var v := SexStep(sexFilter, u);
    StepKeeps(!IsBlank(searchQuery), TextMatch(searchQuery), petDatabase, t);
    StepKeeps(speciesFilter != All, SpeciesEquals(speciesFilter), t, u);
    StepKeeps(sexFilter != All, SexEquals(sexFilter), u, v);
    SublistTrans(u, t, petDatabase);
    SublistTrans(v, u, petDatabase);
  }

  /** A blank query, even one of spaces, with both filters on "all" lists the whole seed. */
  lemma UnfilteredResults(petDatabase: seq<Pet>, searchQuery: string)
    requires IsBlank(searchQuery)
    ensures Results(petDatabase, searchQuery, All, All) == petDatabase
  {
  }

  /** The label after the count: singular exactly for one result. */
  function ResultWord(count: nat): string {
    if count == 1 then "resultado" else "resultados"
  }

  /** `{results.length} {…}`. */
  function CountLabel(count: nat): string {
    NatToString(count) + " " + ResultWord(count)
  }

  /** The label reads back as the count, and its word is singular exactly for one. */
  lemma CountLabelSpec(count: nat)
    ensures ParseLeadingInt(CountLabel(count)) == Some(count)
    ensures ResultWord(count) == "resultado" <==> count == 1
  {
    WordAfterCount(count, ResultWord(count));
    if count != 1 {
      assert |ResultWord(count)| == 10;
    }
  }

  /** A count, a blank and a word read back as the count. */
  lemma WordAfterCount(count: nat, word: string)
    ensures ParseLeadingInt(NatToString(count) + " " + word) == Some(count)
  {
    var rest := " " + word;
    assert rest[0] == ' ';
    assert NatToString(count) + " " + word == NatToString(count) + rest;
    ParseRendered(count, rest);
  }

  // ---------------------------------------------------------------- component state

  /** The component's three `useState` values, over the seed list it imports. */
  class Directory {
    /** `petDatabase`, the list `results` always starts from. */
    const petDatabase: seq<Pet>

    var searchQuery: string
    var speciesFilter: string
    var sexFilter: string

    /** Mounted with an empty query and both filters on "all". */
    constructor (petDatabase: seq<Pet>)
      ensures this.petDatabase == petDatabase
      ensures searchQuery == "" && speciesFilter == All && sexFilter == All
    {
      this.petDatabase := petDatabase;
      searchQuery, speciesFilter, sexFilter := "", All, All;
    }

    /** `results` for the current state. */
    function Current(): seq<Pet>
      reads this
    {
      Results(petDatabase, searchQuery, speciesFilter, sexFilter)
    }

    /** Whether "Limpiar filtros" is offered: a filter is set, or the query is non-empty
        (untrimmed). */
    predicate ClearOffered()
      reads this
    {
      speciesFilter != All || sexFilter != All || searchQuery != ""
    }

    /** When the button is not offered nothing is filtered: the whole seed is listed. */
    lemma NotOfferedListsAll()
      requires !ClearOffered()
      ensures Current() == petDatabase
    {
      UnfilteredResults(petDatabase, searchQuery);
    }

    /** The `onChange` of the search box. */
    method SetSearchQuery(v: string)
      modifies this
      ensures searchQuery == v
      ensures speciesFilter == old(speciesFilter) && sexFilter == old(sexFilter)
    {
      searchQuery := v;
    }

    /** The `onValueChange` of the species select. */
    method SetSpeciesFilter(v: string)
      modifies this
      ensures speciesFilter == v
      ensures searchQuery == old(searchQuery) && sexFilter == old(sexFilter)
    {
      speciesFilter := v;
    }

    /** The `onValueChange` of the sex select. */
    method SetSexFilter(v: string)
      modifies this
      ensures sexFilter == v
      ensures searchQuery == old(searchQuery) && speciesFilter == old(speciesFilter)
    {
      sexFilter := v;
    }

    /** "Limpiar filtros": back to the mounted state, which lists the whole seed. */
    method ClearFilters()
      modifies this
      ensures searchQuery == "" && speciesFilter == All && sexFilter == All
      ensures Current() == petDatabase
      ensures !ClearOffered()
    {
      searchQuery := "";
      speciesFilter := All;
      sexFilter := All;
      UnfilteredResults(petDatabase, searchQuery);
    }
  }
}
