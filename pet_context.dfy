/** The shared registry of pet records (`PetProvider` in lib/pet-context.tsx): a list that
    starts as the seed and whose only mutation, `addPet`, puts a record at the front. */
module PetContext {
  import opened Seqs
  import opened PetData

  /** The list after `addPet` has been given `added`, in that order, starting from `seed`:
      each call wraps the previous list as `[pet, ...prev]`. */
  function AfterAdds(seed: seq<Pet>, added: seq<Pet>): seq<Pet>
    decreases |added|
  {
    if added == [] then seed else [added[|added| - 1]] + AfterAdds(seed, added[..|added| - 1])
  }

  /** The store's contents are the additions, most recent first, followed by the seed. */
  lemma {:induction false} AfterAddsOrder(seed: seq<Pet>, added: seq<Pet>)
    ensures AfterAdds(seed, added) == Reversed(added) + seed
    decreases |added|
  {
    if added != [] {
      var front := added[..|added| - 1];
      AfterAddsOrder(seed, front);
      assert Reversed(added)[1..] == Reversed(front);
    }
  }

  /** The seed always remains the tail of the list, unchanged. */
  lemma SeedIsSuffix(seed: seq<Pet>, added: seq<Pet>)
    ensures |AfterAdds(seed, added)| == |added| + |seed|
    ensures AfterAdds(seed, added)[|added|..] == seed
  {
    AfterAddsOrder(seed, added);
  }

  /** Ids that are fresh when added keep the whole list free of duplicate ids. */
  lemma {:induction false} AfterAddsUniqueIds(seed: seq<Pet>, added: seq<Pet>)
    requires UniqueIds(seed)
    requires forall k :: 0 <= k < |added| ==> FreshId(AfterAdds(seed, added[..k]), added[k].id)
    ensures UniqueIds(AfterAdds(seed, added))
    decreases |added|
  {
    if added != [] {
      var n := |added| - 1;
      var front := added[..n];
      forall k | 0 <= k < |front|
        ensures FreshId(AfterAdds(seed, front[..k]), front[k].id)
      {
        assert front[..k] == added[..k];
      }
      AfterAddsUniqueIds(seed, front);
      assert added[..n] == front;
    }
  }

  /** `PetProvider`'s state. `history` (ghost) records what `addPet` was given, oldest
      first; `Valid` ties the visible list to it. */
  class PetStore {
    const seed: seq<Pet>
    var pets: seq<Pet>
    ghost var history: seq<Pet>

    ghost predicate Valid()
      reads this
    {
      pets == AfterAdds(seed, history)
    }

    /** `useState<Pet[]>(petDatabase)`. */
    constructor (petDatabase: seq<Pet>)
      ensures Valid()
      ensures seed == petDatabase && pets == petDatabase && history == []
    {
      seed := petDatabase;
      pets := petDatabase;
      history := [];
    }

    /** `addPet(pet)`: `setPets((prev) => [pet, ...prev])`. No check is made of the record;
        a duplicate id is accepted. */
    method AddPet(pet: Pet)
      requires Valid()
      modifies this
      ensures Valid()
      ensures pets == [pet] + old(pets)
      ensures history == old(history) + [pet]
    {
      pets := [pet] + pets;
      history := history + [pet];
      assert history[..|history| - 1] == old(history);
    }
  }

  /** A store used the way the intake form uses it: three additions end up before the
      seed, newest first. */
  method AddThree(petDatabase: seq<Pet>, r1: Pet, r2: Pet, r3: Pet) returns (pets: seq<Pet>)
    ensures pets == [r3, r2, r1] + petDatabase
  {
    var store := new PetStore(petDatabase);
    store.AddPet(r1);
    store.AddPet(r2);
    store.AddPet(r3);
    pets := store.pets;
  }
}
