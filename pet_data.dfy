/** The pet and vaccine records. Their declaration module, `lib/pet-data`, is not part of
    this model: the fields below are the ones the intake form fills in, and the seed list
    `petDatabase` is passed around as a parameter. */
module PetData {

  /** A vaccine's standing: "Vigente" (valid) or "Vencida" (expired). */
  datatype VaccineStatus = Vigente | Vencida

  datatype Vaccine = Vaccine(name: string, date: string, vetId: string, status: VaccineStatus)

  datatype Pet = Pet(
    id: string,
    name: string,
    species: string,
    breed: string,
    sex: string,
    birthDate: string,
    age: string,
    microchip: string,
    location: string,
    imageUrl: string,
    isServiceAnimal: bool,
    isSterilized: bool,
    healthStatus: string,
    allergies: string,
    medications: string,
    diseases: seq<string>,
    vaccines: seq<Vaccine>,
    foodMain: string,
    dietType: string,
    dailyAmount: string,
    activityLevel: string,
    coexistsWithOtherPets: bool,
    ownerEmail: string)

  /** No two records of `pets` share an id. */
  predicate UniqueIds(pets: seq<Pet>) {
    forall i, j :: 0 <= i < j < |pets| ==> pets[i].id != pets[j].id
  }

  /** `id` is not the id of any record of `pets`. */
  predicate FreshId(pets: seq<Pet>, id: string) {
    forall i :: 0 <= i < |pets| ==> pets[i].id != id
  }
}
