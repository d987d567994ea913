/** The facts the staff record page derives from one pet (components/staff-pet-detail.tsx):
    the expired vaccines, whether the alert panel appears, the padded ID and the badges. */
module StaffPetDetail {
  import opened Wrappers
  import opened Text
  import opened PetData
  import opened Seqs
  import Dashboard

  /** The allergies text that means "none known". */
  const NoKnownAllergies := "Ninguna conocida"

  function IsExpired(): Vaccine -> bool {
    (v: Vaccine) => v.status == Vencida
  }

  /** `expiredVaccines`. */
  function ExpiredVaccines(pet: Pet): seq<Vaccine> {
    Filter(IsExpired(), pet.vaccines)
  }

  /** The expired vaccines are the vaccines of status "Vencida", in their order; there are
      some exactly when one of the vaccines is expired. */
  lemma ExpiredVaccinesSpec(pet: Pet)
    ensures IsSublist(ExpiredVaccines(pet), pet.vaccines)
    ensures forall v :: v in ExpiredVaccines(pet) <==> v in pet.vaccines && v.status == Vencida
    ensures |ExpiredVaccines(pet)| > 0 <==> exists i :: 0 <= i < |pet.vaccines| && pet.vaccines[i].status == Vencida
  {
    FilterIsSublist(IsExpired(), pet.vaccines);
    var r := ExpiredVaccines(pet);
    if |r| > 0 {
      assert r[0] in r;
    }
    if exists i :: 0 <= i < |pet.vaccines| && pet.vaccines[i].status == Vencida {
      var i :| 0 <= i < |pet.vaccines| && pet.vaccines[i].status == Vencida;
      assert pet.vaccines[i] in r;
    }
  }

  /** `hasAlerts`. */
  predicate HasAlerts(pet: Pet) {
    |pet.diseases| > 0 || |ExpiredVaccines(pet)| > 0 || pet.allergies != NoKnownAllergies
  }

  /** The alert panel appears exactly when a disease is recorded, a vaccine is expired, or
      the allergies are not "Ninguna conocida"; being a service animal plays no part. */
  lemma HasAlertsIff(pet: Pet)
    ensures HasAlerts(pet) <==>
            || pet.diseases != []
            || (exists i :: 0 <= i < |pet.vaccines| && pet.vaccines[i].status == Vencida)
            || pet.allergies != "Ninguna conocida"
    ensures HasAlerts(pet.(isServiceAnimal := true)) == HasAlerts(pet.(isServiceAnimal := false))
  {
    ExpiredVaccinesSpec(pet);
  }

  /** `pet.id.padStart(5, "0")`. */
  function DisplayId(pet: Pet): string {
    PadStart(pet.id, 5, '0')
  }

  /** The shown ID is the id behind enough zeros to make five characters; an id of five or
      more characters is shown as it is. */
  lemma DisplayIdSpec(pet: Pet)
    ensures |pet.id| >= 5 ==> DisplayId(pet) == pet.id
    ensures |pet.id| < 5 ==> DisplayId(pet) == Repeat('0', 5 - |pet.id|) + pet.id
    ensures |DisplayId(pet)| >= 5
  {
  }

  /** The colours a badge comes in. */
  datatype Tone = Green | Amber | Red

  /** The badge of "Estado General". */
  function HealthBadge(pet: Pet): Tone {
    if pet.healthStatus == "Saludable" then Green else Amber
  }

  /** The badge of "Alergias": red, or none at all. */
  function AllergyBadge(pet: Pet): Option<Tone> {
    if pet.allergies != NoKnownAllergies then Some(Red) else None
  }

  /** The health badge is green exactly for "Saludable"; the allergy badge is shown, in red,
      exactly when the allergies are not "Ninguna conocida". */
  lemma BadgeTones(pet: Pet)
    ensures HealthBadge(pet) == Green <==> pet.healthStatus == "Saludable"
    ensures HealthBadge(pet) != Red
    ensures AllergyBadge(pet).Some? <==> pet.allergies != "Ninguna conocida"
    ensures AllergyBadge(pet).Some? ==> AllergyBadge(pet).value == Red
  {
  }

  /** The text of the vaccine section's badge for `n` expired vaccines: the count,
      " VENCIDA", and "S" for more than one. */
  function ExpiredTitle(n: nat): string {
    NatToString(n) + " VENCIDA" + (if n > 1 then "S" else "")
  }

  /** The vaccine section's badge: absent when nothing is expired. */
  function ExpiredBadge(pet: Pet): Option<string> {
    var n := |ExpiredVaccines(pet)|;
    if n > 0 then Some(ExpiredTitle(n)) else None
  }

  /** The title starts with the count and ends in "S" exactly when the count is above
      one. */
  lemma ExpiredTitleSpec(n: nat)
    ensures ParseLeadingInt(ExpiredTitle(n)) == Some(n)
    ensures var t := ExpiredTitle(n); |t| > 0 && (t[|t| - 1] == 'S' <==> n > 1)
  {
    var word := " VENCIDA";
    assert word[0] == ' ' && word[|word| - 1] == 'A';
    if n > 1 {
      assert NatToString(n) + word + "S" == NatToString(n) + (word + "S");
      CountThenText(n, word + "S");
    } else {
      assert NatToString(n) + word + "" == NatToString(n) + word;
      CountThenText(n, word);
    }
  }

  /** A count followed by a text that does not start with a digit reads back as the count,
      and ends the way the text does. */
  lemma CountThenText(n: nat, rest: string)
    requires rest != [] && !IsDigit(rest[0])
    ensures ParseLeadingInt(NatToString(n) + rest) == Some(n)
    ensures var t := NatToString(n) + rest; t[|t| - 1] == rest[|rest| - 1]
  {
    ParseRendered(n, rest);
  }

  /** The badge is there exactly when some vaccine is expired; its number reads back as
      the count, and it ends in "S" exactly when more than one is expired. */
  lemma ExpiredBadgeSpec(pet: Pet)
    ensures ExpiredBadge(pet).Some? <==>
            exists i :: 0 <= i < |pet.vaccines| && pet.vaccines[i].status == Vencida
    ensures ExpiredBadge(pet).Some? ==>
              var b := ExpiredBadge(pet).value;
              var n := |ExpiredVaccines(pet)|;
              ParseLeadingInt(b) == Some(n) && |b| > 0 && (b[|b| - 1] == 'S' <==> n > 1)
  {
    ExpiredVaccinesSpec(pet);
    var n := |ExpiredVaccines(pet)|;
    if n > 0 {
      ExpiredTitleSpec(n);
    }
  }

  /** The dashboard's "Proximas Vacunas" counter is the number of pets whose record page
      shows the expired badge. */
  lemma UpcomingCountsBadges(pets: seq<Pet>)
    ensures Dashboard.StatCounts(pets).upcomingVaccines ==
            |Filter((p: Pet) => ExpiredBadge(p).Some?, pets)|
  {
    forall p | p in pets
      ensures Dashboard.HasExpiredVaccine(p) == ExpiredBadge(p).Some?
    {
      ExpiredVaccinesSpec(p);
      ExpiredBadgeSpec(p);
    }
    FilterSamePredicate((p: Pet) => Dashboard.HasExpiredVaccine(p), (p: Pet) => ExpiredBadge(p).Some?, pets);
  }
}
