/** The pure part of the intake form (components/add-pet-form.tsx): the form's values,
    what `validate` makes of them, how an edit clears one field's error, and the record
    `handleSubmit` builds. */
module Intake {
  import opened Wrappers
  import opened Text
  import opened PetData
  import opened AgeCalculator
  import opened IntakeTables
  import opened EmailShape
  import opened VaccineEntries

  /** Every value the form holds, one per `useState` of its data. */
  datatype FormState = FormState(
    petName: string,
    species: string,
    breed: string,
    sex: string,
    birthDate: string,
    microchip: string,
    location: string,
    ownerEmail: string,
    isServiceAnimal: bool,
    isSterilized: bool,
    healthStatus: string,
    allergies: string,
    medications: string,
    selectedConditions: seq<string>,
    foodMain: string,
    dietType: string,
    dailyAmount: string,
    activityLevel: string,
    livesWithOtherPets: bool,
    vaccines: seq<VaccineFormEntry>)

  /** The values the form starts with. */
  const InitialForm := FormState("", "perro", "", "macho", "", "", "", "", false, false,
                                 "saludable", "", "", [], "", "pienso", "", "medio", false, [])

  /** The six required text inputs; each has its own error key. */
  datatype RequiredField = PetName | Breed | BirthDate | Microchip | Location | OwnerEmail

  /** The free-text inputs: the required ones and four optional ones. */
  datatype TextField =
    | Required(field: RequiredField)
    | Allergies | Medications | FoodMain | DailyAmount

  /** The select inputs, each holding an internal code. */
  datatype CodeField = SpeciesCode | SexCode | HealthCode | DietCode | ActivityCode

  /** The switches. */
  datatype FlagField = ServiceAnimal | Sterilized | LivesWithOtherPets

  function TextOf(s: FormState, f: TextField): string {
    match f
    case Required(PetName) => s.petName
    case Required(Breed) => s.breed
    case Required(BirthDate) => s.birthDate
    case Required(Microchip) => s.microchip
    case Required(Location) => s.location
    case Required(OwnerEmail) => s.ownerEmail
    case Allergies => s.allergies
    case Medications => s.medications
    case FoodMain => s.foodMain
    case DailyAmount => s.dailyAmount
  }

  /** The state after typing `v` into the text input `f`. */
  function WithText(s: FormState, f: TextField, v: string): (r: FormState)
    ensures TextOf(r, f) == v
    ensures forall g :: g != f ==> TextOf(r, g) == TextOf(s, g)
    ensures r.vaccines == s.vaccines && r.selectedConditions == s.selectedConditions
    ensures && r.species == s.species && r.sex == s.sex && r.healthStatus == s.healthStatus
            && r.dietType == s.dietType && r.activityLevel == s.activityLevel
    ensures && r.isServiceAnimal == s.isServiceAnimal && r.isSterilized == s.isSterilized
            && r.livesWithOtherPets == s.livesWithOtherPets
  {
    match f
    case Required(PetName) => s.(petName := v)
    case Required(Breed) => s.(breed := v)
    case Required(BirthDate) => s.(birthDate := v)
    case Required(Microchip) => s.(microchip := v)
    case Required(Location) => s.(location := v)
    case Required(OwnerEmail) => s.(ownerEmail := v)
    case Allergies => s.(allergies := v)
    case Medications => s.(medications := v)
    case FoodMain => s.(foodMain := v)
    case DailyAmount => s.(dailyAmount := v)
  }

  /** The state after choosing `v` in the select `f`. */
  function WithCode(s: FormState, f: CodeField, v: string): FormState {
    match f
    case SpeciesCode => s.(species := v)
    case SexCode => s.(sex := v)
    case HealthCode => s.(healthStatus := v)
    case DietCode => s.(dietType := v)
    case ActivityCode => s.(activityLevel := v)
  }

  /** The state after setting the switch `f` to `b`. */
  function WithFlag(s: FormState, f: FlagField, b: bool): FormState {
    match f
    case ServiceAnimal => s.(isServiceAnimal := b)
    case Sterilized => s.(isSterilized := b)
    case LivesWithOtherPets => s.(livesWithOtherPets := b)
  }

  // ---------------------------------------------------------------- validation

  /** The keys of the `errors` object. */
  datatype ErrorKey = FieldError(field: RequiredField) | VaccinesError

  /** The values stored in `errors`: the messages `validate` writes, and the empty string
      an edit writes over a shown one. */
  datatype Message = Cleared | Missing(field: RequiredField) | InvalidEmail | IncompleteVaccine

  /** The text of each message. */
  function MessageText(m: Message): string {
    match m
    case Cleared => ""
    case Missing(PetName) => "El nombre es obligatorio"
    case Missing(Breed) => "La raza es obligatoria"
    case Missing(BirthDate) => "La fecha de nacimiento es obligatoria"
    case Missing(Microchip) => "El microchip es obligatorio"
    case Missing(Location) => "La ubicacion es obligatoria"
    case Missing(OwnerEmail) => "El correo del dueno es obligatorio"
    case InvalidEmail => "Ingresa un correo valido"
    case IncompleteVaccine => "Completa todos los campos de cada vacuna (nombre y fecha son requeridos)"
  }

  /** Only the cleared value has the empty text, so a message is shown (`errors.k` is
      truthy) exactly when it is not cleared; the two email messages differ. */
  lemma MessageTextEmpty(m: Message)
    ensures MessageText(m) == "" <==> m == Cleared
    ensures MessageText(Missing(OwnerEmail)) != MessageText(InvalidEmail)
  {
    assert MessageText(Missing(OwnerEmail))[0] == 'E';
    if m != Cleared {
      assert |MessageText(m)| > 0;
    }
  }

  /** The `errors` object. Only the seven keys are ever written, so it is one optional slot
      per key; `None` is a key the object does not have. */
  datatype Errors = Errors(
    petName: Option<Message>,
    breed: Option<Message>,
    birthDate: Option<Message>,
    microchip: Option<Message>,
    location: Option<Message>,
    ownerEmail: Option<Message>,
    vaccines: Option<Message>)

  /** `{}`. */
  const NoErrors := Errors(None, None, None, None, None, None, None)

  /** `errors[k]`. */
  function ErrorAt(e: Errors, k: ErrorKey): Option<Message> {
    match k
    case FieldError(PetName) => e.petName
    case FieldError(Breed) => e.breed
    case FieldError(BirthDate) => e.birthDate
    case FieldError(Microchip) => e.microchip
    case FieldError(Location) => e.location
    case FieldError(OwnerEmail) => e.ownerEmail
    case VaccinesError => e.vaccines
  }

  /** `{...e, k: m}`: key `k` set to `m`, every other key as it was. */
  function SetError(e: Errors, k: ErrorKey, m: Message): (r: Errors)
    ensures ErrorAt(r, k) == Some(m)
    ensures forall j :: j != k ==> ErrorAt(r, j) == ErrorAt(e, j)
  {
    match k
    case FieldError(PetName) => e.(petName := Some(m))
    case FieldError(Breed) => e.(breed := Some(m))
    case FieldError(BirthDate) => e.(birthDate := Some(m))
    case FieldError(Microchip) => e.(microchip := Some(m))
    case FieldError(Location) => e.(location := Some(m))
    case FieldError(OwnerEmail) => e.(ownerEmail := Some(m))
    case VaccinesError => e.(vaccines := Some(m))
  }

  /** A vaccine row with a blank name or date. */
  predicate IsIncomplete(v: VaccineFormEntry) {
    IsBlank(v.name) || IsBlank(v.date)
  }

  /** The index of the first incomplete row, or `|entries|` when all are complete. */
  function FirstIncomplete(entries: seq<VaccineFormEntry>): (k: nat)
    ensures k <= |entries|
    ensures k < |entries| ==> IsIncomplete(entries[k])
    ensures forall i :: 0 <= i < k ==> !IsIncomplete(entries[i])
  {
    if entries == [] then 0
    else if IsIncomplete(entries[0]) then 0
    else 1 + FirstIncomplete(entries[1..])
  }

  /** `vaccines.find((v) => !v.name.trim() || !v.date.trim())`: the first incomplete row. */
  function FindIncomplete(entries: seq<VaccineFormEntry>): Option<VaccineFormEntry> {
    var k := FirstIncomplete(entries);
    if k < |entries| then Some(entries[k]) else None
  }

  /** The error `validate` gives a required input: blank, or (the email only) blank-free
      but not shaped like an address. The shape is tested on the untrimmed value. */
  function FieldErrorOf(s: FormState, f: RequiredField): Option<Message> {
    if IsBlank(TextOf(s, Required(f))) then Some(Missing(f))
    else if f == OwnerEmail then EmailShapeError(s.ownerEmail)
    else None
  }

  /** The regular-expression test of the address. */
  function EmailShapeError(email: string): Option<Message> {
    if IsEmailShaped(email) then None else Some(InvalidEmail)
  }

  /** The error of the vaccine list: some row is incomplete. */
  function VaccinesErrorOf(s: FormState): Option<Message> {
    if FindIncomplete(s.vaccines).Some? then Some(IncompleteVaccine) else None
  }

  /** The check behind each key. */
  function ErrorOf(s: FormState, k: ErrorKey): Option<Message> {
    match k
    case FieldError(f) => FieldErrorOf(s, f)
    case VaccinesError => VaccinesErrorOf(s)
  }

  /** `newErrors` as `validate` leaves it: every key whose check fails, with its message. */
  function ValidationErrors(s: FormState): Errors {
    Errors(FieldErrorOf(s, PetName), FieldErrorOf(s, Breed), FieldErrorOf(s, BirthDate),
           FieldErrorOf(s, Microchip), FieldErrorOf(s, Location), FieldErrorOf(s, OwnerEmail),
           VaccinesErrorOf(s))
  }

  /** What a successful validation requires, stated field by field. */
  ghost predicate IsValid(s: FormState) {
    && !IsBlank(s.petName) && !IsBlank(s.breed) && !IsBlank(s.birthDate)
    && !IsBlank(s.microchip) && !IsBlank(s.location) && !IsBlank(s.ownerEmail)
    && MatchesEmailPattern(s.ownerEmail)
    && forall i :: 0 <= i < |s.vaccines| ==> !IsBlank(s.vaccines[i].name) && !IsBlank(s.vaccines[i].date)
  }

  /** A key is in `newErrors` exactly when its check fails, with that check's message. */
  lemma ErrorKeyPresent(s: FormState, k: ErrorKey)
    ensures ErrorAt(ValidationErrors(s), k) == ErrorOf(s, k)
  {
  }

  /** The row `find` returns is absent exactly when every row is complete. */
  lemma FindIncompleteNone(entries: seq<VaccineFormEntry>)
    ensures FindIncomplete(entries).None? <==> forall i :: 0 <= i < |entries| ==> !IsIncomplete(entries[i])
  {
  }

  /** `validate` returns true (no key in `newErrors`) exactly when the form is valid. */
  lemma ValidIffNoErrors(s: FormState)
    ensures ValidationErrors(s) == NoErrors <==> IsValid(s)
  {
    EmailShapeCorrect(s.ownerEmail);
    FindIncompleteNone(s.vaccines);
  }

  /** The keys of `newErrors`: a required field's key exactly when it fails, the vaccines
      key exactly when some row is incomplete, each with its message. */
  lemma ValidationErrorKeys(s: FormState)
    ensures forall f :: ErrorAt(ValidationErrors(s), FieldError(f)).Some? <==>
              IsBlank(TextOf(s, Required(f))) || (f == OwnerEmail && !MatchesEmailPattern(s.ownerEmail))
    ensures forall f :: ErrorAt(ValidationErrors(s), FieldError(f)).Some? ==>
              ErrorAt(ValidationErrors(s), FieldError(f)).value ==
                if IsBlank(TextOf(s, Required(f))) then Missing(f) else InvalidEmail
    ensures ErrorAt(ValidationErrors(s), VaccinesError).Some? <==>
              exists i :: 0 <= i < |s.vaccines| && IsIncomplete(s.vaccines[i])
  {
    EmailShapeCorrect(s.ownerEmail);
    FindIncompleteNone(s.vaccines);
    forall f: RequiredField
      ensures ErrorAt(ValidationErrors(s), FieldError(f)) == FieldErrorOf(s, f)
    {
      ErrorKeyPresent(s, FieldError(f));
    }
  }

  /** The email error is "Ingresa un correo valido" exactly when the address is non-blank
      but does not match; surrounding spaces make it fail. */
  lemma EmailErrorMessage(s: FormState)
    ensures ValidationErrors(s).ownerEmail == Some(InvalidEmail) <==>
            !IsBlank(s.ownerEmail) && !MatchesEmailPattern(s.ownerEmail)
    ensures |s.ownerEmail| > 0 && IsSpace(s.ownerEmail[0]) ==> ValidationErrors(s).ownerEmail.Some?
  {
    EmailShapeCorrect(s.ownerEmail);
  }

  // ---------------------------------------------------------------- error clearing

  /** An error the form shows: present and with a non-empty text (`errors.petName &&`). */
  predicate Shown(errors: Errors, k: ErrorKey) {
    ErrorAt(errors, k).Some? && ErrorAt(errors, k).value != Cleared
  }

  /** `if (errors.k) setErrors((prev) => ({...prev, k: ""}))`, run when input `k` changes:
      the shown error of `k` is blanked, the key stays, and nothing else changes. */
  function ClearShownError(errors: Errors, k: ErrorKey): (r: Errors)
    ensures !Shown(r, k)
    ensures ErrorAt(r, k).Some? <==> ErrorAt(errors, k).Some?
    ensures forall j :: j != k ==> ErrorAt(r, j) == ErrorAt(errors, j)
    ensures !Shown(errors, k) ==> r == errors
  {
    if Shown(errors, k) then SetError(errors, k, Cleared) else errors
  }

  // ---------------------------------------------------------------- the new record

  const CatImage := "/images/luna-cat.jpg"
  const DogImage := "/images/champeta-dog.jpg"

  /** `finalVaccines`: the row without its key and edit flag; an empty vet id becomes
      "N/A". Name and date are not trimmed. */
  function FinalVaccine(v: VaccineFormEntry): Vaccine {
    Vaccine(v.name, v.date, if v.vetId == "" then "N/A" else v.vetId, v.status)
  }

  /** `s.trim() || fallback`. */
  function TrimOr(s: string, fallback: string): string {
    if IsBlank(s) then fallback else Trim(s)
  }

  /** The record `handleSubmit` passes to `addPet`, with key `id`, on the day `now`. */
  function NewPet(s: FormState, id: string, now: Date): Pet
    requires AgeDefined(Trim(s.birthDate))
  {
    RecordOf(s, id, CalculateAge(Trim(s.birthDate), now))
  }

  /** The record with a given age label. */
  function RecordOf(s: FormState, id: string, age: string): Pet {
    Pet(
      id := id,
      name := Trim(s.petName),
      species := Lookup(SpeciesMap, s.species, s.species),
      breed := Trim(s.breed),
      sex := Lookup(SexMap, s.sex, s.sex),
      birthDate := Trim(s.birthDate),
      age := age,
      microchip := Trim(s.microchip),
      location := Trim(s.location),
      imageUrl := if s.species == "gato" then CatImage else DogImage,
      isServiceAnimal := s.isServiceAnimal,
      isSterilized := s.isSterilized,
      healthStatus := Lookup(HealthStatusMap, s.healthStatus, "Saludable"),
      allergies := TrimOr(s.allergies, "Ninguna conocida"),
      medications := TrimOr(s.medications, "Ninguno"),
      diseases := s.selectedConditions,
      vaccines := seq(|s.vaccines|, i requires 0 <= i < |s.vaccines| => FinalVaccine(s.vaccines[i])),
      foodMain := TrimOr(s.foodMain, "Sin especificar"),
      dietType := Lookup(DietMap, s.dietType, s.dietType),
      dailyAmount := TrimOr(s.dailyAmount, "Sin especificar"),
      activityLevel := Lookup(ActivityMap, s.activityLevel, s.activityLevel),
      coexistsWithOtherPets := s.livesWithOtherPets,
      ownerEmail := Trim(s.ownerEmail))
  }

  /** `s.trim() || fallback` with a trimmed, non-empty fallback is trimmed and non-empty:
      the fallback for a blank input, the trimmed input otherwise. */
  lemma TrimOrTrimmed(s: string, fallback: string)
    requires fallback != [] && IsTrimmed(fallback)
    ensures IsTrimmed(TrimOr(s, fallback)) && TrimOr(s, fallback) != ""
    ensures IsBlank(s) ==> TrimOr(s, fallback) == fallback
    ensures !IsBlank(s) ==> TrimOr(s, fallback) == Trim(s)
  {
    BlankIffTrimEmpty(s);
  }

  /** Every typed-in text field of the record is trimmed, and the optional ones are never
      empty: a blank input becomes its sentinel. */
  lemma NewPetTextFields(s: FormState, id: string, age: string)
    ensures var p := RecordOf(s, id, age);
            && IsTrimmed(p.name) && IsTrimmed(p.breed) && IsTrimmed(p.birthDate)
            && IsTrimmed(p.microchip) && IsTrimmed(p.location) && IsTrimmed(p.ownerEmail)
            && IsTrimmed(p.allergies) && IsTrimmed(p.medications)
            && IsTrimmed(p.foodMain) && IsTrimmed(p.dailyAmount)
            && p.allergies != "" && p.medications != "" && p.foodMain != "" && p.dailyAmount != ""
            && (IsBlank(s.allergies) ==> p.allergies == "Ninguna conocida")
            && (IsBlank(s.medications) ==> p.medications == "Ninguno")
            && (IsBlank(s.foodMain) ==> p.foodMain == "Sin especificar")
            && (IsBlank(s.dailyAmount) ==> p.dailyAmount == "Sin especificar")
  {
    TrimOrTrimmed(s.allergies, "Ninguna conocida");
    TrimOrTrimmed(s.medications, "Ninguno");
    TrimOrTrimmed(s.foodMain, "Sin especificar");
    TrimOrTrimmed(s.dailyAmount, "Sin especificar");
  }

  /** A record built from a valid form has every required field non-empty. */
  lemma ValidFormGivesCompleteRecord(s: FormState, id: string, age: string)
    requires IsValid(s)
    ensures var p := RecordOf(s, id, age);
            && p.name != "" && p.breed != "" && p.birthDate != ""
            && p.microchip != "" && p.location != "" && p.ownerEmail != ""
  {
    BlankIffTrimEmpty(s.petName);
    BlankIffTrimEmpty(s.breed);
    BlankIffTrimEmpty(s.birthDate);
    BlankIffTrimEmpty(s.microchip);
    BlankIffTrimEmpty(s.location);
    BlankIffTrimEmpty(s.ownerEmail);
  }

  /** ... and a complete name and date on every vaccine. */
  lemma ValidFormGivesCompleteVaccines(s: FormState, id: string, age: string)
    requires IsValid(s)
    ensures var p := RecordOf(s, id, age);
            forall i :: 0 <= i < |p.vaccines| ==> !IsBlank(p.vaccines[i].name) && !IsBlank(p.vaccines[i].date)
  {
    var p := RecordOf(s, id, age);
    forall i | 0 <= i < |p.vaccines|
      ensures !IsBlank(p.vaccines[i].name) && !IsBlank(p.vaccines[i].date)
    {
      assert p.vaccines[i] == FinalVaccine(s.vaccines[i]);
    }
  }

  /** The coded fields: a known code gets its label, an unknown one is kept as it is
      (the health status falls back to "Saludable" instead); the picture is the cat's
      exactly for the code "gato". */
  lemma NewPetCodes(s: FormState, id: string, age: string)
    ensures var p := RecordOf(s, id, age);
            && p.species == (if Get(SpeciesMap, s.species).Some? then Get(SpeciesMap, s.species).value else s.species)
            && p.sex == (if Get(SexMap, s.sex).Some? then Get(SexMap, s.sex).value else s.sex)
            && p.dietType == (if Get(DietMap, s.dietType).Some? then Get(DietMap, s.dietType).value else s.dietType)
            && p.activityLevel ==
                 (if Get(ActivityMap, s.activityLevel).Some? then Get(ActivityMap, s.activityLevel).value else s.activityLevel)
            && p.healthStatus ==
                 (if Get(HealthStatusMap, s.healthStatus).Some? then Get(HealthStatusMap, s.healthStatus).value else "Saludable")
            && p.healthStatus in {"Saludable", "Cuidado Especial"}
            && (p.imageUrl == CatImage <==> s.species == "gato")
  {
    TablesHaveNoEmptyLabel();
    GetNoEmptyLabel(SpeciesMap, s.species);
    GetNoEmptyLabel(SexMap, s.sex);
    GetNoEmptyLabel(DietMap, s.dietType);
    GetNoEmptyLabel(ActivityMap, s.activityLevel);
    GetNoEmptyLabel(HealthStatusMap, s.healthStatus);
    HealthStatusIsCoarse(s.healthStatus);
  }

  /** The record's vaccines are the form's rows, in order, with "N/A" for an empty vet id
      and name, date and status as typed. */
  lemma NewPetVaccines(s: FormState, id: string, age: string)
    ensures var p := RecordOf(s, id, age);
            && |p.vaccines| == |s.vaccines|
            && forall i :: 0 <= i < |s.vaccines| ==>
                 var v := s.vaccines[i];
                 p.vaccines[i].name == v.name && p.vaccines[i].date == v.date &&
                 p.vaccines[i].status == v.status &&
                 (p.vaccines[i].vetId == "N/A" <==> v.vetId == "" || v.vetId == "N/A") &&
                 (v.vetId != "" ==> p.vaccines[i].vetId == v.vetId)
  {
  }
}
