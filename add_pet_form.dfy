/** The intake form as the component holds it (components/add-pet-form.tsx): its input
    values, the `errors` object, the success flag, and the handlers that change them.
    What the handlers compute is the pure model in `Intake` and `VaccineEntries`. */
module AddPetForm {
  import opened Wrappers
  import opened Text
  import opened PetData
  import opened PetContext
  import opened AgeCalculator
  import opened EmailShape
  import opened VaccineEntries
  import opened Intake

  class Form {
    /** The store `usePetContext()` hands the form. */
    const store: PetStore

    /** The values of the form's inputs, lists and switches, one per `useState`. */
    var values: FormState
    var errors: Errors
    var showSuccess: bool

    /** What the handlers keep: the vaccine rows have distinct ids and the selected
        conditions hold no label twice. */
    ghost predicate Valid()
      reads this
    {
      UniqueKeys(values.vaccines) && NoDuplicates(values.selectedConditions)
    }

    /** The form as it is mounted: every `useState` at its initial value. */
    constructor (store: PetStore)
      ensures this.store == store
      ensures values == InitialForm && errors == NoErrors && !showSuccess
      ensures Valid()
    {
      this.store := store;
      values := InitialForm;
      errors, showSuccess := NoErrors, false;
    }

    /** The `onChange` of a text input: store the value; for one of the six required
        inputs also blank its error if one is shown. */
    method EditText(f: TextField, v: string)
      requires Valid()
      modifies this
      ensures Valid()
      ensures values == WithText(old(values), f, v)
      ensures errors == if f.Required? then ClearShownError(old(errors), FieldError(f.field)) else old(errors)
      ensures showSuccess == old(showSuccess)
    {
      values := WithText(values, f, v);
      if f.Required? {
        var k := FieldError(f.field);
        if Shown(errors, k) {
          errors := SetError(errors, k, Cleared);
        }
      }
    }

    /** The `onValueChange` of a select. */
    method EditCode(f: CodeField, v: string)
      requires Valid()
      modifies this
      ensures Valid()
      ensures values == WithCode(old(values), f, v)
      ensures errors == old(errors) && showSuccess == old(showSuccess)
    {
      values := WithCode(values, f, v);
    }

    /** The `onCheckedChange` of a switch. */
    method EditFlag(f: FlagField, b: bool)
      requires Valid()
      modifies this
      ensures Valid()
      ensures values == WithFlag(old(values), f, b)
      ensures errors == old(errors) && showSuccess == old(showSuccess)
    {
      values := WithFlag(values, f, b);
    }

    /** `toggleCondition(condition)`. */
    method ToggleCondition(condition: string)
      requires Valid()
      modifies this
      ensures Valid()
      ensures values == old(values).(selectedConditions := Toggled(old(values.selectedConditions), condition))
      ensures errors == old(errors) && showSuccess == old(showSuccess)
    {
      ToggledNoDuplicates(values.selectedConditions, condition);
      values := values.(selectedConditions := Toggled(values.selectedConditions, condition));
    }

    /** `addVaccine()`, with `newId` standing for `crypto.randomUUID()`. */
    method AddVaccine(newId: string)
      requires Valid() && !HasKey(values.vaccines, newId)
      modifies this
      ensures Valid()
      ensures values == old(values).(vaccines := Added(old(values.vaccines), newId))
      ensures errors == old(errors) && showSuccess == old(showSuccess)
    {
      AddedKeepsKeysUnique(values.vaccines, newId);
      values := values.(vaccines := Added(values.vaccines, newId));
    }

    /** `updateVaccine(id, field, value)`. */
    method UpdateVaccine(id: string, e: VaccineEdit)
      requires Valid()
      modifies this
      ensures Valid()
      ensures values == old(values).(vaccines := Updated(old(values.vaccines), id, e))
      ensures errors == old(errors) && showSuccess == old(showSuccess)
    {
      values := values.(vaccines := Updated(values.vaccines, id, e));
    }

    /** `deleteVaccine(id)`. */
    method DeleteVaccine(id: string)
      requires Valid()
      modifies this
      ensures Valid()
      ensures values == old(values).(vaccines := Removed(old(values.vaccines), id))
      ensures errors == old(errors) && showSuccess == old(showSuccess)
      ensures |values.vaccines| ==
                if HasKey(old(values.vaccines), id) then |old(values.vaccines)| - 1 else |old(values.vaccines)|
    {
      RemovedKeepsKeysUnique(values.vaccines, id);
      RemovedSpec(values.vaccines, id);
      values := values.(vaccines := Removed(values.vaccines, id));
    }

    /** `toggleEditVaccine(id)`. */
    method ToggleEditVaccine(id: string)
      requires Valid()
      modifies this
      ensures Valid()
      ensures values == old(values).(vaccines := EditToggled(old(values.vaccines), id))
      ensures errors == old(errors) && showSuccess == old(showSuccess)
    {
      values := values.(vaccines := EditToggled(values.vaccines, id));
    }

    /** `validate()`: builds `newErrors`, stores it in `errors` and reports whether it is
        empty, which is exactly when the form is valid. */
    method Validate() returns (ok: bool)
      requires Valid()
      modifies this`errors
      ensures Valid()
      ensures errors == ValidationErrors(values)
      ensures ok <==> errors == NoErrors
      ensures ok <==> IsValid(values)
    {
      var newErrors := CollectErrors(values);
      errors := newErrors;
      ok := newErrors == NoErrors;
      ValidIffNoErrors(values);
    }

    /** `handleSubmit()`, with `newId` standing for `crypto.randomUUID()` and `now` for the
        day: validate; when that fails nothing is added; otherwise `addPet` is called once
        with the assembled record and the success flag is raised. The input values lie
        outside the frame, so they stay as they were entered. */
    method HandleSubmit(newId: string, now: Date) returns (submitted: bool)
      requires Valid() && store.Valid()
      requires IsValid(values) ==> AgeDefined(Trim(values.birthDate))
      modifies this`errors, this`showSuccess, store
      ensures Valid() && store.Valid()
      ensures errors == ValidationErrors(values)
      ensures submitted <==> IsValid(values)
      ensures submitted ==>
                && store.pets == [NewPet(values, newId, now)] + old(store.pets)
                && store.history == old(store.history) + [NewPet(values, newId, now)]
                && showSuccess
      ensures !submitted ==>
                store.pets == old(store.pets) && store.history == old(store.history) &&
                showSuccess == old(showSuccess)
    {
      submitted := Validate();
      Finish(submitted, newId, now);
    }

    /** The rest of `handleSubmit()` after `validate()` has answered `ok`: when it passed,
        assemble the record from the entered values, hand it to `addPet` and raise the
        success flag; otherwise return without touching the store. The flag is written
        first here; both writes land together once the handler returns. */
    method Finish(ok: bool, id: string, now: Date)
      requires Valid() && store.Valid() && (ok ==> AgeDefined(Trim(values.birthDate)))
      modifies this`showSuccess, store
      ensures Valid() && store.Valid()
      ensures ok ==>
                && store.pets == [NewPet(values, id, now)] + old(store.pets)
                && store.history == old(store.history) + [NewPet(values, id, now)]
                && showSuccess
      ensures !ok ==>
                store.pets == old(store.pets) && store.history == old(store.history) &&
                showSuccess == old(showSuccess)
    {
      if !ok {
        return;
      }
      showSuccess := true;
      AddRecord(store, values, id, now);
    }
  }

  /** `addPet(newPet)` with the record assembled from the entered values `s`. */
  method AddRecord(store: PetStore, s: FormState, id: string, now: Date)
    requires store.Valid() && AgeDefined(Trim(s.birthDate))
    modifies store
    ensures store.Valid()
    ensures store.pets == [NewPet(s, id, now)] + old(store.pets)
    ensures store.history == old(store.history) + [NewPet(s, id, now)]
  {
    var newPet := NewPet(s, id, now);
    store.AddPet(newPet);
  }

  /** The body of `validate()` up to `setErrors`: one check per required input, the email
      shape when the address is not blank, then the search for an incomplete vaccine row,
      each failing check writing its key and message into `newErrors`. */
  method CollectErrors(s: FormState) returns (newErrors: Errors)
    ensures newErrors == ValidationErrors(s)
  {
    newErrors := NoErrors;
    if IsBlank(s.petName) {
      newErrors := newErrors.(petName := Some(Missing(PetName)));
    }
    assert newErrors.petName == FieldErrorOf(s, PetName);
    if IsBlank(s.breed) {
      newErrors := newErrors.(breed := Some(Missing(Breed)));
    }
    assert newErrors.breed == FieldErrorOf(s, Breed);
    if IsBlank(s.birthDate) {
      newErrors := newErrors.(birthDate := Some(Missing(BirthDate)));
    }
    assert newErrors.birthDate == FieldErrorOf(s, BirthDate);
    if IsBlank(s.microchip) {
      newErrors := newErrors.(microchip := Some(Missing(Microchip)));
    }
    assert newErrors.microchip == FieldErrorOf(s, Microchip);
    if IsBlank(s.location) {
      newErrors := newErrors.(location := Some(Missing(Location)));
    }
    assert newErrors.location == FieldErrorOf(s, Location);
    if IsBlank(s.ownerEmail) {
      newErrors := newErrors.(ownerEmail := Some(Missing(OwnerEmail)));
    } else if !IsEmailShaped(s.ownerEmail) {
      newErrors := newErrors.(ownerEmail := Some(InvalidEmail));
    }
    assert newErrors.ownerEmail == FieldErrorOf(s, OwnerEmail);
    var incompleteVaccine := FindIncomplete(s.vaccines);
    if incompleteVaccine.Some? {
      newErrors := newErrors.(vaccines := Some(IncompleteVaccine));
    }
  }
}
