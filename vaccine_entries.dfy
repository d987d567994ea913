/** The draft lists the intake form edits in place (components/add-pet-form.tsx): the
    selected disease labels, and the vaccine entries, each keyed by its id. */
module VaccineEntries {
  import opened Seqs
  import opened PetData

  // ---------------------------------------------------------------- conditions

  /** No label appears twice. */
  predicate NoDuplicates(s: seq<string>) {
    forall i, j :: 0 <= i < j < |s| ==> s[i] != s[j]
  }

  function IsNot(c: string): string -> bool {
    (x: string) => x != c
  }

  /** `toggleCondition(c)`: drop `c` when it is present, else append it. */
  function Toggled(conditions: seq<string>, c: string): (r: seq<string>)
    ensures c in r <==> c !in conditions
    ensures forall x :: x != c ==> (x in r <==> x in conditions)
    ensures c !in conditions ==> r == conditions + [c]
    ensures c in conditions ==> IsSublist(r, conditions)
  {
    if c in conditions then
      FilterIsSublist(IsNot(c), conditions);
      Filter(IsNot(c), conditions)
    else conditions + [c]
  }

  /** Toggling never introduces a duplicate label. */
  lemma ToggledNoDuplicates(conditions: seq<string>, c: string)
    requires NoDuplicates(conditions)
    ensures NoDuplicates(Toggled(conditions, c))
  {
    if c in conditions {
      FilterNoDuplicates(IsNot(c), conditions);
    }
  }

  lemma {:induction false} FilterNoDuplicates(f: string -> bool, s: seq<string>)
    requires NoDuplicates(s)
    ensures NoDuplicates(Filter(f, s))
  {
    if s != [] {
      FilterNoDuplicates(f, s[1..]);
      assert s[0] !in s[1..] by {
        forall j | 0 <= j < |s[1..]| ensures s[1..][j] != s[0] {
          assert s[1..][j] == s[j + 1];
        }
      }
      assert s[0] !in Filter(f, s[1..]);
    }
  }

  /** Toggling a label that was absent, twice, restores the list exactly. */
  lemma {:induction false} ToggleTwiceAbsent(conditions: seq<string>, c: string)
    requires c !in conditions
    ensures Toggled(Toggled(conditions, c), c) == conditions
  {
    FilterAppend(IsNot(c), conditions, [c]);
    FilterKeepsAll(IsNot(c), conditions);
    assert Filter(IsNot(c), [c]) == [] by {
      assert [c][1..] == [];
    }
  }

  /** Toggling a label that was present, twice, keeps the same labels (as a set: the label
      comes back at the end of the list). */
  lemma ToggleTwicePresent(conditions: seq<string>, c: string)
    requires c in conditions
    ensures forall x :: x in Toggled(Toggled(conditions, c), c) <==> x in conditions
    ensures Toggled(Toggled(conditions, c), c) == Filter(IsNot(c), conditions) + [c]
  {
  }

  // ---------------------------------------------------------------- vaccine entries

  /** A vaccine row of the form: a `Vaccine` plus its key and whether it is open for
      editing. */
  datatype VaccineFormEntry = VaccineFormEntry(
    id: string, name: string, date: string, vetId: string,
    status: VaccineStatus, isEditing: bool)

  /** What `updateVaccine(id, field, value)` is called with: one of the four editable
      fields and its new value. */
  datatype VaccineEdit =
    | SetName(name: string)
    | SetDate(date: string)
    | SetVetId(vetId: string)
    | SetStatus(status: VaccineStatus)

  function ApplyEdit(v: VaccineFormEntry, e: VaccineEdit): VaccineFormEntry {
    match e
    case SetName(x) => v.(name := x)
    case SetDate(x) => v.(date := x)
    case SetVetId(x) => v.(vetId := x)
    case SetStatus(x) => v.(status := x)
  }

  /** The row `addVaccine` appends under the fresh key `id`. */
  function BlankEntry(id: string): VaccineFormEntry {
    VaccineFormEntry(id, "", "", "", Vigente, true)
  }

  /** `addVaccine()`. */
  function Added(entries: seq<VaccineFormEntry>, id: string): (r: seq<VaccineFormEntry>)
    ensures |r| == |entries| + 1 && r[..|entries|] == entries
    ensures var v := r[|entries|];
            v.id == id && v.name == "" && v.date == "" && v.vetId == "" &&
            v.status == Vigente && v.isEditing
  {
    entries + [BlankEntry(id)]
  }

  /** `updateVaccine(id, field, value)`: `prev.map((v) => v.id === id ? {...v, [field]: value} : v)`. */
  function Updated(entries: seq<VaccineFormEntry>, id: string, e: VaccineEdit): seq<VaccineFormEntry> {
    seq(|entries|, i requires 0 <= i < |entries| =>
      if entries[i].id == id then ApplyEdit(entries[i], e) else entries[i])
  }

  /** `toggleEditVaccine(id)`: flips `isEditing` on the rows with key `id`. */
  function EditToggled(entries: seq<VaccineFormEntry>, id: string): seq<VaccineFormEntry> {
    seq(|entries|, i requires 0 <= i < |entries| =>
      if entries[i].id == id then entries[i].(isEditing := !entries[i].isEditing) else entries[i])
  }

  function IdIsNot(id: string): VaccineFormEntry -> bool {
    (v: VaccineFormEntry) => v.id != id
  }

  /** `deleteVaccine(id)`: `prev.filter((v) => v.id !== id)`. */
  function Removed(entries: seq<VaccineFormEntry>, id: string): seq<VaccineFormEntry> {
    Filter(IdIsNot(id), entries)
  }

  /** No two rows share a key. */
  predicate UniqueKeys(entries: seq<VaccineFormEntry>) {
    forall i, j :: 0 <= i < j < |entries| ==> entries[i].id != entries[j].id
  }

  predicate HasKey(entries: seq<VaccineFormEntry>, id: string) {
    exists i :: 0 <= i < |entries| && entries[i].id == id
  }

  /** `updateVaccine` keeps the length, every key and every row with another key; the
      rows with key `id` get exactly the edited field. */
  lemma UpdatedOnlyMatching(entries: seq<VaccineFormEntry>, id: string, e: VaccineEdit)
    ensures |Updated(entries, id, e)| == |entries|
    ensures forall i :: 0 <= i < |entries| ==>
              Updated(entries, id, e)[i].id == entries[i].id &&
              Updated(entries, id, e)[i].isEditing == entries[i].isEditing &&
              (entries[i].id != id ==> Updated(entries, id, e)[i] == entries[i])
    ensures forall i :: 0 <= i < |entries| && entries[i].id == id ==>
              match e
              case SetName(x) => Updated(entries, id, e)[i] == entries[i].(name := x)
              case SetDate(x) => Updated(entries, id, e)[i] == entries[i].(date := x)
              case SetVetId(x) => Updated(entries, id, e)[i] == entries[i].(vetId := x)
              case SetStatus(x) => Updated(entries, id, e)[i] == entries[i].(status := x)
  {
  }

  /** `toggleEditVaccine` keeps the length and everything but the `isEditing` of the rows
      with key `id`; doing it twice changes nothing. */
  lemma EditToggledOnlyMatching(entries: seq<VaccineFormEntry>, id: string)
    ensures |EditToggled(entries, id)| == |entries|
    ensures forall i :: 0 <= i < |entries| ==>
              EditToggled(entries, id)[i].(isEditing := entries[i].isEditing) == entries[i] &&
              (EditToggled(entries, id)[i].isEditing <==> (entries[i].isEditing != (entries[i].id == id)))
    ensures EditToggled(EditToggled(entries, id), id) == entries
  {
  }

  /** `deleteVaccine` leaves no row with key `id`, keeps every other row in its order, and
      with unique keys removes exactly one row when the key is present. */
  lemma RemovedSpec(entries: seq<VaccineFormEntry>, id: string)
    ensures !HasKey(Removed(entries, id), id)
    ensures forall v :: v in Removed(entries, id) <==> v in entries && v.id != id
    ensures IsSublist(Removed(entries, id), entries)
    ensures UniqueKeys(entries) ==>
              |Removed(entries, id)| == if HasKey(entries, id) then |entries| - 1 else |entries|
  {
    FilterIsSublist(IdIsNot(id), entries);
    if UniqueKeys(entries) {
      RemovedCount(entries, id);
    }
  }

  lemma {:induction false} RemovedCount(entries: seq<VaccineFormEntry>, id: string)
    requires UniqueKeys(entries)
    ensures |Removed(entries, id)| == if HasKey(entries, id) then |entries| - 1 else |entries|
  {
    if entries != [] {
      var tail := entries[1..];
      UniqueKeysTail(entries);
      RemovedCount(tail, id);
      HasKeyCons(entries, id);
      if entries[0].id == id {
        AbsentAfterHead(entries);
        FilterKeepsAll(IdIsNot(id), tail);
      }
    }
  }

  lemma UniqueKeysTail(entries: seq<VaccineFormEntry>)
    requires entries != [] && UniqueKeys(entries)
    ensures UniqueKeys(entries[1..])
  {
    var tail := entries[1..];
    forall i, j | 0 <= i < j < |tail| ensures tail[i].id != tail[j].id {
      assert tail[i] == entries[i + 1] && tail[j] == entries[j + 1];
    }
  }

  lemma HasKeyCons(entries: seq<VaccineFormEntry>, id: string)
    requires entries != []
    ensures HasKey(entries, id) <==> entries[0].id == id || HasKey(entries[1..], id)
  {
    var tail := entries[1..];
    if HasKey(entries, id) {
      var i :| 0 <= i < |entries| && entries[i].id == id;
      if i > 0 { assert tail[i - 1] == entries[i]; }
    }
    if HasKey(tail, id) {
      var i :| 0 <= i < |tail| && tail[i].id == id;
      assert entries[i + 1] == tail[i];
    }
  }

  /** With unique keys, the head's key occurs nowhere in the tail. */
  lemma AbsentAfterHead(entries: seq<VaccineFormEntry>)
    requires entries != [] && UniqueKeys(entries)
    ensures forall v :: v in entries[1..] ==> IdIsNot(entries[0].id)(v)
  {
    var tail := entries[1..];
    forall v | v in tail ensures v.id != entries[0].id {
      var i :| 0 <= i < |tail| && tail[i] == v;
      assert tail[i] == entries[i + 1];
    }
  }

  /** Every list edit keeps the keys unique, given a fresh key for `addVaccine`. */
  lemma EditsKeepKeysUnique(entries: seq<VaccineFormEntry>, id: string, e: VaccineEdit, newId: string)
    requires UniqueKeys(entries)
    requires !HasKey(entries, newId)
    ensures UniqueKeys(Added(entries, newId))
    ensures UniqueKeys(Updated(entries, id, e))
    ensures UniqueKeys(EditToggled(entries, id))
    ensures UniqueKeys(Removed(entries, id))
  {
    RemovedKeepsKeysUnique(entries, id);
    AddedKeepsKeysUnique(entries, newId);
  }

  /** `addVaccine` with a fresh key keeps the keys unique. */
  lemma AddedKeepsKeysUnique(entries: seq<VaccineFormEntry>, newId: string)
    requires UniqueKeys(entries) && !HasKey(entries, newId)
    ensures UniqueKeys(Added(entries, newId))
  {
    var a := Added(entries, newId);
    forall i, j | 0 <= i < j < |a| ensures a[i].id != a[j].id {
      if j == |entries| {
        assert a[i] == entries[i];
      }
    }
  }

  /** `deleteVaccine` keeps the keys unique. */
  lemma RemovedKeepsKeysUnique(entries: seq<VaccineFormEntry>, id: string)
    requires UniqueKeys(entries)
    ensures UniqueKeys(Removed(entries, id))
  {
    FilterIsSublist(IdIsNot(id), entries);
    SublistUniqueKeys(Removed(entries, id), entries);
  }

  lemma {:induction false} SublistUniqueKeys(a: seq<VaccineFormEntry>, b: seq<VaccineFormEntry>)
    requires IsSublist(a, b) && UniqueKeys(b)
    ensures UniqueKeys(a)
    decreases |b|
  {
    if a != [] && b != [] {
      var tb := b[1..];
      assert UniqueKeys(tb) by {
        forall i, j | 0 <= i < j < |tb| ensures tb[i].id != tb[j].id {
          assert tb[i] == b[i + 1] && tb[j] == b[j + 1];
        }
      }
      if a[0] == b[0] && IsSublist(a[1..], tb) {
        SublistUniqueKeys(a[1..], tb);
        SublistElements(a[1..], tb);
        forall i, j | 0 <= i < j < |a| ensures a[i].id != a[j].id {
          if i == 0 {
            assert a[j] == a[1..][j - 1] && a[j] in tb;
            var k :| 0 <= k < |tb| && tb[k] == a[j];
            assert b[k + 1] == a[j];
          } else {
            assert a[i] == a[1..][i - 1] && a[j] == a[1..][j - 1];
          }
        }
      } else {
        SublistUniqueKeys(a, tb);
      }
    }
  }

  lemma {:induction false} SublistElements<T>(a: seq<T>, b: seq<T>)
    requires IsSublist(a, b)
    ensures forall x :: x in a ==> x in b
    decreases |b|
  {
    if a != [] && b != [] {
      if a[0] == b[0] && IsSublist(a[1..], b[1..]) {
        SublistElements(a[1..], b[1..]);
        forall x | x in a ensures x in b {
          if x != a[0] {
            var i :| 0 <= i < |a| && a[i] == x;
            assert a[1..][i - 1] == x;
            assert x in b[1..];
            var k :| 0 <= k < |b[1..]| && b[1..][k] == x;
            assert b[k + 1] == x;
          }
        }
      } else {
        SublistElements(a, b[1..]);
      }
    }
  }
}
