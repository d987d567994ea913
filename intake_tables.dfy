/** The fixed tables the intake form maps its select codes through
    (components/add-pet-form.tsx), and the `table[code] || fallback` lookup it uses. Each
    table is an object literal; it is modelled as its list of entries, in source order. */
module IntakeTables {
  import opened Wrappers

  /** One `code: "Label"` property of an object literal. */
  datatype Entry = Entry(code: string, text: string)

  type Table = seq<Entry>

  const HealthStatusMap: Table :=
    [Entry("saludable", "Saludable"), Entry("enfermo", "Cuidado Especial"),
     Entry("recuperacion", "Cuidado Especial"), Entry("critico", "Cuidado Especial")]

  const ActivityMap: Table :=
    [Entry("bajo", "Bajo"), Entry("medio", "Medio"), Entry("alto", "Alto"), Entry("muy-alto", "Muy Alto")]

  const SpeciesMap: Table :=
    [Entry("perro", "Perro"), Entry("gato", "Gato"), Entry("ave", "Ave"), Entry("reptil", "Reptil"),
     Entry("otro", "Otro")]

  const SexMap: Table :=
    [Entry("macho", "Macho"), Entry("hembra", "Hembra")]

  const DietMap: Table :=
    [Entry("pienso", "Pienso / Croquetas"), Entry("barf", "Dieta BARF"), Entry("humeda", "Comida humeda"),
     Entry("mixta", "Mixta"), Entry("casera", "Casera")]

  /** `table[code]`: the label of the first entry with that code, `None` for `undefined`. */
  function Get(table: Table, code: string): Option<string> {
    if table == [] then None
    else if table[0].code == code then Some(table[0].text)
    else Get(table[1..], code)
  }

  /** `Get` finds exactly the first entry whose code matches. */
  lemma {:induction false} GetFindsFirst(table: Table, code: string)
    ensures Get(table, code).None? <==> forall i :: 0 <= i < |table| ==> table[i].code != code
    ensures Get(table, code).Some? ==>
              exists i :: 0 <= i < |table| && table[i] == Entry(code, Get(table, code).value) &&
                forall j :: 0 <= j < i ==> table[j].code != code
  {
    if table != [] && table[0].code != code {
      GetFindsFirst(table[1..], code);
      if Get(table, code).Some? {
        var i :| 0 <= i < |table[1..]| && table[1..][i] == Entry(code, Get(table, code).value) &&
                 forall j :: 0 <= j < i ==> table[1..][j].code != code;
        assert table[i + 1] == Entry(code, Get(table, code).value);
        forall j | 0 <= j < i + 1 ensures table[j].code != code {
          if j > 0 { assert table[j] == table[1..][j - 1]; }
        }
      }
    }
  }

  /** No entry of `table` has the empty label. */
  predicate NoEmptyLabel(table: Table) {
    forall i :: 0 <= i < |table| ==> table[i].text != ""
  }

  /** A table without empty labels yields a non-empty label for every code it knows. */
  lemma {:induction false} GetNoEmptyLabel(table: Table, code: string)
    requires NoEmptyLabel(table)
    ensures Get(table, code).Some? ==> Get(table, code).value != ""
  {
    if table != [] && table[0].code != code {
      assert NoEmptyLabel(table[1..]) by {
        forall i | 0 <= i < |table[1..]| ensures table[1..][i].text != "" {
          assert table[1..][i] == table[i + 1];
        }
      }
      GetNoEmptyLabel(table[1..], code);
    }
  }

  /** `table[code] || fallback`: the entry's label when there is a non-empty one, else
      `fallback` (an unknown code and an empty label are both falsy). */
  function Lookup(table: Table, code: string, fallback: string): (r: string)
    ensures Get(table, code).None? ==> r == fallback
    ensures Get(table, code).Some? && Get(table, code).value != "" ==> r == Get(table, code).value
    ensures Get(table, code) == Some("") ==> r == fallback
  {
    match Get(table, code)
    case Some(text) => if text != "" then text else fallback
    case None => fallback
  }

  /** Every label in the five tables is non-empty, so a known code always gets its label. */
  lemma TablesHaveNoEmptyLabel()
    ensures NoEmptyLabel(HealthStatusMap) && NoEmptyLabel(ActivityMap)
    ensures NoEmptyLabel(SpeciesMap) && NoEmptyLabel(SexMap) && NoEmptyLabel(DietMap)
  {
  }

  /** The stored health status is always one of the two coarse states. */
  lemma HealthStatusIsCoarse(code: string)
    ensures Lookup(HealthStatusMap, code, "Saludable") in {"Saludable", "Cuidado Especial"}
  {
    GetFindsFirst(HealthStatusMap, code);
    if Get(HealthStatusMap, code).Some? {
      var i :| 0 <= i < |HealthStatusMap| && HealthStatusMap[i] == Entry(code, Get(HealthStatusMap, code).value);
      assert HealthStatusMap[i].text in {"Saludable", "Cuidado Especial"};
    }
  }
}
