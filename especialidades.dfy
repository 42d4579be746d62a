/** The static directory of specialties and the doctors who attend each one,
    and the doctor options the form offers for the selected specialty. */
module Especialidades {

  import opened Options

  /** The table in declaration order (which is also the order in which the
      specialty selector lists the keys). */
  const Table: seq<(string, seq<string>)> := [
    ("Gastroenterología", ["Dr. Aguilar Marcelo"]),
    ("Cardiología", ["Dr. Eduardo Pino"]),
    ("Dermatología", ["Claudia Zamora"]),
    ("Clínica Médica", ["Dr. Aguilar Marcelo", "Claudia Zamora"]),
    ("Oftalmología", ["Dr. Eduardo Pino"]),
    ("Neumonología", ["Dr. Aguilar Marcelo"])
  ]

  /** No specialty appears twice in a table. */
  predicate DistinctKeys(t: seq<(string, seq<string>)>)
  {
    forall i, j :: 0 <= i < j < |t| ==> t[i].0 != t[j].0
  }

  /** Property access on the table object: the doctor list filed under `esp`. */
  function Lookup(t: seq<(string, seq<string>)>, esp: string): (r: Option<seq<string>>)
    ensures r.None? <==> forall i :: 0 <= i < |t| ==> t[i].0 != esp
  {
    if t == [] then None
    else if t[0].0 == esp then Some(t[0].1)
    else Lookup(t[1..], esp)
  }

  /** A key of a table with distinct keys looks up exactly its own list. */
  lemma {:induction false} LookupAt(t: seq<(string, seq<string>)>, i: nat)
    requires DistinctKeys(t) && i < |t|
    ensures Lookup(t, t[i].0) == Some(t[i].1)
  {
    if i > 0 {
      assert t[0].0 != t[i].0;
      LookupAt(t[1..], i - 1);
    }
  }

  /** `Object.keys(ESPECIALIDADES)`: the specialties, in table order. */
  function Names(): (r: seq<string>)
    ensures |r| == |Table|
    ensures forall i :: 0 <= i < |Table| ==> r[i] == Table[i].0
    ensures "" !in r
  {
    seq(|Table|, i requires 0 <= i < |Table| => Table[i].0)
  }

  /** The specialties are distinct. */
  lemma TableDistinct()
    ensures DistinctKeys(Table)
  {
  }

  /** `especialidad ? ESPECIALIDADES[especialidad] : []`, with `None` for the
      `undefined` that property access yields on a name the table lacks. An
      unset (empty) specialty offers no doctor; a specialty of the table offers
      exactly the doctors filed under it, in the same order; any other
      specialty has no option list at all. */
  function MedicosOpciones(esp: string): (r: Option<seq<string>>)
    ensures esp == "" ==> r == Some([])
    ensures r.None? <==> esp != "" && esp !in Names()
    ensures forall i :: 0 <= i < |Table| && Table[i].0 == esp ==> r == Some(Table[i].1)
  {
    TableDistinct();
    forall i | 0 <= i < |Table| ensures Lookup(Table, Table[i].0) == Some(Table[i].1) {
      LookupAt(Table, i);
    }
    if esp == "" then Some([]) else Lookup(Table, esp)
  }
}
