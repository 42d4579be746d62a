/** Appointment records ("turnos") and the pure list transformations the
    appointment manager applies to its local copy of the remote collection:
    `find` by id, `map` that replaces by id, and `filter` that removes by id. */
module Turnos {

  import opened Options

  /** Identifiers are assigned by the remote store; the mock store hands out strings. */
  type Id = string

  /** One appointment as the remote store returns it. */
  datatype Turno = Turno(id: Id, especialidad: string, medico: string, paciente: string, fecha: string)

  /** Some entry of `ts` carries `id`. */
  predicate HasId(ts: seq<Turno>, id: Id)
  {
    exists i :: 0 <= i < |ts| && ts[i].id == id
  }

  /** No two entries of `ts` share an id. */
  predicate UniqueIds(ts: seq<Turno>)
  {
    forall i, j :: 0 <= i < j < |ts| ==> ts[i].id != ts[j].id
  }

  /** Number of entries of `ts` that carry `id`. */
  function CountId(ts: seq<Turno>, id: Id): (n: nat)
    ensures n <= |ts|
    ensures n == 0 <==> !HasId(ts, id)
  {
    if ts == [] then 0
    else (if ts[0].id == id then 1 else 0) + CountId(ts[1..], id)
  }

  /** `turnos.find(t => t.id === id)`: an entry carrying `id`, if any; which
      one (the first) is FindFirst. */
  function FindById(ts: seq<Turno>, id: Id): (r: Option<Turno>)
    ensures r.None? <==> !HasId(ts, id)
    ensures r.Some? ==> r.value.id == id && r.value in ts
  {
    if ts == [] then None
    else if ts[0].id == id then Some(ts[0])
    else FindById(ts[1..], id)
  }

  /** `turnos.map(t => t.id === id ? data : t)`: every entry carrying `id`
      becomes `data`, every other entry stays where it was. */
  function ReplaceById(ts: seq<Turno>, id: Id, data: Turno): (r: seq<Turno>)
    ensures |r| == |ts|
    ensures forall i :: 0 <= i < |ts| ==> r[i] == if ts[i].id == id then data else ts[i]
  {
    if ts == [] then []
    else [if ts[0].id == id then data else ts[0]] + ReplaceById(ts[1..], id, data)
  }

  /** `turnos.filter(t => t.id !== id)`: drops exactly the entries carrying
      `id` and keeps the others (their number: RemoveLength; their
      multiplicity: RemoveMultiset; their order: RemoveConcat). */
  function RemoveById(ts: seq<Turno>, id: Id): (r: seq<Turno>)
    ensures !HasId(r, id)
  {
    if ts == [] then []
    else
      var rest := RemoveById(ts[1..], id);
      assert ts == [ts[0]] + ts[1..];
      if ts[0].id == id then rest else [ts[0]] + rest
  }

  // ---------------------------------------------------------------------
  // Lookup

  /** The entry that `find` returns is the first one carrying the id. */
  lemma {:induction false} FindFirst(ts: seq<Turno>, id: Id, i: nat)
    requires i < |ts| && ts[i].id == id
    requires forall j :: 0 <= j < i ==> ts[j].id != id
    ensures FindById(ts, id) == Some(ts[i])
  {
    if i > 0 {
      FindFirst(ts[1..], id, i - 1);
    }
  }

  /** With unique ids, looking up the id of any entry finds that entry. */
  lemma FindUnique(ts: seq<Turno>, i: nat)
    requires UniqueIds(ts) && i < |ts|
    ensures FindById(ts, ts[i].id) == Some(ts[i])
  {
  }

  // ---------------------------------------------------------------------
  // Update: replace by id

  /** Replacing an id that no entry carries changes nothing. */
  lemma ReplaceAbsent(ts: seq<Turno>, id: Id, data: Turno)
    requires !HasId(ts, id)
    ensures ReplaceById(ts, id, data) == ts
  {
  }

  /** An update echoed with the same id creates no duplicate: the number of
      entries carrying the id is the same before and after. */
  lemma {:induction false} ReplaceKeepsCount(ts: seq<Turno>, id: Id, data: Turno)
    requires data.id == id
    ensures CountId(ReplaceById(ts, id, data), id) == CountId(ts, id)
  {
    if ts != [] {
      ReplaceKeepsCount(ts[1..], id, data);
      assert ReplaceById(ts, id, data)[1..] == ReplaceById(ts[1..], id, data);
    }
  }

  /** An update echoed with the same id keeps the ids unique. */
  lemma ReplaceKeepsUnique(ts: seq<Turno>, id: Id, data: Turno)
    requires UniqueIds(ts) && data.id == id
    ensures UniqueIds(ReplaceById(ts, id, data))
  {
  }

  /** Repeating the same update is harmless. */
  lemma ReplaceIdempotent(ts: seq<Turno>, id: Id, data: Turno)
    requires data.id == id
    ensures ReplaceById(ReplaceById(ts, id, data), id, data) == ReplaceById(ts, id, data)
  {
  }

  /** After an update of a present id (echoed with that id, ids unique),
      begin-edit on the id finds the echoed record. */
  lemma ReplaceThenFind(ts: seq<Turno>, id: Id, data: Turno)
    requires UniqueIds(ts) && HasId(ts, id) && data.id == id
    ensures FindById(ReplaceById(ts, id, data), id) == Some(data)
  {
  }

  // ---------------------------------------------------------------------
  // Create: append; delete: remove by id

  /** Appending a record whose id is new keeps the ids unique, and the new
      record is then what begin-edit finds for its id. */
  lemma AppendFresh(ts: seq<Turno>, data: Turno)
    requires UniqueIds(ts) && !HasId(ts, data.id)
    ensures UniqueIds(ts + [data])
    ensures FindById(ts + [data], data.id) == Some(data)
  {
    FindFirst(ts + [data], data.id, |ts|);
  }

  /** Removal shortens the list by the number of entries carrying the id. */
  lemma {:induction false} RemoveLength(ts: seq<Turno>, id: Id)
    ensures |RemoveById(ts, id)| == |ts| - CountId(ts, id)
  {
    if ts != [] {
      RemoveLength(ts[1..], id);
    }
  }

  /** An entry survives removal exactly when it was there and does not carry the id. */
  lemma {:induction false} RemoveMembership(ts: seq<Turno>, id: Id)
    ensures forall t :: t in RemoveById(ts, id) <==> t in ts && t.id != id
  {
    if ts != [] {
      RemoveMembership(ts[1..], id);
      assert ts == [ts[0]] + ts[1..];
    }
  }

  /** Every entry not carrying the id survives removal as often as it occurred. */
  lemma {:induction false} RemoveMultiset(ts: seq<Turno>, id: Id)
    ensures forall t :: multiset(RemoveById(ts, id))[t] == if t.id == id then 0 else multiset(ts)[t]
  {
    if ts != [] {
      RemoveMultiset(ts[1..], id);
      assert ts == [ts[0]] + ts[1..];
      assert multiset(ts) == multiset([ts[0]]) + multiset(ts[1..]);
    }
  }

  /** One step of `filter`: the head survives exactly when it does not carry the id. */
  lemma RemoveCons(x: Turno, s: seq<Turno>, id: Id)
    ensures RemoveById([x] + s, id) == if x.id == id then RemoveById(s, id) else [x] + RemoveById(s, id)
  {
  }

  /** Removal commutes with concatenation, so the survivors keep their order. */
  lemma {:induction false} RemoveConcat(a: seq<Turno>, b: seq<Turno>, id: Id)
    ensures RemoveById(a + b, id) == RemoveById(a, id) + RemoveById(b, id)
  {
    if a == [] {
      assert a + b == b;
    } else {
      var x, a' := a[0], a[1..];
      assert a == [x] + a';
      assert a + b == [x] + (a' + b);
      RemoveConcat(a', b, id);
      RemoveCons(x, a' + b, id);
      RemoveCons(x, a', id);
    }
  }

  /** Removing an id that no entry carries changes nothing. */
  lemma {:induction false} RemoveAbsent(ts: seq<Turno>, id: Id)
    requires !HasId(ts, id)
    ensures RemoveById(ts, id) == ts
  {
    if ts != [] {
      assert !HasId(ts[1..], id) by {
        forall i | 0 <= i < |ts| - 1 ensures ts[1..][i].id != id {
          assert ts[1..][i] == ts[i + 1];
        }
      }
      RemoveAbsent(ts[1..], id);
      assert ts == [ts[0]] + ts[1..];
    }
  }

  /** Deleting a record right after creating it (with an id not used before)
      gives back the list as it was. */
  lemma CreateThenDelete(ts: seq<Turno>, data: Turno)
    requires !HasId(ts, data.id)
    ensures RemoveById(ts + [data], data.id) == ts
  {
    RemoveConcat(ts, [data], data.id);
    RemoveAbsent(ts, data.id);
  }

  /** Deletion keeps the ids unique. */
  lemma {:induction false} RemoveKeepsUnique(ts: seq<Turno>, id: Id)
    requires UniqueIds(ts)
    ensures UniqueIds(RemoveById(ts, id))
  {
    if ts != [] {
      var rest := RemoveById(ts[1..], id);
      RemoveKeepsUnique(ts[1..], id);
      RemoveMembership(ts[1..], id);
      if ts[0].id != id {
        var r := [ts[0]] + rest;
        forall j | 0 < j < |r| ensures r[0].id != r[j].id {
          assert r[j] in rest;
          var k :| 0 <= k < |ts[1..]| && ts[1..][k] == r[j];
          assert ts[k + 1] == r[j];
        }
      }
    }
  }
}
