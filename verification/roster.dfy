/** The list transforms the browser store applies to the roster: find the first member
    with an id (`Array.prototype.find`), replace every member with an id
    (`Array.prototype.map`) and drop every member with an id (`Array.prototype.filter`). */
module Roster {
  import opened Types

  predicate HasId(ms: seq<Member>, id: string) {
    exists i :: 0 <= i < |ms| && ms[i].id == id
  }

  /** `i` is the position of the first member with that id. */
  predicate FirstWithId(ms: seq<Member>, id: string, i: int) {
    0 <= i < |ms| && ms[i].id == id && forall j :: 0 <= j < i ==> ms[j].id != id
  }

  function FindById(ms: seq<Member>, id: string): Option<Member> {
    if ms == [] then None
    else if ms[0].id == id then Some(ms[0])
    else FindById(ms[1..], id)
  }

  /** `find` answers with the first member carrying the id, and with nothing exactly
      when no member carries it. */
  lemma {:induction false} FindByIdSpec(ms: seq<Member>, id: string)
    ensures FindById(ms, id).None? <==> !HasId(ms, id)
    ensures FindById(ms, id).Some? ==>
              FindById(ms, id).value.id == id &&
              exists i :: FirstWithId(ms, id, i) && ms[i] == FindById(ms, id).value
  {
    if ms != [] && ms[0].id != id {
      FindByIdSpec(ms[1..], id);
      if HasId(ms, id) {
        var i :| 0 <= i < |ms| && ms[i].id == id;
        assert ms[1..][i - 1].id == id;
      }
      if FindById(ms, id).Some? {
        var i :| FirstWithId(ms[1..], id, i) && ms[1..][i] == FindById(ms, id).value;
        assert FirstWithId(ms, id, i + 1);
      }
    } else if ms != [] {
      assert FirstWithId(ms, id, 0);
    }
  }

  function ReplaceById(ms: seq<Member>, id: string, updated: Member): seq<Member> {
    if ms == [] then []
    else [if ms[0].id == id then updated else ms[0]] + ReplaceById(ms[1..], id, updated)
  }

  /** `map(m => m.id === id ? updated : m)`: same length, every member with the id is
      replaced, every other member stays where it was. */
  lemma {:induction false} ReplaceByIdSpec(ms: seq<Member>, id: string, updated: Member)
    ensures |ReplaceById(ms, id, updated)| == |ms|
    ensures forall i :: 0 <= i < |ms| ==>
              ReplaceById(ms, id, updated)[i] == if ms[i].id == id then updated else ms[i]
  {
    if ms != [] {
      ReplaceByIdSpec(ms[1..], id, updated);
    }
  }

  /** Updating an id no member carries changes nothing. */
  lemma ReplaceAbsentId(ms: seq<Member>, id: string, updated: Member)
    requires !HasId(ms, id)
    ensures ReplaceById(ms, id, updated) == ms
  {
    ReplaceByIdSpec(ms, id, updated);
  }

  function RemoveById(ms: seq<Member>, id: string): seq<Member> {
    if ms == [] then []
    else (if ms[0].id == id then [] else [ms[0]]) + RemoveById(ms[1..], id)
  }

  /** `filter(m => m.id !== id)` keeps exactly the members without the id. */
  lemma {:induction false} RemoveByIdMembers(ms: seq<Member>, id: string)
    ensures forall m :: m in RemoveById(ms, id) <==> m in ms && m.id != id
  {
    if ms != [] {
      RemoveByIdMembers(ms[1..], id);
      assert ms == [ms[0]] + ms[1..];
    }
  }

  /** The filter keeps the order: it distributes over concatenation, and a single
      member is kept or dropped according to its id. */
  lemma {:induction false} RemoveByIdAppend(a: seq<Member>, b: seq<Member>, id: string)
    ensures RemoveById(a + b, id) == RemoveById(a, id) + RemoveById(b, id)
  {
    if a != [] {
      assert (a + b)[0] == a[0];
      assert (a + b)[1..] == a[1..] + b;
      RemoveByIdAppend(a[1..], b, id);
    } else {
      assert a + b == b;
    }
  }

  /** Deleting an id no member carries changes nothing. */
  lemma {:induction false} RemoveAbsentId(ms: seq<Member>, id: string)
    requires !HasId(ms, id)
    ensures RemoveById(ms, id) == ms
  {
    if ms != [] {
      assert !HasId(ms[1..], id) by {
        forall i | 0 <= i < |ms| - 1 ensures ms[1..][i].id != id {
          assert ms[1..][i] == ms[i + 1];
        }
      }
      RemoveAbsentId(ms[1..], id);
    }
  }

  /** Deleting is idempotent, and afterwards no member carries the id. */
  lemma RemoveByIdIdempotent(ms: seq<Member>, id: string)
    ensures !HasId(RemoveById(ms, id), id)
    ensures RemoveById(RemoveById(ms, id), id) == RemoveById(ms, id)
  {
    var r := RemoveById(ms, id);
    RemoveByIdMembers(ms, id);
    assert !HasId(r, id) by {
      forall i | 0 <= i < |r| ensures r[i].id != id {
        assert r[i] in r;
      }
    }
    RemoveAbsentId(r, id);
  }

  /** Replacing the cards of an id by a card equal to each of them changes nothing. */
  lemma ReplaceBySelf(ms: seq<Member>, m: Member)
    requires forall i :: 0 <= i < |ms| && ms[i].id == m.id ==> ms[i] == m
    ensures ReplaceById(ms, m.id, m) == ms
  {
    ReplaceByIdSpec(ms, m.id, m);
  }
}
