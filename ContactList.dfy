/**
 * The contact record and the three list updaters the contacts page applies
 * to its list after a successful response (next-web/src/app/page.tsx):
 * prepend the created contact, `map` the updated one in by id, `filter`
 * the deleted one out by id.
 */
module ContactList {

  /** A contact as the API returns it; the timestamps are opaque text. */
  datatype Contact = Contact(
    id: int,
    name: string,
    mobile: string,
    contactNumber: string,
    createdAt: string,
    updatedAt: string)

  /** No two entries of the list share an id. */
  predicate UniqueIds(l: seq<Contact>) {
    forall i, j :: 0 <= i < j < |l| ==> l[i].id != l[j].id
  }

  predicate HasId(l: seq<Contact>, id: int) {
    exists i :: 0 <= i < |l| && l[i].id == id
  }

  /** How many entries carry `id`. */
  function CountId(l: seq<Contact>, id: int): nat
    decreases |l|
  {
    if l == [] then 0 else (if l[0].id == id then 1 else 0) + CountId(l[1..], id)
  }

  /**
   * `prev.map((item) => (item.id === id ? updated : item))`: every entry
   * carrying `id` becomes `updated`, every other entry stays where it was.
   */
  function ReplaceById(l: seq<Contact>, id: int, updated: Contact): (r: seq<Contact>)
    ensures |r| == |l|
    ensures forall i :: 0 <= i < |l| ==> r[i] == if l[i].id == id then updated else l[i]
    decreases |l|
  {
    if l == [] then []
    else [if l[0].id == id then updated else l[0]] + ReplaceById(l[1..], id, updated)
  }

  /**
   * `prev.filter((item) => item.id !== id)`: exactly the entries not
   * carrying `id` remain.
   */
  function RemoveById(l: seq<Contact>, id: int): (r: seq<Contact>)
    ensures |r| == |l| - CountId(l, id)
    ensures forall c :: c in r <==> c in l && c.id != id
    decreases |l|
  {
    if l == [] then []
    else (if l[0].id == id then [] else [l[0]]) + RemoveById(l[1..], id)
  }

  /** Removal works element by element, so the survivors keep their relative order. */
  lemma {:induction false} RemoveByIdAppend(a: seq<Contact>, b: seq<Contact>, id: int)
    ensures RemoveById(a + b, id) == RemoveById(a, id) + RemoveById(b, id)
    decreases |a|
  {
    if a == [] {
      assert a + b == b;
    } else {
      assert (a + b)[0] == a[0] && (a + b)[1..] == a[1..] + b;
      RemoveByIdAppend(a[1..], b, id);
    }
  }

  /** Removing an id nobody carries leaves the list as it was. */
  lemma {:induction false} RemoveByIdAbsent(l: seq<Contact>, id: int)
    requires !HasId(l, id)
    ensures RemoveById(l, id) == l
    decreases |l|
  {
    if l != [] {
      assert l[0].id != id;
      forall i | 0 <= i < |l[1..]| ensures l[1..][i].id != id {
        assert l[1..][i] == l[i + 1];
      }
      RemoveByIdAbsent(l[1..], id);
    }
  }

  /** Deleting the same id twice is deleting it once. */
  lemma {:induction false} RemoveByIdIdempotent(l: seq<Contact>, id: int)
    ensures RemoveById(RemoveById(l, id), id) == RemoveById(l, id)
  {
    var r := RemoveById(l, id);
    forall i | 0 <= i < |r| ensures r[i].id != id {
      assert r[i] in r;
    }
    RemoveByIdAbsent(r, id);
  }

  lemma {:induction false} CountIdUnique(l: seq<Contact>, id: int)
    requires UniqueIds(l)
    ensures CountId(l, id) == if HasId(l, id) then 1 else 0
    decreases |l|
  {
    if l != [] {
      assert UniqueIds(l[1..]) by {
        forall i, j | 0 <= i < j < |l[1..]| ensures l[1..][i].id != l[1..][j].id {
          assert l[1..][i] == l[i + 1] && l[1..][j] == l[j + 1];
        }
      }
      CountIdUnique(l[1..], id);
      assert HasId(l, id) <==> l[0].id == id || HasId(l[1..], id) by {
        if HasId(l, id) && l[0].id != id {
          var i :| 0 <= i < |l| && l[i].id == id;
          assert l[1..][i - 1].id == id;
        }
        if HasId(l[1..], id) {
          var i :| 0 <= i < |l[1..]| && l[1..][i].id == id;
          assert l[i + 1].id == id;
        }
      }
      forall i | 0 <= i < |l[1..]| ensures l[1..][i].id != l[0].id {
        assert l[1..][i] == l[i + 1];
      }
    }
  }

  /** With unique ids a successful delete shrinks the list by one if the id was there, else by none. */
  lemma {:induction false} RemoveByIdShrinksByOne(l: seq<Contact>, id: int)
    requires UniqueIds(l)
    ensures |RemoveById(l, id)| == if HasId(l, id) then |l| - 1 else |l|
  {
    CountIdUnique(l, id);
  }

  /** Deleting never makes two entries share an id. */
  lemma {:induction false} RemoveByIdKeepsUnique(l: seq<Contact>, id: int)
    requires UniqueIds(l)
    ensures UniqueIds(RemoveById(l, id))
    decreases |l|
  {
    if l != [] {
      assert UniqueIds(l[1..]) by {
        forall i, j | 0 <= i < j < |l[1..]| ensures l[1..][i].id != l[1..][j].id {
          assert l[1..][i] == l[i + 1] && l[1..][j] == l[j + 1];
        }
      }
      RemoveByIdKeepsUnique(l[1..], id);
      var tail := RemoveById(l[1..], id);
      forall k | 0 <= k < |tail| ensures tail[k].id != l[0].id {
        assert tail[k] in l[1..];
        var m :| 0 <= m < |l[1..]| && l[1..][m] == tail[k];
        assert l[m + 1] == tail[k];
      }
    }
  }

  /** An update that returns the record under its own id keeps ids unique. */
  lemma ReplaceByIdKeepsUnique(l: seq<Contact>, id: int, updated: Contact)
    requires UniqueIds(l) && updated.id == id
    ensures UniqueIds(ReplaceById(l, id, updated))
  {
  }

  /** An update of an id the list does not hold changes nothing. */
  lemma ReplaceByIdAbsent(l: seq<Contact>, id: int, updated: Contact)
    requires !HasId(l, id)
    ensures ReplaceById(l, id, updated) == l
  {
  }

  /** Prepending a contact whose id is new keeps ids unique. */
  lemma PrependKeepsUnique(l: seq<Contact>, created: Contact)
    requires UniqueIds(l) && !HasId(l, created.id)
    ensures UniqueIds([created] + l)
  {
  }
}
