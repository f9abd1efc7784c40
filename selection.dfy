/**
 * The selection: a JavaScript `Record<string, boolean>` keyed by account key.
 * Object keys keep insertion order and `Object.entries` walks them in that
 * order, which decides the order of selectedAccounts and hence of the batches,
 * so the record is an association list with distinct keys.
 */
module Selection {
  import opened Wrappers
  import opened Accounts

  datatype Entry = Entry(id: Address, flag: bool)

  type Selection = seq<Entry>

  function Keys(sel: Selection): set<Address>
  {
    set e | e in sel :: e.id
  }

  /** A record never holds a key twice. */
  predicate DistinctKeys(sel: Selection)
  {
    forall i, j :: 0 <= i < j < |sel| ==> sel[i].id != sel[j].id
  }

  /** `sel[id]` read as a boolean: a missing key reads as false. */
  function FlagOf(sel: Selection, id: Address): bool
  {
    if sel == [] then false
    else if sel[0].id == id then sel[0].flag
    else FlagOf(sel[1..], id)
  }

  /** `{ ...sel, [id]: v }` and `next[id] = v`: an existing key keeps its place, a new one goes last. */
  function Assign(sel: Selection, id: Address, v: bool): Selection
  {
    if sel == [] then [Entry(id, v)]
    else if sel[0].id == id then [Entry(id, v)] + sel[1..]
    else [sel[0]] + Assign(sel[1..], id, v)
  }

  /** toggleOne. */
  function Toggle(sel: Selection, id: Address): Selection
  {
    Assign(sel, id, !FlagOf(sel, id))
  }

  /** `delete next[key]` for every key of `ids`. */
  function DeleteKeys(sel: Selection, ids: set<Address>): Selection
  {
    if sel == [] then []
    else (if sel[0].id in ids then [] else [sel[0]]) + DeleteKeys(sel[1..], ids)
  }

  /** The record selectAll builds: every key of `empties` set to true, in first-occurrence order. */
  function SelectAllOf(empties: seq<Account>): Selection
  {
    if empties == [] then []
    else Assign(SelectAllOf(empties[..|empties| - 1]), empties[|empties| - 1].pubkey, true)
  }

  /** `new Map(empties.map(e => [key, e])).get(id)`: a later account with the same key wins. */
  function Lookup(empties: seq<Account>, id: Address): (r: Option<Account>)
    ensures r.Some? <==> id in Ids(empties)
    ensures r.Some? ==> r.value in empties && r.value.pubkey == id
  {
    if empties == [] then None
    else if empties[|empties| - 1].pubkey == id then Some(empties[|empties| - 1])
    else
      var init := empties[..|empties| - 1];
      assert empties == init + [empties[|empties| - 1]];
      assert forall a :: a in empties <==> a in init || a == empties[|empties| - 1];
      Lookup(init, id)
  }

  /** The account the map returns is the last candidate holding the key. */
  lemma {:induction false} LookupIsLast(empties: seq<Account>, id: Address)
    requires Lookup(empties, id).Some?
    ensures exists i :: (0 <= i < |empties| && empties[i] == Lookup(empties, id).value
                         && forall j :: i < j < |empties| ==> empties[j].pubkey != id)
  {
    var n := |empties| - 1;
    if empties[n].pubkey == id {
      assert empties[n] == Lookup(empties, id).value;
    } else {
      var init := empties[..n];
      LookupIsLast(init, id);
      var i :| (0 <= i < |init| && init[i] == Lookup(init, id).value
                && forall j :: i < j < |init| ==> init[j].pubkey != id);
      assert empties[i] == Lookup(empties, id).value;
      forall j | i < j < |empties| ensures empties[j].pubkey != id {
        if j < n {
          assert empties[j] == init[j];
        }
      }
    }
  }

  /** selectedAccounts: the flagged keys in record order, mapped to their accounts, missing ones dropped. */
  function SelectedAccounts(sel: Selection, empties: seq<Account>): seq<Account>
  {
    if sel == [] then []
    else
      var rest := SelectedAccounts(sel[1..], empties);
      var found := Lookup(empties, sel[0].id);
      if sel[0].flag && found.Some? then [found.value] + rest else rest
  }

  // ---- Assign and Toggle ----------------------------------------------------

  /** In a record without repeated keys the first key does not occur again. */
  lemma HeadKeyFresh(sel: Selection)
    requires DistinctKeys(sel) && sel != []
    ensures sel[0].id !in Keys(sel[1..])
  {
    forall e | e in sel[1..] ensures e.id != sel[0].id {
      var j :| 0 <= j < |sel[1..]| && sel[1..][j] == e;
      assert sel[j + 1] == e;
    }
  }

  /** Assign sets one flag and leaves every other flag alone. */
  lemma {:induction false} AssignFlags(sel: Selection, id: Address, v: bool)
    ensures forall x :: FlagOf(Assign(sel, id, v), x) == if x == id then v else FlagOf(sel, x)
  {
    if sel != [] && sel[0].id != id {
      AssignFlags(sel[1..], id, v);
      assert ([sel[0]] + Assign(sel[1..], id, v))[1..] == Assign(sel[1..], id, v);
    } else if sel != [] {
      assert ([Entry(id, v)] + sel[1..])[1..] == sel[1..];
    }
  }

  /** Assign adds an entry exactly when the key is new. */
  lemma {:induction false} AssignLength(sel: Selection, id: Address, v: bool)
    ensures |Assign(sel, id, v)| == if id in Keys(sel) then |sel| else |sel| + 1
  {
    if sel != [] {
      KeysCons(sel);
      if sel[0].id != id {
        AssignLength(sel[1..], id, v);
      }
    }
  }

  /** Assign keeps every existing key in its position. */
  lemma {:induction false} AssignPositions(sel: Selection, id: Address, v: bool)
    ensures |Assign(sel, id, v)| >= |sel|
    ensures forall j :: 0 <= j < |sel| ==> Assign(sel, id, v)[j].id == sel[j].id
  {
    if sel != [] && sel[0].id != id {
      var t := Assign(sel[1..], id, v);
      AssignPositions(sel[1..], id, v);
      var r := [sel[0]] + t;
      assert Assign(sel, id, v) == r;
      forall j | 0 <= j < |sel| ensures r[j].id == sel[j].id {
        if j > 0 {
          assert r[j] == t[j - 1] && sel[j] == sel[1..][j - 1];
        }
      }
    }
  }

  /** Assign appends a key not yet present. */
  lemma {:induction false} AssignAppends(sel: Selection, id: Address, v: bool)
    requires id !in Keys(sel)
    ensures Assign(sel, id, v) == sel + [Entry(id, v)]
  {
    if sel != [] {
      KeysCons(sel);
      AssignAppends(sel[1..], id, v);
      assert sel + [Entry(id, v)] == [sel[0]] + (sel[1..] + [Entry(id, v)]);
    }
  }

  lemma KeysCons(sel: Selection)
    requires sel != []
    ensures Keys(sel) == {sel[0].id} + Keys(sel[1..])
  {
    assert forall e :: e in sel <==> e == sel[0] || e in sel[1..];
  }

  lemma {:induction false} AssignKeySet(sel: Selection, id: Address, v: bool)
    ensures Keys(Assign(sel, id, v)) == Keys(sel) + {id}
  {
    if sel != [] {
      KeysCons(sel);
      if sel[0].id == id {
        KeysCons(Assign(sel, id, v));
        assert Assign(sel, id, v)[1..] == sel[1..];
      } else {
        AssignKeySet(sel[1..], id, v);
        KeysCons(Assign(sel, id, v));
        assert Assign(sel, id, v)[1..] == Assign(sel[1..], id, v);
      }
    }
  }

  lemma AssignKeys(sel: Selection, id: Address, v: bool)
    ensures Keys(Assign(sel, id, v)) == Keys(sel) + {id}
    ensures |Assign(sel, id, v)| == if id in Keys(sel) then |sel| else |sel| + 1
    ensures forall j :: 0 <= j < |sel| ==> Assign(sel, id, v)[j].id == sel[j].id
    ensures id !in Keys(sel) ==> Assign(sel, id, v) == sel + [Entry(id, v)]
  {
    AssignLength(sel, id, v);
    AssignPositions(sel, id, v);
    if id !in Keys(sel) {
      AssignAppends(sel, id, v);
    }
    AssignKeySet(sel, id, v);
  }

  lemma {:induction false} AssignKeepsDistinct(sel: Selection, id: Address, v: bool)
    requires DistinctKeys(sel)
    ensures DistinctKeys(Assign(sel, id, v))
  {
    if sel != [] {
      AssignKeepsDistinct(sel[1..], id, v);
      AssignKeys(sel[1..], id, v);
      HeadKeyFresh(sel);
      if sel[0].id != id {
        var r := Assign(sel, id, v);
        forall i, j | 0 <= i < j < |r| ensures r[i].id != r[j].id {
          if i == 0 {
            assert r[j] in Assign(sel[1..], id, v);
          }
        }
      }
    }
  }

  /** toggleOne flips exactly the toggled flag (a missing key becomes true) and keeps the record well formed. */
  lemma ToggleEffect(sel: Selection, id: Address)
    ensures FlagOf(Toggle(sel, id), id) == !FlagOf(sel, id)
    ensures forall x :: x != id ==> FlagOf(Toggle(sel, id), x) == FlagOf(sel, x)
    ensures Keys(Toggle(sel, id)) == Keys(sel) + {id}
    ensures DistinctKeys(sel) ==> DistinctKeys(Toggle(sel, id))
  {
    AssignFlags(sel, id, !FlagOf(sel, id));
    AssignKeys(sel, id, !FlagOf(sel, id));
    if DistinctKeys(sel) {
      AssignKeepsDistinct(sel, id, !FlagOf(sel, id));
    }
  }

  /** Toggling the same key twice restores every flag. */
  lemma ToggleTwice(sel: Selection, id: Address)
    ensures forall x :: FlagOf(Toggle(Toggle(sel, id), id), x) == FlagOf(sel, x)
  {
    ToggleEffect(sel, id);
    ToggleEffect(Toggle(sel, id), id);
  }

  // ---- DeleteKeys -----------------------------------------------------------

  /** Deleting keys clears exactly their flags and keeps everything else, in order. */
  lemma {:induction false} DeleteKeysEffect(sel: Selection, ids: set<Address>)
    ensures forall x :: FlagOf(DeleteKeys(sel, ids), x) == (x !in ids && FlagOf(sel, x))
    ensures Keys(DeleteKeys(sel, ids)) == Keys(sel) - ids
    ensures forall e :: e in DeleteKeys(sel, ids) <==> e in sel && e.id !in ids
  {
    if sel != [] {
      DeleteKeysEffect(sel[1..], ids);
      assert forall e :: e in sel <==> e == sel[0] || e in sel[1..];
      var rest := DeleteKeys(sel[1..], ids);
      if sel[0].id in ids {
        assert DeleteKeys(sel, ids) == rest;
      } else {
        assert DeleteKeys(sel, ids) == [sel[0]] + rest;
        assert ([sel[0]] + rest)[1..] == rest;
      }
    }
  }

  /** Deleting keys the record does not hold leaves it, and its order, as it was. */
  lemma {:induction false} DeleteKeysUntouched(sel: Selection, ids: set<Address>)
    requires Keys(sel) !! ids
    ensures DeleteKeys(sel, ids) == sel
  {
    if sel != [] {
      KeysCons(sel);
      DeleteKeysUntouched(sel[1..], ids);
    }
  }

  lemma {:induction false} DeleteKeysKeepsDistinct(sel: Selection, ids: set<Address>)
    requires DistinctKeys(sel)
    ensures DistinctKeys(DeleteKeys(sel, ids))
  {
    if sel != [] {
      DeleteKeysKeepsDistinct(sel[1..], ids);
      DeleteKeysEffect(sel[1..], ids);
      var r := DeleteKeys(sel, ids);
      if sel[0].id !in ids {
        forall j | 0 < j < |r| ensures r[0].id != r[j].id {
          assert r[j] in DeleteKeys(sel[1..], ids);
          var k :| 0 <= k < |sel[1..]| && sel[1..][k] == r[j];
          assert sel[k + 1] == r[j];
        }
      }
    }
  }

  lemma {:induction false} DeleteKeysTwice(sel: Selection, a: set<Address>, b: set<Address>)
    ensures DeleteKeys(DeleteKeys(sel, a), b) == DeleteKeys(sel, a + b)
  {
    if sel != [] {
      DeleteKeysTwice(sel[1..], a, b);
      var rest := DeleteKeys(sel[1..], a);
      if sel[0].id in a {
        assert DeleteKeys(sel, a) == rest;
      } else {
        var d := [sel[0]] + rest;
        assert DeleteKeys(sel, a) == d;
        assert d != [] && d[0] == sel[0] && d[1..] == rest;
      }
    }
  }

  /** Deleting keys keeps the surviving entries in their original order. */
  lemma {:induction false} DeleteKeysAppend(x: Selection, y: Selection, ids: set<Address>)
    ensures DeleteKeys(x + y, ids) == DeleteKeys(x, ids) + DeleteKeys(y, ids)
  {
    if x != [] {
      assert (x + y)[1..] == x[1..] + y;
      DeleteKeysAppend(x[1..], y, ids);
    } else {
      assert x + y == y;
    }
  }

  // ---- SelectedAccounts -----------------------------------------------------

  lemma {:induction false} SelectedAccountsFromEmpties(sel: Selection, empties: seq<Account>)
    ensures forall a :: a in SelectedAccounts(sel, empties) ==>
      a in empties && a.pubkey in Keys(sel) && Lookup(empties, a.pubkey) == Some(a)
  {
    if sel != [] {
      SelectedAccountsFromEmpties(sel[1..], empties);
      assert forall e :: e in sel[1..] ==> e in sel;
    }
  }

  /**
   * selectedAccounts holds exactly the keys whose flag is true and that name a
   * current candidate; with a well-formed record no key appears twice.
   */
  lemma {:induction false} SelectedAccountsExactly(sel: Selection, empties: seq<Account>)
    requires DistinctKeys(sel)
    ensures forall id :: id in Ids(SelectedAccounts(sel, empties)) <==> FlagOf(sel, id) && id in Ids(empties)
    ensures DistinctIds(SelectedAccounts(sel, empties))
  {
    if sel != [] {
      var tail := sel[1..];
      assert DistinctKeys(tail);
      SelectedAccountsExactly(tail, empties);
      SelectedAccountsFromEmpties(tail, empties);
      var rest := SelectedAccounts(tail, empties);
      var found := Lookup(empties, sel[0].id);
      HeadKeyFresh(sel);
      assert sel[0].id !in Ids(rest);
      if sel[0].flag && found.Some? {
        var r := [found.value] + rest;
        assert forall a :: a in r <==> a == found.value || a in rest;
        forall j | 0 < j < |r| ensures r[0].pubkey != r[j].pubkey {
          assert r[j] in rest;
        }
      }
    }
  }

  lemma {:induction false} SelectedAccountsOfEntries(sel: Selection, empties: seq<Account>, xs: seq<Account>)
    requires |sel| == |xs|
    requires forall i :: 0 <= i < |sel| ==> sel[i] == Entry(xs[i].pubkey, true) && Lookup(empties, xs[i].pubkey) == Some(xs[i])
    ensures SelectedAccounts(sel, empties) == xs
  {
    if sel != [] {
      SelectedAccountsOfEntries(sel[1..], empties, xs[1..]);
    }
  }

  lemma AppendAssociative(a: seq<Account>, b: seq<Account>, c: seq<Account>)
    ensures a + (b + c) == (a + b) + c
  {
  }

  /** What one selection entry contributes to `SelectedAccounts`. */
  function Picked(e: Entry, empties: seq<Account>): seq<Account>
  {
    var found := Lookup(empties, e.id);
    if e.flag && found.Some? then [found.value] else []
  }

  lemma SelectedAccountsUnfold(sel: Selection, empties: seq<Account>)
    requires sel != []
    ensures SelectedAccounts(sel, empties) == Picked(sel[0], empties) + SelectedAccounts(sel[1..], empties)
  {
  }

  /** The selected accounts come out in the order of the selection's entries. */
  lemma {:induction false} SelectedAccountsAppend(x: Selection, y: Selection, empties: seq<Account>)
    ensures SelectedAccounts(x + y, empties) == SelectedAccounts(x, empties) + SelectedAccounts(y, empties)
  {
    if x != [] {
      var head := Picked(x[0], empties);
      assert (x + y)[1..] == x[1..] + y && (x + y)[0] == x[0];
      calc {
        SelectedAccounts(x + y, empties);
        { SelectedAccountsUnfold(x + y, empties); }
        head + SelectedAccounts(x[1..] + y, empties);
        { SelectedAccountsAppend(x[1..], y, empties); }
        head + (SelectedAccounts(x[1..], empties) + SelectedAccounts(y, empties));
        { AppendAssociative(head, SelectedAccounts(x[1..], empties), SelectedAccounts(y, empties)); }
        (head + SelectedAccounts(x[1..], empties)) + SelectedAccounts(y, empties);
        { SelectedAccountsUnfold(x, empties); }
        SelectedAccounts(x, empties) + SelectedAccounts(y, empties);
      }
    } else {
      assert x + y == y;
    }
  }

  lemma LookupDistinct(empties: seq<Account>, i: int)
    requires DistinctIds(empties) && 0 <= i < |empties|
    ensures Lookup(empties, empties[i].pubkey) == Some(empties[i])
  {
    var r := Lookup(empties, empties[i].pubkey);
    var j :| 0 <= j < |empties| && empties[j] == r.value;
    assert i == j;
  }

  /** The record selectAll builds holds exactly the candidates' keys. */
  lemma {:induction false} SelectAllOfKeys(empties: seq<Account>)
    ensures Keys(SelectAllOf(empties)) == Ids(empties)
  {
    if empties != [] {
      var init, last := empties[..|empties| - 1], empties[|empties| - 1];
      SelectAllOfKeys(init);
      AssignKeySet(SelectAllOf(init), last.pubkey, true);
      assert empties == init + [last];
      IdsAppend(init, [last]);
      assert Ids([last]) == {last.pubkey};
    }
  }

  /** The record selectAll builds flags exactly the candidates' keys. */
  lemma {:induction false} SelectAllOfFlags(empties: seq<Account>)
    ensures forall x :: FlagOf(SelectAllOf(empties), x) <==> x in Ids(empties)
  {
    if empties != [] {
      var init, last := empties[..|empties| - 1], empties[|empties| - 1];
      SelectAllOfFlags(init);
      AssignFlags(SelectAllOf(init), last.pubkey, true);
      assert empties == init + [last];
      IdsAppend(init, [last]);
      assert Ids([last]) == {last.pubkey};
    }
  }

  /** The record selectAll builds holds each key once. */
  lemma {:induction false} SelectAllOfWellFormed(empties: seq<Account>)
    ensures DistinctKeys(SelectAllOf(empties))
  {
    if empties != [] {
      var init := empties[..|empties| - 1];
      SelectAllOfWellFormed(init);
      AssignKeepsDistinct(SelectAllOf(init), empties[|empties| - 1].pubkey, true);
    }
  }

  lemma {:induction false} SelectAllOfDistinct(empties: seq<Account>)
    requires DistinctIds(empties)
    ensures |SelectAllOf(empties)| == |empties|
    ensures forall i :: 0 <= i < |empties| ==> SelectAllOf(empties)[i] == Entry(empties[i].pubkey, true)
  {
    if empties != [] {
      var init, last := empties[..|empties| - 1], empties[|empties| - 1];
      SelectAllOfDistinct(init);
      SelectAllOfKeys(init);
      assert last.pubkey !in Ids(init);
      AssignKeys(SelectAllOf(init), last.pubkey, true);
    }
  }

  /** After selectAll, with candidate keys distinct, selectedAccounts is the whole candidate list in its order. */
  lemma SelectAllSelectsEverything(empties: seq<Account>)
    requires DistinctIds(empties)
    ensures SelectedAccounts(SelectAllOf(empties), empties) == empties
  {
    SelectAllOfDistinct(empties);
    forall i | 0 <= i < |empties| ensures Lookup(empties, empties[i].pubkey) == Some(empties[i]) {
      LookupDistinct(empties, i);
    }
    SelectedAccountsOfEntries(SelectAllOf(empties), empties, empties);
  }

  /**
   * selectAll's loop: a fresh record, then `next[e.pubkey] = true` for each
   * candidate in order.
   */
  method AllSelected(empties: seq<Account>) returns (next: Selection)
    ensures next == SelectAllOf(empties)
    ensures DistinctKeys(next) && Keys(next) == Ids(empties)
    ensures forall x :: FlagOf(next, x) <==> x in Ids(empties)
  {
    next := [];
    for i := 0 to |empties|
      invariant next == SelectAllOf(empties[..i])
    {
      assert empties[..i + 1][..i] == empties[..i];
      next := Assign(next, empties[i].pubkey, true);
    }
    assert empties[..|empties|] == empties;
    SelectAllOfKeys(empties);
    SelectAllOfFlags(empties);
    SelectAllOfWellFormed(empties);
  }
}
