/**
 * Candidate accounts (EmptyTokenAcc in the app): token accounts that hold no
 * tokens and whose rent lamports can be reclaimed by closing them.
 */
module Accounts {
  import opened Wrappers

  /** A public key in its base58 text form; the app compares keys by `toBase58()`. */
  type Address = string

  /** The token program an account belongs to, which must process its close. */
  datatype TokenProgram = SplToken | Token2022

  datatype Account = Account(pubkey: Address, programId: TokenProgram, mint: Address, lamports: int)

  /** The wrapped-SOL mint, never offered for closing. */
  const WSOL_MINT: Address := "So11111111111111111111111111111111111111112"

  /** The set of keys of a list of accounts. */
  function Ids(accounts: seq<Account>): set<Address>
  {
    set a | a in accounts :: a.pubkey
  }

  predicate DistinctIds(accounts: seq<Account>)
  {
    forall i, j :: 0 <= i < j < |accounts| ==> accounts[i].pubkey != accounts[j].pubkey
  }

  /** Sum of the accounts' own lamports: the `reduce` behind grossLamports and batchGross. */
  function Gross(accounts: seq<Account>): int
  {
    if accounts == [] then 0 else accounts[0].lamports + Gross(accounts[1..])
  }

  lemma {:induction false} GrossAppend(a: seq<Account>, b: seq<Account>)
    ensures Gross(a + b) == Gross(a) + Gross(b)
  {
    if a != [] {
      assert (a + b)[1..] == a[1..] + b;
      GrossAppend(a[1..], b);
    } else {
      assert a + b == b;
    }
  }

  lemma {:induction false} GrossNonNegative(a: seq<Account>)
    requires forall k :: 0 <= k < |a| ==> a[k].lamports >= 0
    ensures Gross(a) >= 0
  {
    if a != [] {
      GrossNonNegative(a[1..]);
    }
  }

  lemma IdsAppend(a: seq<Account>, b: seq<Account>)
    ensures Ids(a + b) == Ids(a) + Ids(b)
  {
    assert forall x :: x in a + b <==> x in a || x in b;
  }

  /**
   * The accounts that survive the removal of a set of keys, in their old
   * order: the `prev.filter(x => !remove.has(...))` applied after a batch.
   */
  function RemoveAccounts(accounts: seq<Account>, ids: set<Address>): (r: seq<Account>)
    ensures |r| <= |accounts|
  {
    if accounts == [] then []
    else (if accounts[0].pubkey in ids then [] else [accounts[0]]) + RemoveAccounts(accounts[1..], ids)
  }

  /** An account survives exactly when it was there and its key was not removed. */
  lemma {:induction false} RemoveAccountsMembers(accounts: seq<Account>, ids: set<Address>)
    ensures forall a :: a in RemoveAccounts(accounts, ids) <==> a in accounts && a.pubkey !in ids
  {
    if accounts != [] {
      RemoveAccountsMembers(accounts[1..], ids);
      assert forall a :: a in accounts <==> a == accounts[0] || a in accounts[1..];
    }
  }

  /** Removing keys none of the accounts has leaves the list, and its order, as it was. */
  lemma {:induction false} RemoveAccountsUntouched(accounts: seq<Account>, ids: set<Address>)
    requires Ids(accounts) !! ids
    ensures RemoveAccounts(accounts, ids) == accounts
  {
    if accounts != [] {
      assert accounts[0].pubkey in Ids(accounts);
      assert Ids(accounts[1..]) <= Ids(accounts) by {
        forall x | x in Ids(accounts[1..]) ensures x in Ids(accounts) {
          var a :| a in accounts[1..] && a.pubkey == x;
          assert a in accounts;
        }
      }
      RemoveAccountsUntouched(accounts[1..], ids);
    }
  }

  /** Two removals in a row are one removal of both key sets. */
  lemma {:induction false} RemoveAccountsTwice(accounts: seq<Account>, a: set<Address>, b: set<Address>)
    ensures RemoveAccounts(RemoveAccounts(accounts, a), b) == RemoveAccounts(accounts, a + b)
  {
    if accounts != [] {
      RemoveAccountsTwice(accounts[1..], a, b);
      var head := if accounts[0].pubkey in a then [] else [accounts[0]];
      RemoveAccountsAppend(head, RemoveAccounts(accounts[1..], a), b);
    }
  }

  lemma {:induction false} RemoveAccountsAppend(x: seq<Account>, y: seq<Account>, ids: set<Address>)
    ensures RemoveAccounts(x + y, ids) == RemoveAccounts(x, ids) + RemoveAccounts(y, ids)
  {
    if x != [] {
      assert (x + y)[1..] == x[1..] + y;
      RemoveAccountsAppend(x[1..], y, ids);
    } else {
      assert x + y == y;
    }
  }
}
