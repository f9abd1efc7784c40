/**
 * The order a scan presents candidates in: `[...spl, ...t22].sort((a, b) =>
 * b.lamports - a.lamports)`, a stable sort by lamports, largest first.
 */
module Ordering {
  import opened Accounts

  predicate SortedDesc(s: seq<Account>)
  {
    forall i, j :: 0 <= i < j < |s| ==> s[i].lamports >= s[j].lamports
  }

  /** Place `a` before the first element holding no more lamports than it. */
  function InsertDesc(a: Account, s: seq<Account>): seq<Account>
  {
    if s == [] then [a]
    else if s[0].lamports <= a.lamports then [a] + s
    else [s[0]] + InsertDesc(a, s[1..])
  }

  function SortByLamportsDesc(s: seq<Account>): seq<Account>
  {
    if s == [] then [] else InsertDesc(s[0], SortByLamportsDesc(s[1..]))
  }

  /** The accounts of `s` holding exactly `v` lamports, in order. */
  function WithLamports(s: seq<Account>, v: int): seq<Account>
  {
    if s == [] then []
    else (if s[0].lamports == v then [s[0]] else []) + WithLamports(s[1..], v)
  }

  lemma {:induction false} InsertDescPermutes(a: Account, s: seq<Account>)
    ensures multiset(InsertDesc(a, s)) == multiset(s) + multiset{a}
  {
    if s != [] && s[0].lamports > a.lamports {
      InsertDescPermutes(a, s[1..]);
      assert s == [s[0]] + s[1..];
    }
  }

  lemma {:induction false} InsertDescBounded(a: Account, s: seq<Account>, bound: int)
    requires a.lamports <= bound
    requires forall k :: 0 <= k < |s| ==> s[k].lamports <= bound
    ensures forall k :: 0 <= k < |InsertDesc(a, s)| ==> InsertDesc(a, s)[k].lamports <= bound
  {
    if s != [] && s[0].lamports > a.lamports {
      InsertDescBounded(a, s[1..], bound);
    }
  }

  lemma {:induction false} InsertDescSorted(a: Account, s: seq<Account>)
    requires SortedDesc(s)
    ensures SortedDesc(InsertDesc(a, s))
  {
    if s != [] && s[0].lamports > a.lamports {
      var t := InsertDesc(a, s[1..]);
      InsertDescSorted(a, s[1..]);
      InsertDescBounded(a, s[1..], s[0].lamports);
      assert forall i :: 0 < i < |[s[0]] + t| ==> ([s[0]] + t)[i] == t[i - 1];
    }
  }

  lemma {:induction false} InsertDescStable(a: Account, s: seq<Account>, v: int)
    requires SortedDesc(s)
    ensures WithLamports(InsertDesc(a, s), v) == (if a.lamports == v then [a] else []) + WithLamports(s, v)
  {
    if s != [] && s[0].lamports > a.lamports {
      assert ([s[0]] + InsertDesc(a, s[1..]))[1..] == InsertDesc(a, s[1..]);
      InsertDescStable(a, s[1..], v);
    } else if s != [] {
      assert ([a] + s)[1..] == s;
    }
  }

  /** The merged scan result is ordered by lamports, largest first, and is a permutation of its input. */
  lemma {:induction false} SortByLamportsDescCorrect(s: seq<Account>)
    ensures SortedDesc(SortByLamportsDesc(s))
    ensures multiset(SortByLamportsDesc(s)) == multiset(s)
  {
    if s != [] {
      SortByLamportsDescCorrect(s[1..]);
      InsertDescSorted(s[0], SortByLamportsDesc(s[1..]));
      InsertDescPermutes(s[0], SortByLamportsDesc(s[1..]));
      assert s == [s[0]] + s[1..];
    }
  }

  /** The sort is stable: accounts holding equal lamports keep their relative order. */
  lemma {:induction false} SortByLamportsDescStable(s: seq<Account>, v: int)
    ensures WithLamports(SortByLamportsDesc(s), v) == WithLamports(s, v)
  {
    if s != [] {
      SortByLamportsDescStable(s[1..], v);
      SortByLamportsDescCorrect(s[1..]);
      InsertDescStable(s[0], SortByLamportsDesc(s[1..]), v);
    }
  }
}
