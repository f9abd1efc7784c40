/**
 * The classifier: from the loosely typed records a parsed token-account query
 * returns, keep those that are closeable, owned by the wallet and worth closing.
 */
module Classifier {
  import opened Wrappers
  import opened Accounts

  /** `Number(tokenAmount.uiAmount)` is only ever compared with 0, so only its zeroness is kept. */
  datatype UiAmount = ZeroAmount | NonzeroAmount

  datatype TokenAmount = TokenAmount(uiAmount: Option<UiAmount>)

  /** `account.data.parsed.info`: each field may be missing. */
  datatype ParsedInfo = ParsedInfo(mint: Option<string>, owner: Option<string>, tokenAmount: Option<TokenAmount>)

  /** One element of the query's `value` list. */
  datatype RawRecord = RawRecord(pubkey: Address, lamports: Option<int>, info: Option<ParsedInfo>)

  /** A JavaScript string field is truthy when it is there and not empty. */
  predicate Present(s: Option<string>)
  {
    s.Some? && s.value != ""
  }

  /** `uiAmount ?? 0` compared with 0. */
  predicate IsZero(u: Option<UiAmount>)
  {
    u.None? || u.value == ZeroAmount
  }

  /** `account.lamports ?? 0`. */
  function LamportsOf(r: RawRecord): int
  {
    if r.lamports.Some? then r.lamports.value else 0
  }

  /** The conjunction of every `continue` test of the loop, negated. */
  predicate Eligible(wallet: Address, r: RawRecord)
  {
    && r.info.Some?
    && Present(r.info.value.mint)
    && Present(r.info.value.owner)
    && r.info.value.tokenAmount.Some?
    && r.info.value.owner.value == wallet
    && IsZero(r.info.value.tokenAmount.value.uiAmount)
    && r.info.value.mint.value != WSOL_MINT
    && LamportsOf(r) > 0
  }

  function ToAccount(r: RawRecord, program: TokenProgram): Account
    requires r.info.Some? && r.info.value.mint.Some?
  {
    Account(r.pubkey, program, r.info.value.mint.value, LamportsOf(r))
  }

  /** The closeable accounts among `records`, tagged with `program`, in query order. */
  function EmptyAccounts(wallet: Address, program: TokenProgram, records: seq<RawRecord>): seq<Account>
  {
    if records == [] then []
    else
      var last := records[|records| - 1];
      EmptyAccounts(wallet, program, records[..|records| - 1])
      + (if Eligible(wallet, last) then [ToAccount(last, program)] else [])
  }

  /**
   * Every surviving account comes from an eligible record (owned by the wallet,
   * zero tokens, not WSOL, positive lamports), keeps that record's key, mint and
   * lamports and carries the program it was queried under; and every eligible
   * record yields one.
   */
  lemma {:induction false} EmptyAccountsExactly(wallet: Address, program: TokenProgram, records: seq<RawRecord>)
    ensures forall a :: a in EmptyAccounts(wallet, program, records) <==>
      exists r :: r in records && Eligible(wallet, r) && a == ToAccount(r, program)
  {
    if records != [] {
      var init, last := records[..|records| - 1], records[|records| - 1];
      EmptyAccountsExactly(wallet, program, init);
      assert records == init + [last];
      assert forall r :: r in records <==> r in init || r == last;
    }
  }

  lemma EmptyAccountsProperties(wallet: Address, program: TokenProgram, records: seq<RawRecord>)
    ensures forall a :: a in EmptyAccounts(wallet, program, records) ==>
      a.programId == program && a.lamports > 0 && a.mint != WSOL_MINT
  {
    EmptyAccountsExactly(wallet, program, records);
  }

  /** The filter keeps input order: classifying a concatenation concatenates the results. */
  lemma {:induction false} EmptyAccountsAppend(wallet: Address, program: TokenProgram, x: seq<RawRecord>, y: seq<RawRecord>)
    ensures EmptyAccounts(wallet, program, x + y) == EmptyAccounts(wallet, program, x) + EmptyAccounts(wallet, program, y)
    decreases |y|
  {
    if y == [] {
      assert x + y == x;
    } else {
      var yi := y[..|y| - 1];
      assert (x + y)[..|x + y| - 1] == x + yi;
      assert (x + y)[|x + y| - 1] == y[|y| - 1];
      EmptyAccountsAppend(wallet, program, x, yi);
    }
  }

  /**
   * fetchEmptyTokenAccountsForProgram after its query has returned `records`:
   * nothing without a wallet, otherwise the loop with its `continue` filters.
   */
  method Classify(wallet: Option<Address>, program: TokenProgram, records: seq<RawRecord>) returns (out: seq<Account>)
    ensures wallet.None? ==> out == []
    ensures wallet.Some? ==> out == EmptyAccounts(wallet.value, program, records)
    ensures forall k :: 0 <= k < |out| ==>
      out[k].programId == program && out[k].lamports > 0 && out[k].mint != WSOL_MINT
  {
    out := [];
    if wallet.None? {
      return;
    }
    var owner := wallet.value;
    for i := 0 to |records|
      invariant out == EmptyAccounts(owner, program, records[..i])
      invariant forall k :: 0 <= k < |out| ==>
        out[k].programId == program && out[k].lamports > 0 && out[k].mint != WSOL_MINT
    {
      var it := records[i];
      assert records[..i + 1] == records[..i] + [it];
      if it.info.None? { continue; }
      var info := it.info.value;
      if !Present(info.mint) || !Present(info.owner) || info.tokenAmount.None? { continue; }
      if info.owner.value != owner { continue; }
      if !IsZero(info.tokenAmount.value.uiAmount) { continue; }
      if info.mint.value == WSOL_MINT { continue; }
      var lamports := if it.lamports.Some? then it.lamports.value else 0;
      if lamports <= 0 { continue; }
      out := out + [Account(it.pubkey, program, info.mint.value, lamports)];
    }
    assert records[..|records|] == records;
  }
}
