/**
 * The reclamation engine of the app component: the candidate list `empties`,
 * the selection record `selected`, and the scan and claim operations that
 * replace or shrink them. Wallet and ledger calls appear as inputs: a scan
 * receives what the two token-account queries returned, a claim receives the
 * outcome of submitting and confirming each batch.
 */
module Engine {
  import opened Wrappers
  import opened Accounts
  import opened Classifier
  import opened Ordering
  import opened Selection
  import opened Fees
  import opened Chunking
  import opened Transactions

  /** A transaction signature as `sendTransaction` returns it. */
  type Signature = string

  /** What one `getParsedTokenAccountsByOwner` call produced. */
  datatype Fetch = Fetched(records: seq<RawRecord>) | FetchError

  /**
   * What became of one batch: `sendTransaction` threw (the wallet refused or the
   * pre-flight check failed), the confirmation reported an error or threw, or it
   * confirmed without error.
   */
  datatype BatchOutcome = SendFailed | ConfirmFailed(sig: Signature) | Confirmed(sig: Signature)

  /** The status line, without its wording in either language. */
  datatype Status =
    | Idle
    | ConnectWalletFirst
    | Scanning
    | Found(count: nat)
    | ScanError
    | NothingSelected
    | ClaimingBatch(index: nat, total: nat)
    | Done
    | ClaimError

  function SignatureOf(o: BatchOutcome): Option<Signature>
  {
    match o
    case SendFailed => None
    case ConfirmFailed(s) => Some(s)
    case Confirmed(s) => Some(s)
  }

  /** The index of the first of batches `from..n` that does not confirm, or `n`. */
  function FirstUnconfirmed(respond: nat -> BatchOutcome, from: nat, n: nat): (k: nat)
    requires from <= n
    ensures from <= k <= n
    ensures forall j :: from <= j < k ==> respond(j).Confirmed?
    ensures k < n ==> !respond(k).Confirmed?
    decreases n - from
  {
    if from == n || !respond(from).Confirmed? then from else FirstUnconfirmed(respond, from + 1, n)
  }

  /** The signature left in `lastSig` when a claim stops at batch `k` of `n`. */
  function LastSignature(respond: nat -> BatchOutcome, k: nat, n: nat): Option<Signature>
  {
    if k < n && respond(k).ConfirmFailed? then Some(respond(k).sig)
    else if k == 0 then None
    else SignatureOf(respond(k - 1))
  }

  /** The candidate list a successful scan installs. */
  function MergedScan(wallet: Address, spl: seq<RawRecord>, t22: seq<RawRecord>): seq<Account>
  {
    SortByLamportsDesc(EmptyAccounts(wallet, SplToken, spl) + EmptyAccounts(wallet, Token2022, t22))
  }

  /**
   * The merged list is the SPL candidates and the Token-2022 candidates, sorted
   * by lamports from largest to smallest, equal amounts kept in that order; every
   * entry is a closeable account.
   */
  lemma MergedScanCorrect(wallet: Address, spl: seq<RawRecord>, t22: seq<RawRecord>)
    ensures SortedDesc(MergedScan(wallet, spl, t22))
    ensures multiset(MergedScan(wallet, spl, t22)) ==
      multiset(EmptyAccounts(wallet, SplToken, spl)) + multiset(EmptyAccounts(wallet, Token2022, t22))
    ensures forall v :: (WithLamports(MergedScan(wallet, spl, t22), v) ==
      WithLamports(EmptyAccounts(wallet, SplToken, spl) + EmptyAccounts(wallet, Token2022, t22), v))
    ensures forall a :: a in MergedScan(wallet, spl, t22) ==> a.lamports > 0 && a.mint != WSOL_MINT
  {
    var both := EmptyAccounts(wallet, SplToken, spl) + EmptyAccounts(wallet, Token2022, t22);
    SortByLamportsDescCorrect(both);
    forall v ensures WithLamports(MergedScan(wallet, spl, t22), v) == WithLamports(both, v) {
      SortByLamportsDescStable(both, v);
    }
    EmptyAccountsProperties(wallet, SplToken, spl);
    EmptyAccountsProperties(wallet, Token2022, t22);
    forall a | a in MergedScan(wallet, spl, t22) ensures a.lamports > 0 && a.mint != WSOL_MINT {
      assert a in multiset(both);
    }
  }

  /** The batches a claim cuts the current selection into. */
  function ClaimBatches(sel: Selection, empties: seq<Account>): seq<seq<Account>>
  {
    Chunks(SelectedAccounts(sel, empties), MAX_ACCOUNTS_PER_TX)
  }

  /** The keys closed by the first `k` batches. */
  function ClosedIds(batches: seq<seq<Account>>, k: nat): set<Address>
    requires k <= |batches|
  {
    Ids(Concat(batches[..k]))
  }

  lemma DistinctIdsSplit(x: seq<Account>, y: seq<Account>)
    requires DistinctIds(x + y)
    ensures Ids(x) !! Ids(y)
  {
    forall a, b | a in x && b in y ensures a.pubkey != b.pubkey {
      var i :| 0 <= i < |x| && x[i] == a;
      var j :| 0 <= j < |y| && y[j] == b;
      assert (x + y)[i] == a && (x + y)[|x| + j] == b;
    }
  }

  /**
   * When batch `k` fails, each of its accounts is still a candidate and still
   * selected after the removals of batches `0..k-1`: a well-formed selection
   * never puts one key into two batches.
   */
  lemma FailedBatchStays(sel: Selection, empties: seq<Account>, k: nat)
    requires DistinctKeys(sel)
    requires k < |ClaimBatches(sel, empties)|
    ensures forall a :: a in ClaimBatches(sel, empties)[k] ==>
      a in RemoveAccounts(empties, ClosedIds(ClaimBatches(sel, empties), k))
      && FlagOf(DeleteKeys(sel, ClosedIds(ClaimBatches(sel, empties), k)), a.pubkey)
  {
    var accounts := SelectedAccounts(sel, empties);
    var batches := ClaimBatches(sel, empties);
    SelectedAccountsExactly(sel, empties);
    SelectedAccountsFromEmpties(sel, empties);
    ChunksConcat(accounts, MAX_ACCOUNTS_PER_TX);
    assert batches == batches[..k] + [batches[k]] + batches[k + 1..];
    ConcatAppend(batches[..k] + [batches[k]], batches[k + 1..]);
    ConcatAppend(batches[..k], [batches[k]]);
    assert Concat([batches[k]]) == batches[k] by {
      assert [batches[k]][..0] == [];
    }
    var before: seq<Account> := Concat(batches[..k]);
    var upTo: seq<Account> := before + batches[k];
    assert accounts == upTo + Concat(batches[k + 1..]);
    assert DistinctIds(upTo) by {
      forall i, j | 0 <= i < j < |upTo| ensures upTo[i].pubkey != upTo[j].pubkey {
        assert upTo[i] == accounts[i] && upTo[j] == accounts[j];
      }
    }
    DistinctIdsSplit(before, batches[k]);
    RemoveAccountsMembers(empties, Ids(before));
    DeleteKeysEffect(sel, Ids(before));
    forall a | a in batches[k]
      ensures a in RemoveAccounts(empties, Ids(before)) && FlagOf(DeleteKeys(sel, Ids(before)), a.pubkey)
    {
      assert a in accounts;
      assert a.pubkey in Ids(batches[k]);
      assert a.pubkey in Ids(accounts);
    }
  }

  /** One confirmed batch more: its keys join the closed ones and its net joins the total. */
  lemma ClosedIdsStep(batches: seq<seq<Account>>, i: nat, cfg: FeeConfig)
    requires i < |batches|
    ensures ClosedIds(batches, i + 1) == ClosedIds(batches, i) + Ids(batches[i])
    ensures TotalNet(batches[..i + 1], cfg) == TotalNet(batches[..i], cfg) + BatchNetOf(batches[i], cfg)
  {
    assert batches[..i + 1][..i] == batches[..i];
    ConcatLast(batches[..i + 1]);
    IdsAppend(Concat(batches[..i]), batches[i]);
  }

  /** Each transaction handed to the wallet is the one built for the batch at its position. */
  ghost predicate SentMatches(sent: seq<Transaction>, batches: seq<seq<Account>>, owner: Address, cfg: FeeConfig)
  {
    && |sent| <= |batches|
    && forall j :: 0 <= j < |sent| ==>
         IsBatchTransaction(sent[j], batches[j], owner, cfg.feeRecipient, BatchFeeOf(batches[j], cfg))
  }

  /** Recording one more sent transaction keeps every recorded one matched with its batch. */
  lemma SentStep(sent: seq<Transaction>, tx: Transaction, batches: seq<seq<Account>>, owner: Address, cfg: FeeConfig)
    requires |sent| < |batches| && SentMatches(sent, batches, owner, cfg)
    requires IsBatchTransaction(tx, batches[|sent|], owner, cfg.feeRecipient, BatchFeeOf(batches[|sent|], cfg))
    ensures SentMatches(sent + [tx], batches, owner, cfg)
  {
    forall j | 0 <= j < |sent| + 1
      ensures IsBatchTransaction((sent + [tx])[j], batches[j], owner, cfg.feeRecipient, BatchFeeOf(batches[j], cfg))
    {
      if j < |sent| {
        assert (sent + [tx])[j] == sent[j];
      } else {
        assert (sent + [tx])[j] == tx;
      }
    }
  }

  /**
   * The claim loop's state once batches `0..i-1` have all confirmed: their
   * transactions were sent, their accounts are gone from the start-of-claim
   * candidates `empties0` and their keys from the start-of-claim selection
   * `selected0`, `total` is the sum of their nets, and `lastSig` holds the last
   * of their signatures.
   */
  ghost predicate Claimed(owner: Address, batches: seq<seq<Account>>, respond: nat -> BatchOutcome, cfg: FeeConfig,
                          i: nat, sent: seq<Transaction>, total: int, empties0: seq<Account>, selected0: Selection,
                          empties: seq<Account>, selected: Selection, lastSig: Option<Signature>)
  {
    && i <= |batches|
    && FirstUnconfirmed(respond, 0, |batches|) >= i
    && |sent| == i && SentMatches(sent, batches, owner, cfg)
    && empties == RemoveAccounts(empties0, ClosedIds(batches, i))
    && selected == DeleteKeys(selected0, ClosedIds(batches, i))
    && total == TotalNet(batches[..i], cfg)
    && lastSig == (if i == 0 then None else SignatureOf(respond(i - 1)))
  }

  /**
   * The claim loop's state once it has stopped at batch `k`, the first that
   * did not confirm, or at `k == |batches|` when all confirmed: the
   * transactions of batches `0..k` were sent (the last of them is batch `k`'s
   * when it exists), only the accounts and keys of batches `0..k-1` are gone,
   * `lastSig` is the last signature returned, `total` is the sum of all nets
   * when every batch confirmed, and the status names the last batch sent:
   * batch `k + 1` when the loop stopped early, the final batch otherwise.
   */
  ghost predicate Stopped(owner: Address, batches: seq<seq<Account>>, respond: nat -> BatchOutcome, cfg: FeeConfig,
                          k: nat, sent: seq<Transaction>, total: int, empties0: seq<Account>, selected0: Selection,
                          empties: seq<Account>, selected: Selection, lastSig: Option<Signature>, status: Status)
  {
    && k == FirstUnconfirmed(respond, 0, |batches|)
    && |sent| == (if k == |batches| then k else k + 1) && SentMatches(sent, batches, owner, cfg)
    && empties == RemoveAccounts(empties0, ClosedIds(batches, k))
    && selected == DeleteKeys(selected0, ClosedIds(batches, k))
    && lastSig == LastSignature(respond, k, |batches|)
    && (k == |batches| ==> total == TotalNet(batches, cfg))
    && (k < |batches| ==> status == ClaimingBatch(k + 1, |batches|))
    && (0 < k == |batches| ==> status == ClaimingBatch(k, |batches|))
  }

  /** Before the first batch nothing is sent, removed or summed. */
  lemma NoneClaimed(owner: Address, batches: seq<seq<Account>>, respond: nat -> BatchOutcome, cfg: FeeConfig,
                    empties: seq<Account>, selected: Selection)
    ensures Claimed(owner, batches, respond, cfg, 0, [], 0, empties, selected, empties, selected, None)
  {
    assert ClosedIds(batches, 0) == {} by {
      assert batches[..0] == [];
    }
    RemoveAccountsUntouched(empties, {});
    DeleteKeysUntouched(selected, {});
  }

  /**
   * A confirmed batch `i` moves the loop on to `i + 1`: its transaction is
   * recorded, its net added, its accounts and keys dropped and its signature kept.
   */
  lemma ConfirmedStep(owner: Address, batches: seq<seq<Account>>, respond: nat -> BatchOutcome, cfg: FeeConfig,
                      i: nat, sent: seq<Transaction>, tx: Transaction, total: int,
                      empties0: seq<Account>, selected0: Selection,
                      empties: seq<Account>, selected: Selection, lastSig: Option<Signature>)
    requires i < |batches| && respond(i).Confirmed?
    requires Claimed(owner, batches, respond, cfg, i, sent, total, empties0, selected0, empties, selected, lastSig)
    requires IsBatchTransaction(tx, batches[i], owner, cfg.feeRecipient, BatchFeeOf(batches[i], cfg))
    ensures Claimed(owner, batches, respond, cfg, i + 1, sent + [tx], total + BatchNetOf(batches[i], cfg),
                    empties0, selected0, RemoveAccounts(empties, Ids(batches[i])),
                    DeleteKeys(selected, Ids(batches[i])), Some(respond(i).sig))
  {
    SentStep(sent, tx, batches, owner, cfg);
    assert FirstUnconfirmed(respond, 0, |batches|) > i;
    ClosedIdsStep(batches, i, cfg);
    DeleteKeysTwice(selected0, ClosedIds(batches, i), Ids(batches[i]));
    RemoveAccountsTwice(empties0, ClosedIds(batches, i), Ids(batches[i]));
  }

  /**
   * A batch `i` that does not confirm stops the loop at `i`: its transaction is
   * recorded, nothing is removed, and its signature is kept when it has one.
   */
  lemma UnconfirmedStop(owner: Address, batches: seq<seq<Account>>, respond: nat -> BatchOutcome, cfg: FeeConfig,
                        i: nat, sent: seq<Transaction>, tx: Transaction, total: int,
                        empties0: seq<Account>, selected0: Selection,
                        empties: seq<Account>, selected: Selection, lastSig: Option<Signature>)
    requires i < |batches| && !respond(i).Confirmed?
    requires Claimed(owner, batches, respond, cfg, i, sent, total, empties0, selected0, empties, selected, lastSig)
    requires IsBatchTransaction(tx, batches[i], owner, cfg.feeRecipient, BatchFeeOf(batches[i], cfg))
    ensures Stopped(owner, batches, respond, cfg, i, sent + [tx], total, empties0, selected0, empties, selected,
                    if respond(i).SendFailed? then lastSig else Some(respond(i).sig), ClaimingBatch(i + 1, |batches|))
  {
    SentStep(sent, tx, batches, owner, cfg);
  }

  /** When every batch has confirmed the loop stops at the end. */
  lemma AllConfirmed(owner: Address, batches: seq<seq<Account>>, respond: nat -> BatchOutcome, cfg: FeeConfig,
                     sent: seq<Transaction>, total: int, empties0: seq<Account>, selected0: Selection,
                     empties: seq<Account>, selected: Selection, lastSig: Option<Signature>, status: Status)
    requires Claimed(owner, batches, respond, cfg, |batches|, sent, total, empties0, selected0, empties, selected, lastSig)
    requires 0 < |batches| ==> status == ClaimingBatch(|batches|, |batches|)
    ensures Stopped(owner, batches, respond, cfg, |batches|, sent, total, empties0, selected0,
                    empties, selected, lastSig, status)
  {
    assert batches[..|batches|] == batches;
  }

  /** Every candidate holds rent and is not wrapped SOL, as a scan leaves the list. */
  ghost predicate Closeable(empties: seq<Account>)
  {
    forall a :: a in empties ==> a.lamports > 0 && a.mint != WSOL_MINT
  }

  /** The gross, fee and net the app shows for the current selection. */
  datatype FeePreview = FeePreview(gross: int, fee: int, net: int)

  function PreviewOf(sel: Selection, empties: seq<Account>, cfg: FeeConfig): FeePreview
  {
    var gross := Gross(SelectedAccounts(sel, empties));
    var fee := PreviewFee(gross, cfg);
    FeePreview(gross, fee, Net(gross, fee))
  }

  /**
   * For candidates holding no negative balance and a rate within 0..10000, the
   * preview's fee lies between 0 and the gross, the net is gross minus fee, and
   * a claim that confirms every batch charges at most the previewed fee and
   * pays out at least the previewed net.
   */
  lemma PreviewBounds(sel: Selection, empties: seq<Account>, cfg: FeeConfig)
    requires forall a :: a in empties ==> a.lamports >= 0
    requires 0 <= cfg.feeBps <= 10000
    ensures 0 <= PreviewOf(sel, empties, cfg).fee <= PreviewOf(sel, empties, cfg).gross
    ensures PreviewOf(sel, empties, cfg).net == PreviewOf(sel, empties, cfg).gross - PreviewOf(sel, empties, cfg).fee
    ensures TotalFees(ClaimBatches(sel, empties), cfg) <= PreviewOf(sel, empties, cfg).fee
    ensures TotalNet(ClaimBatches(sel, empties), cfg) >= PreviewOf(sel, empties, cfg).net
  {
    var accounts := SelectedAccounts(sel, empties);
    SelectedAccountsFromEmpties(sel, empties);
    GrossNonNegative(accounts);
    PreviewMatchesBatchFee(Gross(accounts), cfg);
    BatchFeeBounds(Gross(accounts), cfg);
    ChunksConcat(accounts, MAX_ACCOUNTS_PER_TX);
    BatchedTotalsAddUp(ClaimBatches(sel, empties), cfg);
    BatchedFeesWithinPreview(ClaimBatches(sel, empties), cfg);
  }

  class RentClaimer {
    var empties: seq<Account>
    var selected: Selection
    var status: Status
    var lastSig: Option<Signature>
    /** The amount the success overlay shows after a fully confirmed claim. */
    var claimedLamports: int
    /** FEE_BPS and the parsed FEE_RECIPIENT, fixed when the app loads. */
    const config: FeeConfig

    /**
     * The selection names each key at most once, and every candidate is an
     * account worth closing: it holds rent and is not wrapped SOL.
     */
    ghost predicate Valid()
      reads this
    {
      && DistinctKeys(selected)
      && Closeable(empties)
    }

    constructor (config: FeeConfig)
      ensures Valid() && this.config == config
      ensures empties == [] && selected == [] && status == Idle && lastSig == None && claimedLamports == 0
    {
      this.config := config;
      empties, selected, status, lastSig, claimedLamports := [], [], Idle, None, 0;
    }

    /**
     * The gross/fee/net memos: the gross is what the selected candidates hold,
     * nothing is charged without a recipient, and for a rate within 0..10000 the
     * fee and net split the gross and bound what a fully confirmed claim charges
     * and pays out.
     */
    function Preview(): (p: FeePreview)
      reads this
      requires Valid()
      ensures p.gross == Gross(SelectedAccounts(selected, empties)) && p.gross >= 0
      ensures config.feeRecipient.None? ==> p.fee == 0 && p.net == p.gross
      ensures config.feeRecipient.Some? ==> p.fee == Max(0, (p.gross * config.feeBps) / 10000)
      ensures p.net == Max(0, p.gross - p.fee)
      ensures 0 <= config.feeBps <= 10000 ==>
        && 0 <= p.fee <= p.gross && p.net == p.gross - p.fee
        && TotalFees(ClaimBatches(selected, empties), config) <= p.fee
        && TotalNet(ClaimBatches(selected, empties), config) >= p.net
    {
      SelectedAccountsFromEmpties(selected, empties);
      GrossNonNegative(SelectedAccounts(selected, empties));
      if 0 <= config.feeBps <= 10000 then
        PreviewBounds(selected, empties, config);
        PreviewOf(selected, empties, config)
      else
        PreviewOf(selected, empties, config)
    }

    method ToggleOne(id: Address)
      requires Valid()
      modifies this
      ensures Valid()
      ensures selected == Toggle(old(selected), id)
      ensures FlagOf(selected, id) == !FlagOf(old(selected), id)
      ensures forall x :: x != id ==> FlagOf(selected, x) == FlagOf(old(selected), x)
      ensures empties == old(empties) && status == old(status) && lastSig == old(lastSig)
      ensures claimedLamports == old(claimedLamports)
    {
      ToggleEffect(selected, id);
      selected := Toggle(selected, id);
    }

    method SelectAll()
      requires Valid()
      modifies this
      ensures Valid()
      ensures selected == SelectAllOf(empties)
      ensures forall x :: FlagOf(selected, x) <==> x in Ids(empties)
      ensures empties == old(empties) && status == old(status) && lastSig == old(lastSig)
      ensures claimedLamports == old(claimedLamports)
    {
      selected := AllSelected(empties);
    }

    method ClearSelection()
      requires Valid()
      modifies this
      ensures Valid()
      ensures selected == [] && forall x :: !FlagOf(selected, x)
      ensures empties == old(empties) && status == old(status) && lastSig == old(lastSig)
      ensures claimedLamports == old(claimedLamports)
    {
      selected := [];
    }

    /**
     * scan: without a wallet only the status changes; otherwise, if both
     * queries succeed the merged candidates replace the list and the selection
     * is cleared, and if either fails both are cleared.
     */
    method Scan(wallet: Option<Address>, spl: Fetch, t22: Fetch)
      requires Valid()
      modifies this
      ensures Valid()
      ensures claimedLamports == old(claimedLamports)
      ensures wallet.None? ==>
        status == ConnectWalletFirst && empties == old(empties) && selected == old(selected) && lastSig == old(lastSig)
      ensures wallet.Some? && spl.Fetched? && t22.Fetched? ==>
        && empties == MergedScan(wallet.value, spl.records, t22.records)
        && selected == [] && lastSig == None && status == Found(|empties|)
      ensures wallet.Some? && (spl.FetchError? || t22.FetchError?) ==>
        empties == [] && selected == [] && lastSig == None && status == ScanError
    {
      if wallet.None? {
        status := ConnectWalletFirst;
        return;
      }
      lastSig := None;
      status := Scanning;
      if spl.FetchError? || t22.FetchError? {
        empties := [];
        selected := [];
        status := ScanError;
        return;
      }
      var fromSpl := Classify(wallet, SplToken, spl.records);
      var fromT22 := Classify(wallet, Token2022, t22.records);
      empties := SortByLamportsDesc(fromSpl + fromT22);
      MergedScanCorrect(wallet.value, spl.records, t22.records);
      selected := [];
      status := Found(|empties|);
    }

    /**
     * claimSelected: the selected candidates are cut into batches of
     * MAX_ACCOUNTS_PER_TX and sent one after another. Each confirmed batch adds
     * its net to the total and leaves both the selection and the candidate list;
     * the first batch that is not confirmed ends the claim, keeps the effects of
     * the batches before it, and leaves the claimed amount as it was.
     * `sent` lists the transactions handed to the wallet, in order.
     */
    method ClaimSelected(wallet: Option<Address>, respond: nat -> BatchOutcome) returns (sent: seq<Transaction>)
      requires Valid()
      modifies this
      ensures Valid()
      ensures wallet.None? || SelectedAccounts(old(selected), old(empties)) == [] ==>
        && sent == [] && empties == old(empties) && selected == old(selected)
        && lastSig == old(lastSig) && claimedLamports == old(claimedLamports)
        && status == (if wallet.None? then ConnectWalletFirst else NothingSelected)
      ensures wallet.Some? && SelectedAccounts(old(selected), old(empties)) != [] ==>
        var batches := ClaimBatches(old(selected), old(empties));
        var k := FirstUnconfirmed(respond, 0, |batches|);
        && |sent| == (if k < |batches| then k + 1 else k)
        && (forall j :: 0 <= j < |sent| ==>
              IsBatchTransaction(sent[j], batches[j], wallet.value, config.feeRecipient, BatchFeeOf(batches[j], config)))
        && empties == RemoveAccounts(old(empties), ClosedIds(batches, k))
        && selected == DeleteKeys(old(selected), ClosedIds(batches, k))
        && lastSig == LastSignature(respond, k, |batches|)
        && (k == |batches| ==> status == Done && claimedLamports == TotalNet(batches, config))
        && (k < |batches| ==> status == ClaimError && claimedLamports == old(claimedLamports))
    {
      sent := [];
      if wallet.None? {
        status := ConnectWalletFirst;
        return;
      }
      var accounts := SelectedAccounts(selected, empties);
      if |accounts| == 0 {
        status := NothingSelected;
        return;
      }
      lastSig := None;
      var batches := Chunk(accounts, MAX_ACCOUNTS_PER_TX);
      var stoppedAt, totalNetLamports;
      ghost var empties0, selected0 := empties, selected;
      sent, stoppedAt, totalNetLamports := RunBatches(wallet.value, batches, respond);
      RemoveAccountsMembers(empties0, ClosedIds(batches, stoppedAt));
      DeleteKeysKeepsDistinct(selected0, ClosedIds(batches, stoppedAt));
      if stoppedAt == |batches| {
        status := Done;
        claimedLamports := totalNetLamports;
      } else {
        status := ClaimError;
      }
    }

    /**
     * The claim loop over `batches`, strictly in order, stopping at the first
     * batch that does not confirm. `stoppedAt` is that batch's index, or the
     * number of batches when all confirmed; `Stopped` gives the state it leaves.
     */
    method RunBatches(owner: Address, batches: seq<seq<Account>>, respond: nat -> BatchOutcome)
      returns (sent: seq<Transaction>, stoppedAt: nat, totalNetLamports: int)
      requires lastSig == None
      modifies this
      ensures stoppedAt <= |batches| && claimedLamports == old(claimedLamports)
      ensures Stopped(owner, batches, respond, config, stoppedAt, sent, totalNetLamports,
                      old(empties), old(selected), empties, selected, lastSig, status)
    {
      sent := [];
      totalNetLamports := 0;
      ghost var empties0, selected0 := empties, selected;
      NoneClaimed(owner, batches, respond, config, empties, selected);
      var i := 0;
      while i < |batches|
        invariant 0 <= i <= |batches| && claimedLamports == old(claimedLamports)
        invariant 0 < i ==> status == ClaimingBatch(i, |batches|)
        invariant Claimed(owner, batches, respond, config, i, sent, totalNetLamports,
                          empties0, selected0, empties, selected, lastSig)
      {
        var confirmed;
        sent, totalNetLamports, confirmed :=
          ClaimBatch(owner, batches, respond, i, sent, totalNetLamports, empties0, selected0);
        if !confirmed {
          stoppedAt := i;
          return;
        }
        i := i + 1;
      }
      AllConfirmed(owner, batches, respond, config, sent, totalNetLamports, empties0, selected0,
                   empties, selected, lastSig, status);
      stoppedAt := i;
    }

    /**
     * One pass of the claim loop, for batch `i`: it computes the batch's gross
     * and fee, sends its batch transaction, sets the status to batch `i + 1` of
     * `|batches|` and records the signature once there is one. On confirmation
     * the net joins the total, the batch's keys leave the selection and its
     * accounts leave the candidates, and the loop goes on; otherwise the loop
     * has stopped at `i`.
     */
    method ClaimBatch(owner: Address, batches: seq<seq<Account>>, respond: nat -> BatchOutcome, i: nat,
                      sent: seq<Transaction>, total: int, ghost empties0: seq<Account>, ghost selected0: Selection)
      returns (sent': seq<Transaction>, total': int, confirmed: bool)
      requires i < |batches|
      requires Claimed(owner, batches, respond, config, i, sent, total, empties0, selected0, empties, selected, lastSig)
      modifies this
      ensures confirmed == respond(i).Confirmed? && claimedLamports == old(claimedLamports)
      ensures status == ClaimingBatch(i + 1, |batches|)
      ensures confirmed ==>
        Claimed(owner, batches, respond, config, i + 1, sent', total', empties0, selected0, empties, selected, lastSig)
      ensures !confirmed ==>
        Stopped(owner, batches, respond, config, i, sent', total', empties0, selected0, empties, selected, lastSig, status)
    {
      var batch := batches[i];
      var batchGross := Gross(batch);
      var batchFee := BatchFee(batchGross, config);
      var tx := BuildTransaction(batch, owner, config.feeRecipient, batchFee);
      sent' := sent + [tx];
      total' := total;
      status := ClaimingBatch(i + 1, |batches|);
      var outcome := respond(i);
      confirmed := outcome.Confirmed?;
      if outcome.SendFailed? {
        UnconfirmedStop(owner, batches, respond, config, i, sent, tx, total, empties0, selected0, empties, selected, lastSig);
        return;
      }
      ghost var sig0 := lastSig;
      lastSig := Some(outcome.sig);
      if outcome.ConfirmFailed? {
        UnconfirmedStop(owner, batches, respond, config, i, sent, tx, total, empties0, selected0, empties, selected, sig0);
        return;
      }
      ConfirmedStep(owner, batches, respond, config, i, sent, tx, total, empties0, selected0, empties, selected, sig0);
      total' := total + Max(0, batchGross - batchFee);
      selected := DeleteKeys(selected, Ids(batch));
      empties := RemoveAccounts(empties, Ids(batch));
    }
  }
}
