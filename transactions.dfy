/** The transaction one batch is claimed with. */
module Transactions {
  import opened Wrappers
  import opened Accounts

  datatype Instruction =
    /** SystemProgram.transfer */
    | Transfer(from: Address, to: Address, lamports: int)
    /** createCloseAccountInstruction(account, destination, authority, [], programId) */
    | CloseAccount(account: Address, destination: Address, authority: Address, program: TokenProgram)

  type Transaction = seq<Instruction>

  /** 1 when a fee transfer leads the transaction, else 0. */
  function FeeSlots(recipient: Option<Address>, fee: int): nat
  {
    if recipient.Some? && fee > 0 then 1 else 0
  }

  /**
   * The transaction for `batch`: a transfer of `fee` from the wallet to the
   * recipient first when there is a recipient and a positive fee, then one close
   * per account in batch order, each sending the rent to the wallet and signed
   * by the wallet, under the account's own token program.
   */
  predicate IsBatchTransaction(tx: Transaction, batch: seq<Account>, wallet: Address, recipient: Option<Address>, fee: int)
  {
    var off := FeeSlots(recipient, fee);
    && |tx| == off + |batch|
    && (off == 1 ==> tx[0] == Transfer(wallet, recipient.value, fee))
    && (forall k :: 0 <= k < |batch| ==>
          tx[off + k] == CloseAccount(batch[k].pubkey, wallet, wallet, batch[k].programId))
  }

  /** The description above fixes the transaction completely. */
  lemma BatchTransactionUnique(t1: Transaction, t2: Transaction, batch: seq<Account>, wallet: Address, recipient: Option<Address>, fee: int)
    requires IsBatchTransaction(t1, batch, wallet, recipient, fee)
    requires IsBatchTransaction(t2, batch, wallet, recipient, fee)
    ensures t1 == t2
  {
    var off := FeeSlots(recipient, fee);
    forall j | 0 <= j < |t1| ensures t1[j] == t2[j] {
      if j >= off {
        var k := j - off;
        assert t1[off + k] == CloseAccount(batch[k].pubkey, wallet, wallet, batch[k].programId);
        assert t2[off + k] == CloseAccount(batch[k].pubkey, wallet, wallet, batch[k].programId);
      }
    }
  }

  /** The transaction holds a transfer only in its first slot, and only when a fee is charged. */
  lemma BatchTransactionTransfers(tx: Transaction, batch: seq<Account>, wallet: Address, recipient: Option<Address>, fee: int)
    requires IsBatchTransaction(tx, batch, wallet, recipient, fee)
    ensures forall j :: 0 <= j < |tx| ==> (tx[j].Transfer? <==> j == 0 && recipient.Some? && fee > 0)
    ensures forall j :: 0 <= j < |tx| && tx[j].CloseAccount? ==> tx[j].destination == wallet && tx[j].authority == wallet
  {
    var off := FeeSlots(recipient, fee);
    forall j | off <= j < |tx| ensures tx[j] == CloseAccount(batch[j - off].pubkey, wallet, wallet, batch[j - off].programId) {
      var k := j - off;
      assert tx[off + k] == CloseAccount(batch[k].pubkey, wallet, wallet, batch[k].programId);
    }
  }

  /** `new Transaction()`, the optional fee transfer, then `tx.add` of one close per account. */
  method BuildTransaction(batch: seq<Account>, wallet: Address, recipient: Option<Address>, fee: int) returns (tx: Transaction)
    ensures IsBatchTransaction(tx, batch, wallet, recipient, fee)
  {
    tx := [];
    if recipient.Some? && fee > 0 {
      tx := tx + [Transfer(wallet, recipient.value, fee)];
    }
    var off := |tx|;
    for k := 0 to |batch|
      invariant |tx| == off + k
      invariant off == FeeSlots(recipient, fee)
      invariant off == 1 ==> tx[0] == Transfer(wallet, recipient.value, fee)
      invariant forall m :: 0 <= m < k ==>
        tx[off + m] == CloseAccount(batch[m].pubkey, wallet, wallet, batch[m].programId)
    {
      tx := tx + [CloseAccount(batch[k].pubkey, wallet, wallet, batch[k].programId)];
    }
  }
}
