# Empty token account rent reclaimer: the reclamation engine in Dafny

The app finds a Solana wallet's empty SPL Token and Token-2022 accounts.
The user selects some of them. The app then closes the selected accounts in
transactions of at most 13 accounts each, so their rent goes back to the wallet.
An optional service fee, counted in basis points, goes to a configured recipient.
This project models that engine, which lives in one file of the app (`src/App.tsx`),
and proves its properties.

Modules:

- `Accounts` (`accounts.dfy`): the candidate account record (`EmptyTokenAcc`: key,
  token program, mint, lamports). It also holds the WSOL mint, the key set of a list,
  the lamport sum (`reduce`), and the filter that drops the accounts of a confirmed batch.
- `Classifier` (`classifier.dfy`): `fetchEmptyTokenAccountsForProgram` after its query has
  returned. The loosely typed parsed record is a datatype whose fields may be missing.
  The `continue` loop is the method `Classify`, proved equal to the function `EmptyAccounts`.
- `Ordering` (`ordering.dfy`): the scan's `sort((a, b) => b.lamports - a.lamports)`.
  JavaScript's sort is stable, so it is a stable insertion sort, proved sorted and a
  permutation of its input. For each lamport value, the accounts holding it keep their
  relative order.
- `Selection` (`selection.dfy`): the `selected` record (`Record<string, boolean>`).
  `Object.entries` lists keys in insertion order, and that order decides
  `selectedAccounts` and hence the batches. So the record is an association list of
  (key, flag) entries that `{ ...prev, [id]: v }` updates in place or extends at the end.
  This module also holds `toggleOne`, the `selectAll` loop (`AllSelected`),
  `selectedAccounts`, and the key deletion of a confirmed batch. `new Map(...)` keeps
  the last entry for a repeated key, and `Lookup` does the same.
- `Fees` (`fees.dfy`): the `feeLamports` preview, the per-batch fee, the net, and the
  totals over a run of batches. `Math.floor` of a quotient by 10000 is Dafny's `/`,
  which also rounds toward negative infinity.
- `Chunking` (`chunking.dfy`): `chunk` as the index loop `Chunk`, specified by the
  function `Chunks`, with MAX_ACCOUNTS_PER_TX = 13.
- `Transactions` (`transactions.dfy`): the optional fee transfer, then one close
  instruction per account.
- `Engine` (`engine.dfy`): the class `RentClaimer`. Its fields are the component's
  state: `empties`, `selected`, `status`, `lastSig`, and the claimed amount the success
  overlay shows. `config` is FEE_BPS (300 when the environment does not set it,
  src/App.tsx:32) with the parsed fee recipient. Its methods are `scan`, the selection handlers and `claimSelected`:
  - `RunBatches` is the batch loop.
  - `ClaimBatch` is one pass of that loop.
  - `Claimed` describes the loop's state after batches `0..i-1` have confirmed, and
    `Stopped` the state it leaves when it stops.
  - Every public method (scan, the selection handlers, claimSelected, the preview)
    keeps or requires the invariant `Valid`: the selection holds each key at most once,
    and every candidate holds rent and is not wrapped SOL.

Wallet and network calls are inputs:

- A scan receives the two query results, each either a record list or a failure.
- A claim receives `respond`, which gives the outcome of batch `i`:
  - `SendFailed`: `sendTransaction` threw.
  - `ConfirmFailed(sig)`: the confirmation reported an error or threw.
  - `Confirmed(sig)`: the batch confirmed.

`FirstUnconfirmed` names the batch at which a claim stops.

Three facts about the claim path shape the model:

- Each batch goes out through one `sendTransaction` call with `skipPreflight: false`; the code has no
  other simulation call, so a failed pre-flight is one more way for `sendTransaction` to throw (`SendFailed`).
- The batch size is 13 (src/App.tsx:40).
- Fees are computed from the lamports recorded at scan time, not re-read before sending.

Each batch rounds its fee down separately. So the fees a claim actually charges can add up
to less than the fee the preview showed, and the net paid out can exceed the previewed net.
`Engine.PreviewBounds` states both as inequalities.

## Model

| member | source | states |
|---|---|---|
| Chunking.Chunk | src/App.tsx:185-189 | the index loop pushing `arr.slice(i, i + size)` returns exactly the slices `Chunks(arr, size)` |
| Chunking.ChunksConcat | src/App.tsx:185-189 | concatenating the chunks in order gives back the input list |
| Chunking.ChunksSizes | src/App.tsx:185-189 | every chunk is non-empty and at most `size` long, and each chunk but the last is exactly `size` long |
| Chunking.ChunksCount | src/App.tsx:185-189 | there are ceil(\|arr\| / size) chunks |
| Classifier.Classify | src/App.tsx:459-493 | without a wallet the result is empty; otherwise the loop with its `continue` filters yields `EmptyAccounts`; each result carries the queried program, positive lamports and a mint other than WSOL |
| Classifier.EmptyAccountsExactly | src/App.tsx:465-489 | an account is in the result if and only if some record has info, a non-empty mint and owner, a token amount, the wallet as owner, a zero ui amount, no WSOL mint and positive `lamports ?? 0`, and the account is that record's key, mint and lamports tagged with the program |
| Classifier.EmptyAccountsProperties | src/App.tsx:476-489 | every result account has the queried program, lamports > 0 and a mint other than WSOL |
| Classifier.EmptyAccountsAppend | src/App.tsx:465-490 | survivors keep query order: classifying a concatenation is the concatenation of the results |
| Ordering.SortByLamportsDescCorrect | src/App.tsx:512 | the scan's sort orders by lamports, largest first, and is a permutation of its input |
| Ordering.SortByLamportsDescStable | src/App.tsx:512 | the sort is stable: for every lamport value, the accounts holding it appear in input order |
| Engine.MergedScanCorrect | src/App.tsx:507-513 | the merged list is sorted by lamports descending, is a permutation of the SPL results followed by the Token-2022 results, keeps equal amounts in that order, and holds only accounts with lamports > 0 and a mint other than WSOL |
| Engine.RentClaimer.Scan | src/App.tsx:495-528 | without a wallet only the status changes. Otherwise `lastSig` is cleared. When both queries succeed, `empties` becomes the merged and sorted list, the selection is emptied and the status records the count. When either query fails, both `empties` and the selection are emptied and the status is the scan error |
| Selection.ToggleEffect | src/App.tsx:445-447 | toggling flips the toggled key's flag (a missing key becomes true), leaves every other flag alone, adds the key, and keeps keys distinct |
| Selection.ToggleTwice | src/App.tsx:445-447 | toggling a key twice restores every flag |
| Engine.RentClaimer.ToggleOne | src/App.tsx:445-447 | `selected` becomes the toggled record, with the same flag effect; nothing else in the state changes |
| Selection.AllSelected | src/App.tsx:449-453 | the loop builds `SelectAllOf(empties)`: distinct keys, exactly the candidates' keys, each flagged true and nothing else true |
| Selection.SelectAllOfKeys | src/App.tsx:449-453 | the record selectAll builds holds exactly the candidates' keys |
| Selection.SelectAllOfFlags | src/App.tsx:449-453 | a key's flag is true in that record exactly when the key is a candidate's |
| Selection.SelectAllSelectsEverything | src/App.tsx:246-252 | after selectAll, with distinct candidate keys, `selectedAccounts` is the whole candidate list in its order |
| Engine.RentClaimer.SelectAll | src/App.tsx:449-453 | `selected` becomes the selectAll record and flags exactly the candidates' keys; nothing else changes |
| Engine.RentClaimer.ClearSelection | src/App.tsx:455-457 | `selected` becomes empty, so no key is flagged; nothing else changes |
| Selection.Lookup | src/App.tsx:250-251 | the map lookup finds an account exactly when some candidate has that key, and what it finds is a candidate with that key |
| Selection.SelectedAccountsExactly | src/App.tsx:246-252 | a key is in `selectedAccounts` if and only if its flag is true and a candidate has it; no key appears twice |
| Selection.LookupIsLast | src/App.tsx:250-251 | the account the map returns is the last candidate holding the key |
| Selection.SelectedAccountsAppend | src/App.tsx:246-252 | `selectedAccounts` follows the record's entry order: for a concatenated record it is the concatenation of the parts' results |
| Selection.SelectedAccountsFromEmpties | src/App.tsx:246-252 | every selected account is a candidate, its key is in the record, and it is what the map lookup returns for its key |
| Fees.BatchFeeBounds | src/App.tsx:559-563 | for any gross >= 0 and any rate, the batch fee is 0 without a recipient or at a rate of 0 or less; otherwise it is floor(gross * bps / 10000), never negative; for a rate up to 10000 it is at most the gross and the net `max(0, gross - fee)` equals gross - fee |
| Fees.PreviewMatchesBatchFee | src/App.tsx:259-262 | for gross >= 0 the preview fee, which only tests for a recipient, equals the batch-fee formula, which also demands FEE_BPS > 0 |
| Fees.BatchFeeSplit | src/App.tsx:559-563 | charging two parts separately never costs more than charging them together |
| Fees.BatchedTotalsAddUp | src/App.tsx:557-603 | for any rate up to 10000, including rates of 0 or less, over any run of confirmed batches, the total net plus the total fees equals the gross of all their accounts |
| Fees.BatchedFeesWithinPreview | src/App.tsx:259-262 | the batch fees together lie between 0 and the fee the preview showed for the same accounts |
| Engine.RentClaimer.Preview | src/App.tsx:254-267 | for the class state: the gross is what the selected candidates hold and is not negative; the fee is 0 without a recipient and max(0, floor(gross * bps / 10000)) with one; the net is max(0, gross - fee); for 0 <= bps <= 10000 the fee lies in 0..gross, net = gross - fee, and a claim confirming every batch charges at most that fee and pays at least that net |
| Engine.PreviewBounds | src/App.tsx:254-267 | for non-negative candidates and 0 <= bps <= 10000, the preview fee lies in 0..gross and net = gross - fee; a claim that confirms every batch charges at most the previewed fee and pays out at least the previewed net |
| Transactions.BuildTransaction | src/App.tsx:565-587 | the transaction is a fee transfer from the wallet to the recipient first, exactly when there is a recipient and a positive fee, followed by one close per batch account in batch order, each closing to the wallet with the wallet as authority under the account's own program |
| Transactions.BatchTransactionUnique | src/App.tsx:565-587 | that description fixes the transaction completely |
| Transactions.BatchTransactionTransfers | src/App.tsx:567-587 | a transfer appears only in the first slot, and only when a recipient exists and the fee is positive; every close pays the wallet and is signed by it |
| Accounts.RemoveAccountsMembers | src/App.tsx:610-613 | after a batch's removal, an account remains exactly when it was a candidate and its key is not in the batch |
| Accounts.RemoveAccountsUntouched | src/App.tsx:610-613 | removing keys that no candidate has leaves the list, and its order, unchanged |
| Accounts.RemoveAccountsTwice | src/App.tsx:610-613 | two removals in a row equal one removal of both key sets |
| Accounts.RemoveAccountsAppend | src/App.tsx:612 | the removal filter keeps order: filtering a concatenation concatenates the filtered parts |
| Selection.DeleteKeysEffect | src/App.tsx:605-609 | deleting a batch's keys clears exactly their flags, removes exactly those keys, and keeps every other entry |
| Selection.DeleteKeysUntouched | src/App.tsx:605-609 | deleting keys the record does not hold leaves it, and its order, unchanged |
| Selection.DeleteKeysKeepsDistinct | src/App.tsx:605-609 | deleting keys keeps the record's keys distinct |
| Selection.DeleteKeysTwice | src/App.tsx:605-609 | two deletions in a row equal one deletion of both key sets |
| Selection.DeleteKeysAppend | src/App.tsx:605-609 | deleting keys keeps the surviving entries in order: deleting from a concatenation concatenates the deletions from its parts |
| Engine.FirstUnconfirmed | src/App.tsx:557-600 | the stopping batch: every batch before it confirmed, and it is either the end or a batch that did not confirm |
| Engine.FailedBatchStays | src/App.tsx:594-613 | when batch `k` does not confirm, each of its accounts is still a candidate and still selected after the removals of batches 0..k-1 |
| Engine.RentClaimer.ClaimSelected | src/App.tsx:538-635 | with no wallet or an empty selection, only the status is set and nothing is sent. Otherwise the transactions sent are the batch transactions of the batches up to and including the stopping batch. The candidates and the selection lose exactly the keys of the confirmed batches. `lastSig` is the last signature returned. When all batches confirm, the status is Done and the claimed amount is the sum of the batch nets; otherwise the status is the claim error and the claimed amount is unchanged |
| Engine.NoneClaimed | src/App.tsx:551-557 | before the first batch, the loop state holds nothing sent, nothing removed and a zero total |
| Engine.ConfirmedStep | src/App.tsx:557-613 | a confirmed batch `i` moves the loop state to `i + 1`: its transaction recorded, its net added, its accounts and keys dropped, its signature kept |
| Engine.UnconfirmedStop | src/App.tsx:588-599 | a batch that does not confirm stops the loop there: its transaction is recorded, nothing is removed, the status names that batch, and its signature is kept when a signature exists |
| Engine.AllConfirmed | src/App.tsx:557-614 | when every batch has confirmed the loop stops at the end, with every batch's accounts removed and the total the sum of all nets |
| Engine.RentClaimer.RunBatches | src/App.tsx:552-614 | the loop, strictly in order, stops at the first batch that does not confirm and reports its index; it leaves the state `Stopped` describes: the batch transactions sent, the removals of the earlier batches, the last signature, the sum of the nets when all confirm, and the status naming the last batch sent (batch k+1 of n when it stopped at batch k, batch n of n when all confirmed) |
| Engine.RentClaimer.ClaimBatch | src/App.tsx:558-613 | one pass computes the batch's gross and fee, sends its batch transaction, and sets the status to batch i+1 of n whatever the outcome; on confirmation the loop state advances to i+1, otherwise the loop has stopped at i |
| Engine.RentClaimer.constructor | src/App.tsx:203-211 | the initial state: no candidates, an empty selection, an idle status, no signature, nothing claimed |

## Left out

- RPC and wallet I/O are inputs rather than calls: `getParsedTokenAccountsByOwner`, `sendTransaction` and `confirmTransaction`. So are the two scan queries that run concurrently under `Promise.all`.
- The `Promise.all` concurrency is not modelled, and neither is React's batching of state updates. A key toggled while a claim is in flight is not modelled either: the claim runs with no other handler in between.
- `new PublicKey(...)` parsing is not modelled:
  - The fee recipient is an `Option` of an address, with `None` when it is unset or unparsable.
  - The mint is kept as the string the query returned. An invalid mint string would make `new PublicKey(mintStr)` throw and fail the whole scan; the model does not capture that.
- Classifier.Classify: `Number(tokenAmount.uiAmount ?? 0)` is kept only as zero or nonzero, so non-numeric amounts, NaN and floating point are not modelled.
- Floating point is not modelled; lamports and FEE_BPS are unbounded integers. JavaScript numbers are doubles, and FEE_BPS may be NaN or fractional when the environment sets it so. Under NaN the batch fee would be 0 while the preview fee would be NaN.
- Display code is not modelled: `lamportsToSol`, `fmtSol`, `pctFromBps`, `rentPerAccSol` and the count-up animations are floating point. The model keeps the claimed amount in lamports, where the app stores it as SOL in `claimedSol`.
- The localStorage all-time counter is not modelled, because it is browser storage holding float SOL.
- The status line is a datatype, without its wording. The i18n texts, the facts rotator, the view transitions, share links and the JSX are left out.
- The `scanning`, `claiming` and `successOpen` flags are not modelled. They only drive the view.
- `src/main.tsx` is not modelled. It is provider wiring with no logic.
- `Object.entries` lists integer-like keys before the others. A base58 account key is never a canonical array index, so the model uses plain insertion order.
