/**
 * Fee arithmetic. Lamport amounts are JavaScript numbers holding integers;
 * `Math.floor(x / 10_000)` is Dafny's `x / 10000`, which also rounds toward
 * negative infinity.
 */
module Fees {
  import opened Wrappers
  import opened Accounts
  import opened Chunking

  /** The configured fee rate and the parsed fee recipient (null when unset or unparsable). */
  datatype FeeConfig = FeeConfig(feeBps: int, feeRecipient: Option<Address>)

  /** The feeLamports memo shown before claiming: it tests only for a recipient. */
  function PreviewFee(gross: int, cfg: FeeConfig): int
  {
    if cfg.feeRecipient.None? then 0 else Max(0, (gross * cfg.feeBps) / 10000)
  }

  /** batchFee inside the claim loop: it also demands FEE_BPS > 0. */
  function BatchFee(gross: int, cfg: FeeConfig): int
  {
    if cfg.feeRecipient.Some? && cfg.feeBps > 0 then Max(0, (gross * cfg.feeBps) / 10000) else 0
  }

  /** netLamports and the per-batch amount added to the running total. */
  function Net(gross: int, fee: int): int
  {
    Max(0, gross - fee)
  }

  lemma ProportionalFeeBounded(gross: int, bps: int)
    requires gross >= 0 && 0 <= bps <= 10000
    ensures 0 <= (gross * bps) / 10000 <= gross
  {
    assert 0 <= gross * bps <= gross * 10000 by {
      assert gross * bps <= gross * 10000 by {
        assert gross * (10000 - bps) >= 0;
      }
    }
  }

  /**
   * With no recipient, or a rate of 0 or less, nothing is charged; otherwise the
   * charge is the floored proportional fee, which is never negative. For a rate
   * up to 10000 the fee never exceeds the gross amount either, so the net is the
   * gross minus the fee.
   */
  lemma BatchFeeBounds(gross: int, cfg: FeeConfig)
    requires gross >= 0
    ensures cfg.feeRecipient.None? || cfg.feeBps <= 0 ==> BatchFee(gross, cfg) == 0
    ensures cfg.feeRecipient.Some? && cfg.feeBps > 0 ==> BatchFee(gross, cfg) == (gross * cfg.feeBps) / 10000
    ensures 0 <= BatchFee(gross, cfg)
    ensures cfg.feeBps <= 10000 ==> BatchFee(gross, cfg) <= gross
    ensures cfg.feeBps <= 10000 ==> Net(gross, BatchFee(gross, cfg)) == gross - BatchFee(gross, cfg)
  {
    if 0 <= cfg.feeBps <= 10000 {
      ProportionalFeeBounded(gross, cfg.feeBps);
    } else if cfg.feeBps > 10000 {
      assert gross * cfg.feeBps >= 0 by {
        assert gross * (cfg.feeBps - 10000) >= 0;
      }
    }
  }

  /** For a non-negative gross the preview charges what the claim loop charges, whatever the rate. */
  lemma PreviewMatchesBatchFee(gross: int, cfg: FeeConfig)
    requires gross >= 0
    ensures PreviewFee(gross, cfg) == BatchFee(gross, cfg)
  {
    if cfg.feeBps <= 0 {
      assert gross * cfg.feeBps <= 0 by {
        assert gross * (-cfg.feeBps) >= 0;
      }
    }
  }

  /** Floor division never gains by splitting a sum. */
  lemma FloorDivSuperadditive(x: int, y: int, d: int)
    requires d > 0
    ensures x / d + y / d <= (x + y) / d
  {
    var qx, qy := x / d, y / d;
    assert x == d * qx + x % d && y == d * qy + y % d;
    assert x + y >= d * (qx + qy);
    DivLowerBound(x + y, d, qx + qy);
  }

  lemma DivLowerBound(z: int, d: int, k: int)
    requires d > 0 && z >= d * k
    ensures z / d >= k
  {
    var m := z / d;
    assert z == d * m + z % d;
    assert d * (m + 1 - k) == d * m + d - d * k;
    FactorPositive(d, m + 1 - k);
  }

  /** Charging two parts separately never costs more than charging them together. */
  lemma BatchFeeSplit(a: int, b: int, cfg: FeeConfig)
    requires a >= 0 && b >= 0
    ensures BatchFee(a, cfg) + BatchFee(b, cfg) <= BatchFee(a + b, cfg)
  {
    if cfg.feeRecipient.Some? && cfg.feeBps > 0 {
      assert a * cfg.feeBps >= 0 && b * cfg.feeBps >= 0;
      assert (a + b) * cfg.feeBps == a * cfg.feeBps + b * cfg.feeBps;
      FloorDivSuperadditive(a * cfg.feeBps, b * cfg.feeBps, 10000);
    }
  }

  /** The fee charged to one batch of accounts. */
  function BatchFeeOf(batch: seq<Account>, cfg: FeeConfig): int
  {
    BatchFee(Gross(batch), cfg)
  }

  /** What one confirmed batch adds to the running total. */
  function BatchNetOf(batch: seq<Account>, cfg: FeeConfig): int
  {
    Net(Gross(batch), BatchFeeOf(batch, cfg))
  }

  /** The running total after the given batches are all confirmed. */
  function TotalNet(batches: seq<seq<Account>>, cfg: FeeConfig): int
  {
    if batches == [] then 0
    else TotalNet(batches[..|batches| - 1], cfg) + BatchNetOf(batches[|batches| - 1], cfg)
  }

  /** The fees the given batches are charged altogether. */
  function TotalFees(batches: seq<seq<Account>>, cfg: FeeConfig): int
  {
    if batches == [] then 0
    else TotalFees(batches[..|batches| - 1], cfg) + BatchFeeOf(batches[|batches| - 1], cfg)
  }

  /** Across any run of confirmed batches, fee plus net is exactly the gross of the accounts closed. */
  lemma {:induction false} BatchedTotalsAddUp(batches: seq<seq<Account>>, cfg: FeeConfig)
    requires cfg.feeBps <= 10000
    requires forall a :: a in Concat(batches) ==> a.lamports >= 0
    ensures TotalNet(batches, cfg) + TotalFees(batches, cfg) == Gross(Concat(batches))
  {
    if batches != [] {
      var init, last := batches[..|batches| - 1], batches[|batches| - 1];
      ConcatLast(batches);
      BatchedTotalsAddUp(init, cfg);
      GrossAppend(Concat(init), last);
      GrossNonNegative(last);
      BatchFeeBounds(Gross(last), cfg);
    }
  }

  /** The fees charged batch by batch never exceed the fee the preview showed for all those accounts together. */
  lemma {:induction false} BatchedFeesWithinPreview(batches: seq<seq<Account>>, cfg: FeeConfig)
    requires forall a :: a in Concat(batches) ==> a.lamports >= 0
    ensures 0 <= TotalFees(batches, cfg) <= PreviewFee(Gross(Concat(batches)), cfg)
  {
    if batches != [] {
      var init, last := batches[..|batches| - 1], batches[|batches| - 1];
      ConcatLast(batches);
      BatchedFeesWithinPreview(init, cfg);
      GrossAppend(Concat(init), last);
      GrossNonNegative(Concat(init));
      GrossNonNegative(last);
      BatchFeeSplit(Gross(Concat(init)), Gross(last), cfg);
      PreviewMatchesBatchFee(Gross(Concat(init)), cfg);
      PreviewMatchesBatchFee(Gross(Concat(batches)), cfg);
    }
  }
}
