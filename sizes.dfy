/**
 * The unit selection of `_format_size`: divide by 1024 until the amount is
 * below 1024, stepping through B, KB, MB, GB and TB, and fall back to PB.
 * The `%.1f` rendering of the amount is not modelled; a size label keeps the
 * exact amount and its unit.
 */
module Sizes {

  datatype SizeLabel = SizeLabel(amount: real, unit: string)

  /** The units the loop steps through, followed by the fallback unit. */
  const Units: seq<string> := ["B", "KB", "MB", "GB", "TB", "PB"]

  /** Number of units the loop tries before falling back to PB. */
  const Tried: nat := 5

  function Pow1024(k: nat): (r: real)
    ensures r >= 1.0
  {
    if k == 0 then 1.0 else 1024.0 * Pow1024(k - 1)
  }

  /** The amount of `bytes` expressed in unit `k`. */
  function Scaled(bytes: nat, k: nat): real {
    bytes as real / Pow1024(k)
  }

  /** The index of the unit `_format_size` picks: the first of the tried units whose amount is below 1024. */
  function UnitIndexFrom(bytes: nat, k: nat): (r: nat)
    requires k <= Tried
    ensures k <= r <= Tried
    ensures r == Tried || Scaled(bytes, r) < 1024.0
    decreases Tried - k
  {
    if k == Tried || Scaled(bytes, k) < 1024.0 then k else UnitIndexFrom(bytes, k + 1)
  }

  function SizeLabelOf(bytes: nat): SizeLabel {
    var k := UnitIndexFrom(bytes, 0);
    SizeLabel(Scaled(bytes, k), Units[k])
  }

  /** Dividing the amount in unit `k` by 1024 gives the amount in unit `k + 1`. */
  lemma ScaledStep(bytes: nat, k: nat)
    ensures Scaled(bytes, k) / 1024.0 == Scaled(bytes, k + 1)
  {
    var p := Pow1024(k);
    assert Pow1024(k + 1) == 1024.0 * p;
    calc {
      Scaled(bytes, k) / 1024.0;
      (bytes as real / p) / 1024.0;
      { assert p > 0.0; }
      bytes as real / (1024.0 * p);
    }
  }

  /**
   * The picked label is exact: its amount times 1024 to the unit's power is
   * the byte count.
   */
  lemma SizeLabelExact(bytes: nat)
    ensures var k := UnitIndexFrom(bytes, 0);
      && SizeLabelOf(bytes).amount * Pow1024(k) == bytes as real
      && SizeLabelOf(bytes).unit == Units[k]
  {
    var k := UnitIndexFrom(bytes, 0);
    assert SizeLabelOf(bytes).amount == Scaled(bytes, k);
    ScaledTimes(bytes, k);
  }

  /**
   * The picked unit is the right one: the amount is below 1024 unless the
   * unit is PB, and at least 1 unless the unit is B.
   */
  lemma SizeLabelInRange(bytes: nat)
    ensures var k := UnitIndexFrom(bytes, 0);
      && (k < Tried ==> SizeLabelOf(bytes).amount < 1024.0)
      && (k > 0 ==> SizeLabelOf(bytes).amount >= 1.0)
  {
    var k := UnitIndexFrom(bytes, 0);
    if k > 0 {
      UnitIndexFromSkips(bytes, 0);
      ScaledAfterSkip(bytes, k - 1);
    }
  }

  /** One unit past an amount of at least 1024, the amount is at least 1. */
  lemma ScaledAfterSkip(bytes: nat, j: nat)
    requires Scaled(bytes, j) >= 1024.0
    ensures Scaled(bytes, j + 1) >= 1.0
  {
    ScaledStep(bytes, j);
  }

  /** The amount in unit `k` times 1024 to the power `k` is the byte count again. */
  lemma ScaledTimes(bytes: nat, k: nat)
    ensures Scaled(bytes, k) * Pow1024(k) == bytes as real
  {
    var p := Pow1024(k);
    assert p > 0.0;
    assert (bytes as real / p) * p == bytes as real;
  }

  /** Every unit before the picked one had an amount of at least 1024. */
  lemma {:induction false} UnitIndexFromSkips(bytes: nat, k: nat)
    requires k <= Tried
    ensures forall j :: k <= j < UnitIndexFrom(bytes, k) ==> Scaled(bytes, j) >= 1024.0
    decreases Tried - k
  {
    if !(k == Tried || Scaled(bytes, k) < 1024.0) {
      UnitIndexFromSkips(bytes, k + 1);
    }
  }

  /** `_format_size` as the source runs it: a loop over the units that divides the amount in place. */
  method FormatSize(bytes: nat) returns (formatted: SizeLabel)
    ensures formatted == SizeLabelOf(bytes)
  {
    var amount := bytes as real;
    var k := 0;
    while k < Tried
      invariant 0 <= k <= Tried
      invariant amount == Scaled(bytes, k)
      invariant UnitIndexFrom(bytes, 0) == UnitIndexFrom(bytes, k)
    {
      if amount < 1024.0 {
        return SizeLabel(amount, Units[k]);
      }
      ScaledStep(bytes, k);
      amount := amount / 1024.0;
      k := k + 1;
    }
    formatted := SizeLabel(amount, Units[Tried]);
  }
}
