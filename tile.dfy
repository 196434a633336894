/** Tile.java: one cell of the board with its number and its per-move merge flag. */
module Tiles {

  /** The numbers a tile shows in play: 0 for an empty cell, otherwise a power of two from 2 up. */
  predicate IsTileValue(n: int) {
    n == 0 || IsPowerOfTwo(n)
  }

  predicate IsPowerOfTwo(n: int)
    decreases n
  {
    n == 2 || (n > 2 && n % 2 == 0 && IsPowerOfTwo(n / 2))
  }

  lemma DoubleIsPowerOfTwo(n: int)
    requires IsPowerOfTwo(n)
    ensures IsPowerOfTwo(2 * n) && 2 * n > n > 0
  {
    assert (2 * n) / 2 == n;
  }

  /**
   * The merge rule of Tile.canMergeWith on the fields of two tiles: neither has
   * merged during the current move, and the numbers are equal.
   */
  predicate Mergeable(number: int, merged: bool, otherNumber: int, otherMerged: bool) {
    !merged && !otherMerged && number == otherNumber
  }

  function Pow10(n: nat): nat {
    if n == 0 then 1 else 10 * Pow10(n - 1)
  }

  class Tile {
    var number: int
    var alreadyMerged: bool

    /** The presentation parts (label, box, scale) are not modelled. */
    constructor (number: int)
      ensures this.number == number && !alreadyMerged
    {
      this.number := number;
      alreadyMerged := false;
    }

    /** Only the number field; the label text, colours and font size are presentation. */
    method SetNumber(number: int)
      modifies this`number
      ensures this.number == number
      ensures alreadyMerged == old(alreadyMerged)
    {
      this.number := number;
    }

    /** At most one merge per tile and move: neither tile has merged yet, and the numbers are equal. Symmetric. */
    predicate CanMergeWith(other: Tile?)
      reads this, other
      ensures CanMergeWith(other) ==> other != null && !alreadyMerged && !other.alreadyMerged
      ensures CanMergeWith(other) <==> other != null && Mergeable(other.number, other.alreadyMerged, number, alreadyMerged)
    {
      other != null && Mergeable(number, alreadyMerged, other.number, other.alreadyMerged)
    }

    /**
     * Doubles this tile and marks it merged when the two tiles may merge, and
     * returns the new number; otherwise changes nothing and returns -1.
     */
    method MergeWith(other: Tile?) returns (r: int)
      modifies this
      ensures old(CanMergeWith(other)) ==> number == 2 * old(number) && alreadyMerged && r == number
      ensures !old(CanMergeWith(other)) ==> number == old(number) && alreadyMerged == old(alreadyMerged)
      ensures r == -1 <==> !old(CanMergeWith(other))
      ensures old(CanMergeWith(other)) ==> forall t: Tile :: !CanMergeWith(t) && !t.CanMergeWith(this)
      ensures other != null && other != this ==>
        other.number == old(other.number) && other.alreadyMerged == old(other.alreadyMerged)
    {
      if CanMergeWith(other) {
        SetNumber(number * 2);
        alreadyMerged := true;
        return number;
      }
      return -1;
    }

    method SetUnMerged()
      modifies this`alreadyMerged
      ensures !alreadyMerged
      ensures number == old(number)
    {
      alreadyMerged := false;
    }

    /** The count of decimal digits of a positive number, and 0 for a number that is not positive. */
    method NumberOfDigits(number: int) returns (digits: nat)
      ensures number <= 0 ==> digits == 0
      ensures number > 0 ==> digits >= 1 && Pow10(digits - 1) <= number < Pow10(digits)
    {
      digits := 0;
      var n := number;
      while n > 0
        invariant number <= 0 ==> n == number && digits == 0
        invariant number > 0 ==> 0 <= n && Pow10(digits) * n <= number < Pow10(digits) * (n + 1)
        invariant number > 0 && digits > 0 ==> Pow10(digits - 1) <= number
      {
        DigitStep(number, digits, n);
        digits := digits + 1;
        n := n / 10;
      }
    }
  }

  /** One pass of the digit loop: dropping the last digit of n keeps n between the bounds. */
  lemma DigitStep(number: int, digits: nat, n: int)
    requires 0 < n && Pow10(digits) * n <= number < Pow10(digits) * (n + 1)
    ensures Pow10(digits + 1) * (n / 10) <= number < Pow10(digits + 1) * (n / 10 + 1)
    ensures Pow10(digits) <= number
  {
    var p := Pow10(digits);
    var q, r := n / 10, n % 10;
    assert n == 10 * q + r && 0 <= r < 10;
    assert Pow10(digits + 1) == 10 * p;
    calc {
      Pow10(digits + 1) * q;
      == 10 * p * q;
      == p * (10 * q);
      <= { assert 10 * q <= n; MulMonotone(p, 10 * q, n); }
      p * n;
    }
    calc {
      p * (n + 1);
      == p * (10 * q + r + 1);
      <= { MulMonotone(p, 10 * q + r + 1, 10 * q + 10); }
      p * (10 * q + 10);
      == 10 * p * (q + 1);
      == Pow10(digits + 1) * (q + 1);
    }
    MulMonotone(p, 1, n);
  }

  lemma MulMonotone(p: nat, a: int, b: int)
    requires a <= b
    ensures p * a <= p * b
  {
    assert p * b - p * a == p * (b - a);
  }
}
