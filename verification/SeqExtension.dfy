/** Rebuilding a 64-bit sequence number from the 32 bits that travel in a datagram. */
module SeqExtension {
  import opened Basics

  /** Unsigned 64-bit addition, which wraps. */
  function Add64(a: U64, b: U64): U64 {
    (a + b) % TWO_64
  }

  function Extend32(reference: U64, low: U32): U64 {
    var candidate: U64 := reference - reference % TWO_32 + low;
    if Add64(candidate, TWO_31) < reference then
      Add64(candidate, TWO_32)
    else if candidate >= Add64(reference, TWO_31) && candidate >= TWO_32 then
      candidate - TWO_32
    else
      candidate
  }

  /** `value` lies in the half-open window of 2^32 numbers around `reference`. */
  predicate InWindow(reference: int, value: int) {
    -TWO_31 <= value - reference < TWO_31
  }

  /** A reference from which the additions of Extend32 do not wrap. */
  predicate ClearOfWrap(reference: int) {
    0 <= reference < TWO_64 - TWO_32
  }

  /** The exact set of sequence numbers recovered from their low half: the window
      around the reference, and in epoch 0 (where no downward correction is made)
      also every number of that epoch above the window. */
  predicate Recovers(reference: U64, value: U64) {
    || InWindow(reference, value)
    || (reference < TWO_32 && value < TWO_32 && value - reference >= TWO_31)
  }

  lemma Extend32Exact(reference: U64, value: U64)
    requires ClearOfWrap(reference)
    ensures Extend32(reference, value % TWO_32) == value <==> Recovers(reference, value)
  {
    var epoch := reference / TWO_32;
    var candidate := reference - reference % TWO_32 + value % TWO_32;
    assert candidate == epoch * TWO_32 + value % TWO_32;
    assert value == value / TWO_32 * TWO_32 + value % TWO_32;
    var apart := value / TWO_32 - epoch;
    assert value - candidate == apart * TWO_32;
    assert candidate < TWO_64 - TWO_32;
    if apart <= -2 { assert apart * TWO_32 <= -2 * TWO_32; }
    if apart >= 2 { assert apart * TWO_32 >= 2 * TWO_32; }
  }

  /** The window is half open: its two ends behave differently, and one step past
      either end misreads the number by a whole 2^32. */
  lemma WindowIsTight(reference: U64)
    requires ClearOfWrap(reference) && reference >= TWO_32
    ensures Extend32(reference, (reference - TWO_31) % TWO_32) == reference - TWO_31
    ensures Extend32(reference, (reference - TWO_31 - 1) % TWO_32) == reference + TWO_31 - 1
    ensures Extend32(reference, (reference + TWO_31) % TWO_32) == reference - TWO_31
  {
    Extend32Exact(reference, reference - TWO_31);
    Extend32Exact(reference, reference + TWO_31 - 1);
    assert (reference - TWO_31 - 1) % TWO_32 == (reference + TWO_31 - 1) % TWO_32 by {
      SameLowHalf(reference - TWO_31 - 1);
    }
    assert (reference + TWO_31) % TWO_32 == (reference - TWO_31) % TWO_32 by {
      SameLowHalf(reference - TWO_31);
    }
  }

  lemma SameLowHalf(n: nat)
    ensures (n + TWO_32) % TWO_32 == n % TWO_32
  {
  }

  /** Every number in the window of this reference is recovered from its low half. */
  ghost predicate RecoversWindow(reference: U64) {
    forall value: U64 :: InWindow(reference, value) ==> Extend32(reference, value % TWO_32) == value
  }

  /** Which references recover their whole window: exactly those below the last epoch. */
  lemma ClearOfWrapExactly(reference: U64)
    ensures RecoversWindow(reference) <==> ClearOfWrap(reference)
  {
    if ClearOfWrap(reference) {
      forall value: U64 | InWindow(reference, value) ensures Extend32(reference, value % TWO_32) == value {
        Extend32Exact(reference, value);
      }
    } else {
      LastEpochWitness(reference);
    }
  }

  /** A reference of the last epoch misreads itself, its predecessor, or the first number of
      the epoch's upper half. */
  lemma LastEpochWitness(reference: U64)
    requires !ClearOfWrap(reference)
    ensures exists value: U64 :: InWindow(reference, value) && Extend32(reference, value % TWO_32) != value
  {
    var epoch := TWO_64 - TWO_32;
    var low := reference - epoch;
    assert epoch % TWO_32 == 0 && reference % TWO_32 == low;
    var upper: U64 := epoch + TWO_31;
    assert upper % TWO_32 == TWO_31;
    if low >= TWO_31 {
      assert InWindow(reference, reference) && Extend32(reference, reference % TWO_32) != reference;
    } else if low > 0 {
      assert InWindow(reference, upper) && Extend32(reference, upper % TWO_32) != upper;
    } else {
      var before: U64 := reference - 1;
      assert before % TWO_32 == TWO_32 - 1;
      assert InWindow(reference, before) && Extend32(reference, before % TWO_32) != before;
    }
  }

  /** In the last epoch the first comparison wraps and a plain in-window successor
      is read as a number of epoch 0. */
  lemma LastEpochMisreads()
    ensures InWindow(TWO_64 - TWO_31, TWO_64 - TWO_31 + 1)
    ensures Extend32(TWO_64 - TWO_31, (TWO_64 - TWO_31 + 1) % TWO_32) == TWO_31 + 1
  {
  }
}
