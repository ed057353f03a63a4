/**
 * Concrete behaviour of `FunWithBits::Bitset` as written, on the inputs its
 * test suite uses, including the places where the tests ask for more than
 * the class does.
 */
module BitsetScenarios {
  import opened Wrappers
  import opened IntegerBits
  import opened FunWithBits

  /** `Bitset.new` defaults to size 8 holding 0, so every position reads false. */
  lemma DefaultsAreEightZeroBits()
    ensures New().size == 8 && New().bits == 0
    ensures forall i :: 0 <= i < 8 ==> New().Get(i) == Some(false)
    ensures New().Get(8) == None
  {
    forall i | 0 <= i < 8 ensures New().Get(i) == Some(false) {
      BitsAboveWidthClear(0, 0, i);
    }
  }

  /** The size reader gives back the size passed in, e.g. 18. */
  lemma SizeIsConstructionSize()
    ensures New(size := 18).size == 18
    ensures New(size := 18).Get(17) == Some(false) && New(size := 18).Get(18) == None
  {
    BitsAboveWidthClear(0, 0, 17);
  }

  /** Bitsets built from the same value are equal; 0b1111 and 0b1010 are not. */
  lemma EqualityOnInitialValues()
    ensures New(initialValue := 15).Eq(New(initialValue := 15))
    ensures !New(initialValue := 15).Eq(New(initialValue := 10))
  {
  }

  /** A single set bit reads true at its own position. */
  lemma SetBitReadsTrue()
    ensures New(initialValue := 8).Get(3) == Some(true)
    ensures New(initialValue := 4).Get(2) == Some(true)
    ensures New(initialValue := 2).Get(1) == Some(true)
    ensures New(initialValue := 1).Get(0) == Some(true)
  {
  }

  /** A single clear bit reads false at its own position. */
  lemma ClearBitReadsFalse()
    ensures New(initialValue := 7).Get(3) == Some(false)
    ensures New(initialValue := 11).Get(2) == Some(false)
    ensures New(initialValue := 13).Get(1) == Some(false)
    ensures New(initialValue := 14).Get(0) == Some(false)
  {
  }

  /** Reading at the size, or anywhere above it, gives no value even when bits are set there. */
  lemma ReadAtOrAboveSizeIsNil(i: int)
    requires i >= 4
    ensures New(size := 4, initialValue := 15).Get(i) == None
    ensures New(size := 4, initialValue := 16).Get(i) == None
    ensures TestBit(16, 4)
  {
    assert Pow2(4) == 16;
  }

  /**
   * The constructor does not truncate: size 3 with 0b1111 keeps 15, not 7.
   * Every position reads as it would for 0b111, yet `==` tells the two apart.
   */
  lemma InitialValueNotTruncated()
    ensures New(size := 3, initialValue := 15).bits == 15
    ensures forall i :: New(size := 3, initialValue := 15).Get(i) == New(size := 3, initialValue := 7).Get(i)
    ensures !New(size := 3, initialValue := 15).Eq(New(size := 3, initialValue := 7))
  {
    var a, b := New(size := 3, initialValue := 15), New(size := 3, initialValue := 7);
    forall i ensures a.Get(i) == b.Get(i) {
      if 0 <= i < 3 {
        assert Pow2(i) == if i == 0 then 1 else if i == 1 then 2 else 4;
      }
    }
  }

  /** The constructor accepts a size of 0 or below; nothing can then be read. */
  lemma NonPositiveSizeAccepted(i: int)
    requires i >= 0
    ensures New(size := 0).size == 0 && New(size := -1).size == -1
    ensures New(size := 0).Get(i) == None && New(size := -1).Get(i) == None
  {
  }

  /** A negative index below the size reads false rather than failing. */
  lemma NegativeIndexReadsFalse(b: Bitset, i: int)
    requires i < 0 && i < b.size
    ensures b.Get(i) == Some(false)
  {
  }

  /** Equal stored integers compare equal across sizes though `[]` tells them apart. */
  lemma SizesNotCompared()
    ensures New(size := 4, initialValue := 3).Eq(New(size := 8, initialValue := 3))
    ensures New(size := 4, initialValue := 3).Get(5) == None
    ensures New(size := 8, initialValue := 3).Get(5) == Some(false)
  {
    BitsAboveWidthClear(3, 2, 5);
  }
}
