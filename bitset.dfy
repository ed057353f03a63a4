/**
 * `FunWithBits::Bitset`: a declared size and a packed non-negative integer,
 * with Ruby's `==` and `[]` as functions on the value.
 */
module FunWithBits {
  import opened Wrappers
  import opened IntegerBits

  /**
   * `size` is the declared number of positions (never validated, so any
   * integer); `bits` holds bit i as the value 2^i (never truncated to size).
   */
  datatype Bitset = Bitset(size: int, bits: nat) {

    /**
     * Ruby's `==`: compares the stored integers only, so two bitsets are
     * equal exactly when every bit position agrees, whatever their sizes.
     */
    function Eq(other: Bitset): (r: bool)
      ensures r <==> forall i: nat :: TestBit(bits, i) == TestBit(other.bits, i)
    {
      Extensional(bits, other.bits);
      bits == other.bits
    }

    /**
     * Ruby's `[]`: no value at or above `size`; below it, whether the mask
     * `1 << index` meets `bits`. A negative index makes the mask 0, so it
     * reads false.
     */
    function Get(index: int): (r: Option<bool>)
      ensures r.None? <==> index >= size
      ensures index < size ==> r == Some(0 <= index && TestBit(bits, index))
    {
      if index >= size then None
      else
        var mask := ShiftLeft(1, index);
        MaskIsolatesBit(bits, index);
        Some(And(bits, mask) > 0)
    }
  }

  /**
   * `Bitset.new(size: 8, initial_value: 0)`: keeps both arguments as given,
   * so every position below `size` reads back the bit of `initialValue`.
   */
  function New(size: int := 8, initialValue: nat := 0): (b: Bitset)
    ensures b.size == size && b.bits == initialValue
    ensures forall i :: 0 <= i < size ==> b.Get(i) == Some(TestBit(initialValue, i))
  {
    Bitset(size, initialValue)
  }

  /** `==` is an equivalence: reflexive, symmetric and transitive. */
  lemma EqIsEquivalence(a: Bitset, b: Bitset, c: Bitset)
    ensures a.Eq(a)
    ensures a.Eq(b) ==> b.Eq(a)
    ensures a.Eq(b) && b.Eq(c) ==> a.Eq(c)
  {
  }

  /**
   * `==` never looks at `size`: resizing either side leaves the verdict
   * unchanged, and equal stored integers always compare equal.
   */
  lemma EqIgnoresSize(a: Bitset, b: Bitset, s: int, t: int)
    ensures a.Eq(b) <==> a.bits == b.bits
    ensures a.Eq(b) == a.(size := s).Eq(b.(size := t))
  {
  }

  /**
   * For two bitsets of the same size whose stored integers fit the window,
   * `==` holds exactly when `[]` agrees at every position of the window.
   */
  lemma WindowReadsDecideEq(a: Bitset, b: Bitset)
    requires 0 <= a.size == b.size
    requires a.bits < Pow2(a.size) && b.bits < Pow2(b.size)
    ensures a.Eq(b) <==> forall i :: 0 <= i < a.size ==> a.Get(i) == b.Get(i)
  {
    if forall i :: 0 <= i < a.size ==> a.Get(i) == b.Get(i) {
      forall i: nat ensures TestBit(a.bits, i) == TestBit(b.bits, i) {
        if i < a.size {
          assert a.Get(i) == b.Get(i);
        } else {
          BitsAboveWidthClear(a.bits, a.size, i);
          BitsAboveWidthClear(b.bits, b.size, i);
        }
      }
    }
  }
}
