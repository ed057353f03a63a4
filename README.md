# FunWithBits::Bitset in Dafny

A model of `FunWithBits::Bitset`, a small value type that the library describes
as roughly equivalent to C++20 `std::bitset`. As implemented, a bitset keeps a
declared `size` and a packed integer `bits`, where bit `i` (value `2^i`) stands
for position `i`. It offers three things:

- construction with keyword defaults `size: 8` and `initial_value: 0`, storing both as given;
- `==`, which compares the stored integers only;
- `[]`, which gives `nil` at or above `size` and otherwise tests `bits & (1 << index)`.

Files:

- `wrappers.dfy`: `Option`, standing for "a value or Ruby's `nil`".
- `integer_bits.dfy`: Ruby's unbounded Integer, restricted to non-negative values.
  It models `<<` (`ShiftLeft`, with `ShiftRight` for a negative amount) and `&`
  (`And`) operationally. It gives the
  arithmetic meaning of a bit, `TestBit(n, i)`, which is `(n / 2^i) % 2 == 1`.
  Lemmas tie the operators to that meaning.
- `bitset.dfy`: the `Bitset` datatype with `Eq` (Ruby's `==`) and `Get` (Ruby's
  `[]`), the constructor `New` with its default arguments, and the laws of `==`.
- `bitset_scenarios.dfy`: what the class does on the inputs its test suite uses.
  This includes the inputs where the tests expect behaviour the class does not implement.

A Ruby bitset is never mutated after `initialize`, so it is modelled as an
immutable datatype. Its `size` and `bits` readers are the datatype's fields.
`Get` is a function on that value, so reading a bit cannot change `size` or `bits`.
Ruby Integers have no fixed width, and neither do Dafny's `int` and `nat`.

### Where the code and its tests disagree

The model follows the code in `lib/fun_with_bits/bitset.rb`. The test suite asks
for more than the code does. Those expectations are not postconditions here; the
scenario lemmas state what the code does instead:

- The tests expect `initial_value` to be truncated to `size` bits. The code keeps
  it whole (`InitialValueNotTruncated`).
- The tests expect `size <= 0` to raise. The code accepts it (`NonPositiveSizeAccepted`).
- The tests expect a negative index to raise. In the code, `1 << -k` is 0, so such
  an index reads `false` whenever it is below `size` (`NegativeIndexReadsFalse`).

No test compares bitsets of different sizes; the equality tests use the default
size only. In the code, `==` ignores `size`, so bitsets of different sizes
holding the same integer compare equal, even though `[]` can tell them apart
(`SizesNotCompared`).

## Model

| member | source | states |
|---|---|---|
| `FunWithBits.New` | lib/fun_with_bits/bitset.rb:9-12 | size and initial value are stored exactly as given, with no truncation or validation; defaults are 8 and 0; every position below the size reads back the initial value's bit |
| `FunWithBits.Bitset.Eq` | lib/fun_with_bits/bitset.rb:14-16 | two bitsets are equal exactly when their stored integers agree at every bit position, whatever their sizes |
| `FunWithBits.Bitset.Get` | lib/fun_with_bits/bitset.rb:18-24 | no value exactly when index >= size; otherwise true iff index >= 0 and bit `index` of `bits` is 1, i.e. `(bits / 2^index) % 2 == 1` |
| `FunWithBits.EqIsEquivalence` | lib/fun_with_bits/bitset.rb:15 | `==` is reflexive, symmetric and transitive |
| `FunWithBits.EqIgnoresSize` | lib/fun_with_bits/bitset.rb:14-16 | `==` holds iff the stored integers are equal, and changing either size never changes the verdict |
| `FunWithBits.WindowReadsDecideEq` | lib/fun_with_bits/bitset.rb:14-24 | for equal sizes and stored integers below `2^size`, `==` holds iff `[]` agrees at every position `0..size-1` |
| `IntegerBits.ShiftLeft` | lib/fun_with_bits/bitset.rb:21 | Ruby's `x << k` on a non-negative x: bit i of the result is bit i - k of x when i >= k and clear otherwise, so a negative k shifts right, flooring (`1 << -k` is 0) |
| `IntegerBits.And` | lib/fun_with_bits/bitset.rb:23 | Ruby's `a & b` on non-negative integers: the result is at most either operand; its bit-level meaning is `AndBit` |
| `IntegerBits.MaskIsolatesBit` | lib/fun_with_bits/bitset.rb:21-23 | `(n & (1 << k)).positive?` holds iff k >= 0 and bit k of n is 1 |
| `IntegerBits.AndPow2` | lib/fun_with_bits/bitset.rb:21-23 | `n & 2^i` is `2^i` when bit i of n is set and 0 otherwise |
| `IntegerBits.AndBit` | lib/fun_with_bits/bitset.rb:23 | bit i of `a & b` is set iff bit i is set in both a and b |
| `IntegerBits.ShiftOne` | lib/fun_with_bits/bitset.rb:21 | `1 << k` is `2^k` for k >= 0 and 0 for negative k |
| `IntegerBits.Extensional` | lib/fun_with_bits/bitset.rb:15 | two non-negative integers are equal iff they agree at every bit position |
| `IntegerBits.BitsAboveWidthClear` | lib/fun_with_bits/bitset.rb:18-24 | a number below `2^k` has no bit set at position k or above |
| `BitsetScenarios.DefaultsAreEightZeroBits` | lib/fun_with_bits/bitset.rb:9 | the default bitset has size 8 and bits 0, reads false at 0..7 and nil at 8 |
| `BitsetScenarios.SizeIsConstructionSize` | test/fun_with_bits/test_bitset.rb:198-202 | a bitset built with size 18 reports size 18 and reads nil from position 18 |
| `BitsetScenarios.EqualityOnInitialValues` | test/fun_with_bits/test_bitset.rb:45-57 | bitsets built from 0b1111 are equal; 0b1111 and 0b1010 are not |
| `BitsetScenarios.SetBitReadsTrue` | test/fun_with_bits/test_bitset.rb:63-73 | 0b1000, 0b0100, 0b0010, 0b0001 read true at 3, 2, 1, 0 |
| `BitsetScenarios.ClearBitReadsFalse` | test/fun_with_bits/test_bitset.rb:75-85 | 0b0111, 0b1011, 0b1101, 0b1110 read false at 3, 2, 1, 0 |
| `BitsetScenarios.ReadAtOrAboveSizeIsNil` | test/fun_with_bits/test_bitset.rb:87-91 | a size-4 bitset reads nil at every index >= 4, even with bit 4 set in its integer |
| `BitsetScenarios.InitialValueNotTruncated` | test/fun_with_bits/test_bitset.rb:26-33 | size 3 with 0b1111 keeps 15; it reads like 0b111 at every index yet compares unequal to it |
| `BitsetScenarios.NonPositiveSizeAccepted` | test/fun_with_bits/test_bitset.rb:35-43 | sizes 0 and -1 are accepted, and such a bitset reads nil at every non-negative index |
| `BitsetScenarios.NegativeIndexReadsFalse` | test/fun_with_bits/test_bitset.rb:93-97 | a negative index below the size reads false instead of raising |
| `BitsetScenarios.SizesNotCompared` | lib/fun_with_bits/bitset.rb:14-16 | size 4 and size 8 bitsets holding 0b0011 compare equal, though position 5 reads nil in one and false in the other |

## Left out

- Negative stored integers: Ruby's `&` on negative Integers uses infinite two's complement. `bits` is a `nat` here, as every input in the test suite is non-negative.
- Comparing with a non-`Bitset` (the test at test/fun_with_bits/test_bitset.rb:59-61): in Ruby this calls `other.bits` on an arbitrary object. A typed model has no such argument.
- Non-integer `size` or `index` arguments: dynamic typing has no counterpart here, so both are `int`.
- Non-integer `initial_value`: Ruby stores any object as given, and `[]` then raises NoMethodError at lib/fun_with_bits/bitset.rb:23; here the value is a `nat`, so that failure cannot arise.
- Huge shift amounts: Ruby's `1 << index` raises RangeError when `index` is too large for its shift width; `Pow2` is unbounded, so the model reads such a bit as usual.
- `test`, `set`, `reset`, `flip`, `count`, `all?`, `any?`, `none?`, `and!`, `or!`, `xor!`, `~`, `shift_left(!)`, `shift_right(!)`, `to_s`, `to_i` and the error classes: the test suite exercises them, but lib/fun_with_bits/bitset.rb has no implementation of them, so they are not part of this model.
- The `protected` visibility of the `bits` reader: Dafny datatype fields are public.
