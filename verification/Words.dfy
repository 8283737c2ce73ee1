/** Machine words as integers with explicit widths. */
module Words {
  const TWO_15: int := 0x8000
  const TWO_48: int := 0x1_0000_0000_0000
  const TWO_63: int := 0x8000_0000_0000_0000
  const TWO_64: int := 0x1_0000_0000_0000_0000
  const TWO_112: int := 0x1_0000_0000_0000_0000_0000_0000_0000
  const TWO_113: int := 0x2_0000_0000_0000_0000_0000_0000_0000
  const TWO_127: int := 0x8000_0000_0000_0000_0000_0000_0000_0000
  const TWO_128: int := 0x1_0000_0000_0000_0000_0000_0000_0000_0000

  type U64 = x: int | 0 <= x < TWO_64
  type I64 = x: int | -TWO_63 <= x < TWO_63
  type U128 = x: int | 0 <= x < TWO_128
  type I128 = x: int | -TWO_127 <= x < TWO_127

  function Abs(x: int): nat { if x < 0 then -x else x }

  function Negated(neg: bool, x: int): int { if neg then -x else x }
}
