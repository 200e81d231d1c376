/** C++ integer division, which truncates toward zero. */
module Truncation {

  function Quot(a: int, b: int): int
    requires b > 0
  {
    if a >= 0 then a / b else -((-a) / b)
  }

  function Rem(a: int, b: int): int
    requires b > 0
  {
    a - b * Quot(a, b)
  }

  lemma QuotNat(a: nat, b: nat)
    requires b > 0
    ensures Quot(a, b) == a / b
  {
  }
}
