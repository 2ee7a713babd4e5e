/** Machine words of the EVM. */
module Words {

  const TWO_128: nat := 0x1_0000_0000_0000_0000_0000_0000_0000_0000
  const TWO_256: nat := 0x1_0000_0000_0000_0000_0000_0000_0000_0000_0000_0000_0000_0000_0000_0000_0000_0000

  /** A counter kept modulo a word follows the count it stands for. */
  lemma WrapStep(n: nat)
    ensures (n % TWO_256 + 1) % TWO_256 == (n + 1) % TWO_256
  {
  }
}
