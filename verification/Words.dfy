/**
 * Unsigned 64-bit words, as the kernel counts bytes, calls and packets in them: numbers below two to the power of 64,
 * whose sums wrap around.
 */
module Words {

  const WORD := 0x1_0000_0000_0000_0000

  type Word = x: nat | x < WORD

  /** Addition that wraps around. */
  function Add(a: Word, b: Word): Word
  {
    (a + b) % WORD
  }

  lemma {:induction false} AddMod(a: nat, b: nat)
    ensures (a % WORD + b) % WORD == (a + b) % WORD
  {
    assert a == (a / WORD) * WORD + a % WORD;
  }
}
