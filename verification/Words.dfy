/** Machine words and bytes shared by the model.  The program runs on a 32-bit
    target, so `uint32_t` arithmetic wraps modulo 2^32. */
module Words {

  type byte = x: int | 0 <= x < 256
  type bytes = seq<byte>

  const WORD: int := 0x1_0000_0000

  type u32 = x: int | 0 <= x < 0x1_0000_0000

  /** `a + b` in `uint32_t` arithmetic, which wraps only when the sum is too large. */
  function Plus32(a: u32, b: nat): u32 { if a + b < WORD then a + b else (a + b) % WORD }

  /** `a - b` in `uint32_t` arithmetic, as in `now - _pcb_sent_at`. */
  function Minus32(a: u32, b: u32): u32 { (a - b) % WORD }

  function Min(a: nat, b: nat): nat { if a < b then a else b }

  /** The 32-bit difference of two clock readings is the true elapsed time as
      long as less than one whole turn of the clock has passed. */
  lemma ElapsedSurvivesWrap(start: nat, end: nat)
    requires start <= end < start + WORD
    ensures Minus32(end % WORD, start % WORD) == end - start
  {
    var a, b := start / WORD, end / WORD;
    assert start == a * WORD + start % WORD && end == b * WORD + end % WORD;
    assert end % WORD - start % WORD == (end - start) + (a - b) * WORD;
    ModShift(end - start, a - b);
  }

  lemma ModShift(x: nat, k: int)
    requires x < WORD
    ensures (x + k * WORD) % WORD == x
  {
  }

  /** Adding on either side of the wrap is the same modulo 2^32. */
  lemma Plus32Congruent(a: nat, b: nat)
    ensures Plus32(a % WORD, b) == (a + b) % WORD
  {
    var q := a / WORD;
    assert a == q * WORD + a % WORD;
    ModAdd(a % WORD + b, q);
  }

  lemma ModAdd(x: nat, q: nat)
    ensures (x + q * WORD) % WORD == x % WORD
  {
    var r := x % WORD;
    var p := x / WORD;
    assert x + q * WORD == r + (p + q) * WORD;
    ModShift(r, p + q);
  }
}
