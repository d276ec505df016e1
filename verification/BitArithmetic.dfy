/** Why the models of the id generators and of the record header may use arithmetic: on 64-bit words
    the program's shifts and masks are multiplications, divisions and remainders by powers of two,
    and the parts it puts together with `|` never share a bit. */
module BitArithmetic {
  lemma ShiftsAreProducts(x: bv64)
    ensures x << 20 == x * 0x10_0000 && x >> 20 == x / 0x10_0000
    ensures x << 13 == x * 0x2000 && x >> 13 == x / 0x2000
    ensures x << 5 == x * 32
    ensures x << 24 == x * 0x100_0000 && x >> 24 == x / 0x100_0000
  {
  }

  lemma MasksAreRemainders(x: bv64)
    ensures x & 0x1FFF == x % 0x2000
    ensures x & 0xF_FFFF == x % 0x10_0000
    ensures x & 0x7F == x % 0x80
    ensures x & 0xFF_FFFF == x % 0x100_0000
  {
  }

  /** TS (44) | Machine (7) | Seq (13). */
  lemma FieldsAddUp(now: bv64, machine: bv64, sequence: bv64)
    requires machine < 0x80 && sequence < 0x2000
    ensures (now << 20) | (machine << 13) | sequence == (now << 20) + (machine << 13) + sequence
  {
  }

  lemma DigitsAddUp(x: bv64, digit: bv64, low: bv64)
    requires digit < 32 && low < 0x10_0000
    ensures (x << 5) | digit == (x << 5) + digit
    ensures (x << 20) | low == (x << 20) + low
  {
  }

  /** [Version(8-bit)][Length(24-bit)]. */
  lemma HeaderAddsUp(version: bv32, length: bv32)
    requires length <= 0xFF_FFFF
    ensures (version << 24) | (length & 0xFF_FFFF) == (version << 24) + length
  {
  }
}
