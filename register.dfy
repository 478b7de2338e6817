/**
 * The raw register read of the INA219 debug path: two bytes fetched over
 * I2C and joined big-endian into one 16-bit word.
 */
module Register {
  import opened Optional

  type Byte = bv8

  /** `(raw[0] << 8) | raw[1]`: a big-endian 16-bit word from its high and low byte. */
  function Word(hi: Byte, lo: Byte): (w: int)
    ensures w == hi as int * 256 + lo as int
    ensures 0 <= w <= 65535
  {
    var joined := ((hi as bv16) << 8) | (lo as bv16);
    ShiftOrIsSum(hi, lo);
    joined as int
  }

  /** Shifting the high byte past the low one leaves no overlapping bits, so the `|` is a sum. */
  lemma ShiftOrIsSum(hi: Byte, lo: Byte)
    ensures (((hi as bv16) << 8) | (lo as bv16)) as int == hi as int * 256 + lo as int
  {
    assert ((hi as bv16) << 8) | (lo as bv16) == (hi as bv16) * 256 + (lo as bv16);
    assert (hi as bv16) as int == hi as int;
    assert (lo as bv16) as int == lo as int;
    assert hi as int * 256 + lo as int < 65536;
  }

  /**
   * `read_ina219_register`: `reply` is what the bus returned for the two-byte
   * read, `None` when the transaction raised.  Any exception, including one
   * from indexing a reply shorter than two bytes, yields `None`.
   */
  function ReadRegister(reply: Option<seq<Byte>>): (r: Option<int>)
    ensures r.Some? <==> reply.Some? && |reply.value| >= 2
    ensures r.Some? ==> r.value == reply.value[0] as int * 256 + reply.value[1] as int
    ensures r.Some? ==> 0 <= r.value <= 65535
  {
    if reply.Some? && |reply.value| >= 2 then Some(Word(reply.value[0], reply.value[1])) else None
  }

  /** The word determines its two bytes: the high byte is its quotient by 256, the low byte the remainder. */
  lemma WordSplits(hi: Byte, lo: Byte)
    ensures Word(hi, lo) / 256 == hi as int && Word(hi, lo) % 256 == lo as int
  {
  }
}
