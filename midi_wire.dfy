/** Wire-level vocabulary shared by both scripts: bytes, the message kinds
    carried in the high nibble of a status byte, and the decoding of a
    status byte into message kind and channel. */
module MidiWire {

  /** A byte as delivered by the MIDI drivers. Real MIDI data bytes are
      7-bit, but nothing in the scripts checks that, so the model admits
      the full 0..255 range and states the 7-bit cases in lemmas. */
  type Byte = x: int | 0 <= x < 256

  datatype Option<+T> = None | Some(value: T)

  // Message kinds (high nibble of the status byte).
  const NOTE_OFF := 0x8
  const NOTE_ON := 0x9
  const POLYPHONIC_PRESSURE := 0xA
  const CONTROL_CHANGE := 0xB
  const PROGRAM_CHANGE := 0xC
  const CHANNEL_PRESSURE := 0xD
  const PITCH_BEND := 0xE
  const SYSETM := 0xF  // System messages; the scripts spell it this way

  datatype Decoded = Decoded(message: int, channel: int)

  /** `message = status >> 4` and `channel = status & 0xF`. */
  function Decode(status: Byte): (r: Decoded)
    ensures 0 <= r.message < 16 && 0 <= r.channel < 16
    ensures r.message == status / 16 && r.channel == status % 16
    ensures r.message * 16 + r.channel == status
  {
    var b := status as bv8;
    ByteRoundTrip(status);
    Nibbles(b);
    Decoded((b >> 4) as int, (b & 0xF) as int)
  }

  // Small steps between bytes and bit-vectors, one fact each.

  /** Converting a byte to 8 bits and back loses nothing. The proof
      assembles the bit-vector from the byte's two nibbles. */
  lemma ByteRoundTrip(x: Byte)
    ensures (x as bv8) as int == x
  {
    var b := NibbleBits(x / 16) * 16 + NibbleBits(x % 16);
    assert b as int == x;
    assert b == x as bv8;
  }

  function NibbleBits(n: int): (b: bv8)
    requires 0 <= n < 16
    ensures b as int == n
  {
    (if n / 8 % 2 == 1 then 8 else 0) + (if n / 4 % 2 == 1 then 4 else 0) +
    (if n / 2 % 2 == 1 then 2 else 0) + (if n % 2 == 1 then 1 else 0)
  }

  lemma Nibbles(b: bv8)
    ensures (b >> 4) as int == b as int / 16 && (b & 0xF) as int == b as int % 16
  {}

  /** `(channel & 4) == 4`: bit 2 of the channel nibble, which some
      controllers use for an auxiliary button on System messages. */
  function Bit2(channel: int): (set2: bool)
    requires 0 <= channel < 16
    ensures set2 <==> (channel / 4) % 2 == 1
  {
    (channel as bv8) & 4 == 4
  }
}
