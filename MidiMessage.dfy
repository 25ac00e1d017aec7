/** Decoding of the packed MIDI words that the input port delivers to the
    interface: channel in bits 0-3, status nibble in bits 4-7, first data
    byte in bits 8-15 and second data byte in bits 16-23. */
module MidiMessage {

  /** The four fields that the interface extracts from one packed word. */
  datatype Message = Message(channel: int, status: int, data1: int, data2: int)

  /** The only channel the interface listens to. */
  const LISTEN_CHANNEL := 0

  /** Status nibbles of the channel-voice messages the interface reacts to
      (section "Channel Voice Messages" of the MIDI 1.0 Detailed Specification). */
  const NOTE_OFF := 0x8
  const NOTE_ON := 0x9
  const CONTROL_CHANGE := 0xB
  const PITCH_BEND := 0xE

  /** Controller number of the sustain (damper) pedal. */
  const SUSTAIN_PEDAL := 0x40

  /** Each field lies within its mask: two nibbles and two bytes. */
  predicate WellFormed(m: Message) {
    && 0 <= m.channel < 0x10
    && 0 <= m.status < 0x10
    && 0 <= m.data1 < 0x100
    && 0 <= m.data2 < 0x100
  }

  /** Splits a packed word with shifts and masks. On `int`, `/` by a power
      of two rounds towards minus infinity and `%` is never negative, so
      `(w / 2^k) % 2^n` is exactly `(w >> k) & (2^n - 1)` of the
      two's-complement word, negative words included. */
  function Decode(msg: int): (m: Message)
    ensures WellFormed(m)
  {
    Message(msg % 0x10, (msg / 0x10) % 0x10, (msg / 0x100) % 0x100, (msg / 0x1_0000) % 0x100)
  }

  /** Packs the four fields back into a 24-bit word. */
  function Encode(m: Message): (w: int)
    requires WellFormed(m)
    ensures 0 <= w < 0x100_0000
  {
    m.data2 * 0x1_0000 + m.data1 * 0x100 + m.status * 0x10 + m.channel
  }

  /** Every well-formed message survives packing and unpacking. */
  lemma DecodeEncode(m: Message)
    requires WellFormed(m)
    ensures Decode(Encode(m)) == m
  {
    PackedNibbles(m.channel, m.status, m.data2 * 0x100 + m.data1);
    PackedBytes(m.status * 0x10 + m.channel, m.data1, m.data2);
  }

  /** The two nibbles of `(rest * 16 + status) * 16 + channel`. */
  lemma PackedNibbles(channel: int, status: int, rest: int)
    requires 0 <= channel < 0x10 && 0 <= status < 0x10
    ensures var w := rest * 0x100 + status * 0x10 + channel;
      w % 0x10 == channel && (w / 0x10) % 0x10 == status
  {
    var w := rest * 0x100 + status * 0x10 + channel;
    assert w == (rest * 0x10 + status) * 0x10 + channel;
    ShiftOut(rest * 0x10 + status, channel, 0x10);
    ShiftOut(rest, status, 0x10);
  }

  /** The two data bytes of `(data2 * 256 + data1) * 256 + low`. */
  lemma PackedBytes(low: int, data1: int, data2: int)
    requires 0 <= low < 0x100 && 0 <= data1 < 0x100 && 0 <= data2 < 0x100
    ensures var w := data2 * 0x1_0000 + data1 * 0x100 + low;
      (w / 0x100) % 0x100 == data1 && (w / 0x1_0000) % 0x100 == data2
  {
    var w := data2 * 0x1_0000 + data1 * 0x100 + low;
    assert w == (data2 * 0x100 + data1) * 0x100 + low;
    ShiftOut(data2 * 0x100 + data1, low, 0x100);
    ShiftOut(data2, data1, 0x100);
    ShiftOut(data2, data1 * 0x100 + low, 0x1_0000);
  }

  /** Every 24-bit word is the packing of its own fields. */
  lemma EncodeDecode(msg: int)
    requires 0 <= msg < 0x100_0000
    ensures Encode(Decode(msg)) == msg
  {
    var m := Decode(msg);
    assert msg == (msg / 0x10) * 0x10 + m.channel;
    assert msg / 0x10 == (msg / 0x100) * 0x10 + m.status;
    assert msg / 0x100 == (msg / 0x1_0000) * 0x100 + m.data1;
    assert msg / 0x1_0000 == m.data2;
  }

  /** Decoding reads only the low 24 bits of a word, whatever its sign or
      width; together with EncodeDecode, the fields of any word pack back
      into exactly its low 24 bits. */
  lemma DecodeLow24(msg: int)
    ensures Decode(msg) == Decode(msg % 0x100_0000)
    ensures Encode(Decode(msg)) == msg % 0x100_0000
  {
    var q, r := msg / 0x100_0000, msg % 0x100_0000;
    assert msg == q * 0x100_0000 + r;
    NibblesLow24(q, r);
    BytesLow24(q, r);
    EncodeDecode(r);
  }

  /** The two nibbles of `q * 2^24 + r` are those of `r`. */
  lemma NibblesLow24(q: int, r: int)
    ensures (q * 0x100_0000 + r) % 0x10 == r % 0x10
    ensures ((q * 0x100_0000 + r) / 0x10) % 0x10 == (r / 0x10) % 0x10
  {
    var msg := q * 0x100_0000 + r;
    assert msg == (q * 0x10_0000) * 0x10 + r;
    ShiftOut(q * 0x10_0000, r, 0x10);
    assert msg / 0x10 == (q * 0x1_0000) * 0x10 + r / 0x10;
    ShiftOut(q * 0x1_0000, r / 0x10, 0x10);
  }

  /** The two data bytes of `q * 2^24 + r` are those of `r`. */
  lemma BytesLow24(q: int, r: int)
    ensures ((q * 0x100_0000 + r) / 0x100) % 0x100 == (r / 0x100) % 0x100
    ensures ((q * 0x100_0000 + r) / 0x1_0000) % 0x100 == (r / 0x1_0000) % 0x100
  {
    var msg := q * 0x100_0000 + r;
    assert msg == (q * 0x1_0000) * 0x100 + r;
    ShiftOut(q * 0x1_0000, r, 0x100);
    assert msg / 0x100 == (q * 0x100) * 0x100 + r / 0x100;
    ShiftOut(q * 0x100, r / 0x100, 0x100);
    assert msg == (q * 0x100) * 0x1_0000 + r;
    ShiftOut(q * 0x100, r, 0x1_0000);
    ShiftOut(q, r / 0x1_0000, 0x100);
  }

  /** Shifting right past `d` drops the low part `y` of `x * d + y` and
      keeps it as the remainder. */
  lemma ShiftOut(x: int, y: int, d: int)
    requires d == 0x10 || d == 0x100 || d == 0x1_0000
    ensures (x * d + y) / d == x + y / d
    ensures (x * d + y) % d == y % d
  {
  }
}
