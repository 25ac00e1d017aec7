/** Last-note priority with sustain, as values: what pressing a key,
    releasing a key and handling one MIDI word do to the interface's state,
    the invariants they keep, and the two output levels computed from it. */
module NotePriority {
  import opened MidiMessage
  import opened NoteStack

  /** The interface's state: held keys (oldest first), sustain pedal, gate,
      sounding note and last pitch-wheel value. */
  datatype Voice = Voice(notes: seq<int>, pedal: bool, gate: bool, note: int, pitchWheel: int)

  /** The state of a freshly constructed interface: silent, middle note 64,
      wheel centred. */
  const INITIAL := Voice([], false, false, 64, 64)

  /** The key number used to re-run the release decision without releasing
      a key. No masked data byte equals it. */
  const SENTINEL := -1

  /** Held keys are distinct, and any held key keeps the gate open. */
  predicate WellStacked(v: Voice) {
    && NoDuplicates(v.notes)
    && (v.notes != [] ==> v.gate)
  }

  /** With the pedal up, the gate is open exactly while a key is held, and
      the sounding note is the most recently pressed held key. */
  predicate Consistent(v: Voice) {
    && WellStacked(v)
    && (!v.pedal ==> (v.gate <==> v.notes != []))
    && (!v.pedal && v.notes != [] ==> v.note == Last(v.notes))
  }

  /** Every key, the sounding note and the wheel value are masked data bytes. */
  predicate InByteRange(v: Voice) {
    && (forall k :: k in v.notes ==> 0 <= k < 0x100)
    && 0 <= v.note < 0x100
    && 0 <= v.pitchWheel < 0x100
  }

  /** Pressing `n`: take it out of the list if held, put it at the end, open
      the gate and sound it. */
  function Press(v: Voice, n: int): Voice {
    v.(notes := Erase(v.notes, n) + [n], gate := true, note := n)
  }

  /** Releasing `n`: take it out of the list if held; then, unless the pedal
      sustains, sound the most recent remaining key or close the gate. */
  function Release(v: Voice, n: int): Voice {
    var rest := Erase(v.notes, n);
    if v.pedal then v.(notes := rest)
    else if rest != [] then v.(notes := rest, note := Last(rest))
    else v.(notes := rest, gate := false)
  }

  /** Handling one packed MIDI word. */
  function Process(v: Voice, msg: int): Voice {
    var m := Decode(msg);
    if m.channel != LISTEN_CHANNEL then v
    else if m.status == NOTE_OFF then Release(v, m.data1)
    else if m.status == NOTE_ON then
      (if m.data2 != 0 then Press(v, m.data1) else Release(v, m.data1))
    else if m.status == CONTROL_CHANGE then
      (if m.data1 == SUSTAIN_PEDAL then Release(v.(pedal := m.data2 >= 64), SENTINEL) else v)
    else if m.status == PITCH_BEND then v.(pitchWheel := m.data2)
    else v
  }

  /** Handling a batch of words in arrival order. */
  function Run(v: Voice, msgs: seq<int>): Voice {
    if msgs == [] then v
    else Process(Run(v, msgs[..|msgs| - 1]), msgs[|msgs| - 1])
  }

  /** Gate output level: 5 volts while the gate is open, 0 otherwise. */
  function GateOutput(v: Voice): real {
    if v.gate then 5.0 else 0.0
  }

  /** Pitch output level in volts per octave, relative to note 64, with the
      wheel bending by up to two semitones either way. */
  function PitchOutput(v: Voice): real {
    ((v.note - 64) as real + 2.0 * (v.pitchWheel - 64) as real / 64.0) / 12.0
  }

  /** Pressing `n` moves it to the end of the list, keeps every other key in
      order, grows the list only when `n` was not held, and sounds `n`. */
  lemma PressPromotes(v: Voice, n: int)
    requires NoDuplicates(v.notes)
    ensures var r := Press(v, n);
      && r.notes == Without(v.notes, n) + [n]
      && NoDuplicates(r.notes)
      && |r.notes| == (if n in v.notes then |v.notes| else |v.notes| + 1)
      && r.gate && r.note == n
      && r.pedal == v.pedal && r.pitchWheel == v.pitchWheel
  {
    EraseIsWithout(v.notes, n);
    WithoutNoDuplicates(v.notes, n);
  }

  /** Releasing `n` removes it, keeps every other key in order, and decides
      the voice: the pedal holds gate and note; otherwise the most recent
      remaining key sounds, or the gate closes when none is left. */
  lemma ReleaseRemoves(v: Voice, n: int)
    requires NoDuplicates(v.notes)
    ensures var r := Release(v, n);
      && r.notes == Without(v.notes, n)
      && NoDuplicates(r.notes) && n !in r.notes
      && r.pedal == v.pedal && r.pitchWheel == v.pitchWheel
      && (v.pedal ==> r.gate == v.gate && r.note == v.note)
      && (!v.pedal && r.notes != [] ==> r.gate == v.gate && r.note == Last(r.notes))
      && (!v.pedal && r.notes == [] ==> !r.gate && r.note == v.note)
  {
    EraseIsWithout(v.notes, n);
    WithoutNoDuplicates(v.notes, n);
  }

  /** Pressing keeps the state consistent. */
  lemma PressKeepsConsistent(v: Voice, n: int)
    requires WellStacked(v)
    ensures Consistent(Press(v, n))
  {
    PressPromotes(v, n);
  }

  /** Releasing, even from a state whose pedal was just changed, makes the
      state consistent again: this is why a pedal change ends with a release
      of the sentinel. */
  lemma ReleaseResynchronises(v: Voice, n: int)
    requires WellStacked(v)
    ensures Consistent(Release(v, n))
  {
    ReleaseRemoves(v, n);
  }

  /** Every word keeps the state consistent. */
  lemma ProcessKeepsConsistent(v: Voice, msg: int)
    requires Consistent(v)
    ensures Consistent(Process(v, msg))
  {
    var m := Decode(msg);
    if m.channel != LISTEN_CHANNEL {
    } else if m.status == NOTE_OFF || (m.status == NOTE_ON && m.data2 == 0) {
      ReleaseResynchronises(v, m.data1);
    } else if m.status == NOTE_ON {
      PressKeepsConsistent(v, m.data1);
    } else if m.status == CONTROL_CHANGE && m.data1 == SUSTAIN_PEDAL {
      ReleaseResynchronises(v.(pedal := m.data2 >= 64), SENTINEL);
    }
  }

  /** Releasing only ever sounds a key that is held, so it keeps the state
      within byte range. */
  lemma ReleaseKeepsByteRange(v: Voice, n: int)
    requires InByteRange(v)
    ensures InByteRange(Release(v, n))
  {
    var rest := Erase(v.notes, n);
    forall k | k in rest ensures 0 <= k < 0x100 {
      EraseKeepsOthers(v.notes, n, k);
    }
    if rest != [] {
      assert Last(rest) in rest;
    }
  }

  /** Pressing a data byte keeps the state within byte range. */
  lemma PressKeepsByteRange(v: Voice, n: int)
    requires InByteRange(v) && 0 <= n < 0x100
    ensures InByteRange(Press(v, n))
  {
    forall k | k in Erase(v.notes, n) ensures 0 <= k < 0x100 {
      EraseKeepsOthers(v.notes, n, k);
    }
  }

  /** Every word keeps keys, note and wheel within byte range, because the
      data bytes are masked. */
  lemma ProcessKeepsByteRange(v: Voice, msg: int)
    requires InByteRange(v)
    ensures InByteRange(Process(v, msg))
  {
    var m := Decode(msg);
    if m.channel != LISTEN_CHANNEL {
    } else if m.status == NOTE_OFF || (m.status == NOTE_ON && m.data2 == 0) {
      ReleaseKeepsByteRange(v, m.data1);
    } else if m.status == NOTE_ON {
      PressKeepsByteRange(v, m.data1);
    } else if m.status == CONTROL_CHANGE && m.data1 == SUSTAIN_PEDAL {
      ReleaseKeepsByteRange(v.(pedal := m.data2 >= 64), SENTINEL);
    }
  }

  /** Any batch of words keeps the invariants. */
  lemma {:induction false} RunKeepsInvariants(v: Voice, msgs: seq<int>)
    requires Consistent(v)
    ensures Consistent(Run(v, msgs))
    ensures InByteRange(v) ==> InByteRange(Run(v, msgs))
  {
    if msgs != [] {
      var before := msgs[..|msgs| - 1];
      RunKeepsInvariants(v, before);
      ProcessKeepsConsistent(Run(v, before), msgs[|msgs| - 1]);
      if InByteRange(v) {
        ProcessKeepsByteRange(Run(v, before), msgs[|msgs| - 1]);
      }
    }
  }

  /** A word on another channel, of a status the interface ignores, or a
      control change of another controller leaves the state as it was. */
  lemma IgnoredMessages(v: Voice, msg: int)
    requires var m := Decode(msg);
      || m.channel != LISTEN_CHANNEL
      || m.status !in {NOTE_OFF, NOTE_ON, CONTROL_CHANGE, PITCH_BEND}
      || (m.status == CONTROL_CHANGE && m.data1 != SUSTAIN_PEDAL)
    ensures Process(v, msg) == v
  {
  }

  /** A note-on of velocity 0 has the effect of a note-off of the same key,
      whatever the note-off's velocity. */
  lemma NoteOnZeroIsNoteOff(v: Voice, key: int, velocity: int)
    requires 0 <= key < 0x100 && 0 <= velocity < 0x100
    ensures Process(v, Encode(Message(LISTEN_CHANNEL, NOTE_ON, key, 0)))
         == Process(v, Encode(Message(LISTEN_CHANNEL, NOTE_OFF, key, velocity)))
         == Release(v, key)
  {
    DecodeEncode(Message(LISTEN_CHANNEL, NOTE_ON, key, 0));
    DecodeEncode(Message(LISTEN_CHANNEL, NOTE_OFF, key, velocity));
  }

  /** A note-on of non-zero velocity presses its key. */
  lemma NoteOnPresses(v: Voice, key: int, velocity: int)
    requires 0 <= key < 0x100 && 0 < velocity < 0x100
    ensures Process(v, Encode(Message(LISTEN_CHANNEL, NOTE_ON, key, velocity))) == Press(v, key)
  {
    DecodeEncode(Message(LISTEN_CHANNEL, NOTE_ON, key, velocity));
  }

  /** Pitch bend stores its second data byte and touches nothing else. */
  lemma PitchBendSetsWheel(v: Voice, lsb: int, msb: int)
    requires 0 <= lsb < 0x100 && 0 <= msb < 0x100
    ensures Process(v, Encode(Message(LISTEN_CHANNEL, PITCH_BEND, lsb, msb))) == v.(pitchWheel := msb)
  {
    DecodeEncode(Message(LISTEN_CHANNEL, PITCH_BEND, lsb, msb));
  }

  /** A sustain-pedal change sets the pedal from the controller value and
      never alters the held keys, since the sentinel is never held. Pedal
      down holds gate and note; pedal up sounds the most recent held key, or
      closes the gate when no key is held. */
  lemma PedalChange(v: Voice, value: int)
    requires WellStacked(v) && InByteRange(v)
    requires 0 <= value < 0x100
    ensures var r := Process(v, Encode(Message(LISTEN_CHANNEL, CONTROL_CHANGE, SUSTAIN_PEDAL, value)));
      && r.notes == v.notes
      && r.pedal == (value >= 64) && r.pitchWheel == v.pitchWheel
      && (value >= 64 ==> r.gate == v.gate && r.note == v.note)
      && (value < 64 ==> (r.gate <==> v.notes != []))
      && (value < 64 && v.notes != [] ==> r.note == Last(v.notes))
  {
    DecodeEncode(Message(LISTEN_CHANNEL, CONTROL_CHANGE, SUSTAIN_PEDAL, value));
    assert SENTINEL !in v.notes;
  }

  /** Last-note priority: after pressing `a` then `b` and releasing `b`
      with the pedal up, `a` sounds again, above every other key still held. */
  lemma ReleaseFallsBack(v: Voice, a: int, b: int)
    requires NoDuplicates(v.notes) && !v.pedal && a != b
    ensures var r := Release(Press(Press(v, a), b), b);
      r.gate && r.note == a && r.notes == Without(Without(v.notes, a), b) + [a]
  {
    PressPromotes(v, a);
    var p := Press(v, a);
    PressPromotes(p, b);
    var q := Press(p, b);
    ReleaseRemoves(q, b);
    WithoutAppend(Without(p.notes, b), b, b);
    WithoutAbsent(Without(p.notes, b), b);
    WithoutAppend(Without(v.notes, a), a, b);
  }

  /** The gate output follows the held keys: it is high whenever a key is
      held and, with the pedal up, high exactly while a key is held. */
  lemma GateHighWhileHeld(v: Voice)
    requires Consistent(v)
    ensures v.notes != [] ==> GateOutput(v) == 5.0
    ensures !v.pedal ==> (GateOutput(v) == 5.0 <==> v.notes != [])
    ensures !v.pedal ==> (GateOutput(v) == 0.0 <==> v.notes == [])
  {
  }

  /** Why `Consistent` ties the sounding note to the last held key only
      with the pedal up: with the pedal down, pressing 60 and 64 and then
      releasing 64 leaves 60 held while 64 still sounds. */
  lemma PedalDownLeavesReleasedNoteSounding()
    ensures var r := Release(Press(Press(INITIAL.(pedal := true), 60), 64), 64);
      r.notes == [60] && r.gate && r.note == 64 && r.note != Last(r.notes)
  {
    var p := Press(INITIAL.(pedal := true), 60);
    assert p.notes == [60];
    var q := Press(p, 64);
    assert FirstIndex([60], 64) == 1;
    assert q.notes == [60, 64];
    assert FirstIndex([60, 64], 64) == 1;
    assert Erase(q.notes, 64) == [60];
  }

  /** With the pedal held, releasing the key just pressed leaves it sounding. */
  lemma SustainHolds(v: Voice, n: int)
    requires v.pedal
    ensures var r := Release(Press(v, n), n);
      r.gate && r.note == n
  {
  }

  /** One octave of note number is one volt; the full wheel range is plus
      or minus two semitones around the centre value 64. */
  lemma PitchScale(v: Voice)
    ensures PitchOutput(v.(note := v.note + 12)) == PitchOutput(v) + 1.0
    ensures PitchOutput(v.(pitchWheel := 64)) == (v.note - 64) as real / 12.0
    ensures PitchOutput(v.(pitchWheel := 96)) == PitchOutput(v.(pitchWheel := 64)) + 1.0 / 12.0
    ensures PitchOutput(v.(pitchWheel := 0)) == PitchOutput(v.(pitchWheel := 64)) - 2.0 / 12.0
  {
  }
}
