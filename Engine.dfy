/** The MIDI interface module as an object: its note list and voice fields
    are updated in place by the press, release and message handlers, and
    each handler is proved to do what the `NotePriority` functions say. */
module Engine {
  import opened MidiMessage
  import opened NoteStack
  import opened NotePriority

  class MidiInterface {
    var notes: seq<int>
    var pedal: bool
    var gate: bool
    var note: int
    var pitchWheel: int

    /** The fields as one value. */
    function State(): Voice
      reads this
    {
      Voice(notes, pedal, gate, note, pitchWheel)
    }

    /** The object invariant every handler keeps. */
    ghost predicate Valid()
      reads this
    {
      Consistent(State()) && InByteRange(State())
    }

    constructor ()
      ensures Valid()
      ensures State() == INITIAL
    {
      notes := [];
      pedal := false;
      gate := false;
      note := 64;
      pitchWheel := 64;
    }

    /** Finds the first `n` in the held list and erases it, if held. */
    method EraseNote(n: int)
      modifies this`notes
      ensures notes == Erase(old(notes), n)
    {
      var it := FirstIndex(notes, n);
      if it < |notes| {
        notes := notes[..it] + notes[it + 1..];
      }
    }

    /** Moves `n` to the end of the held list and sounds it. */
    method PressNote(n: int)
      requires WellStacked(State())
      modifies this
      ensures State() == Press(old(State()), n)
      ensures Consistent(State())
    {
      PressKeepsConsistent(State(), n);
      EraseNote(n);
      notes := notes + [n];
      gate := true;
      note := n;
    }

    /** Removes `n` from the held list and decides what sounds next. Also
      called with the sentinel after a pedal change, when only the decision
      is wanted. */
    method ReleaseNote(n: int)
      requires WellStacked(State())
      modifies this
      ensures State() == Release(old(State()), n)
      ensures Consistent(State())
    {
      ReleaseResynchronises(State(), n);
      EraseNote(n);
      if pedal {
        // the pedal sustains gate and note
      } else if notes != [] {
        note := notes[|notes| - 1];
      } else {
        gate := false;
      }
    }

    /** Handles one packed MIDI word. */
    method ProcessMidi(msg: int)
      requires Valid()
      modifies this
      ensures State() == Process(old(State()), msg)
      ensures Valid()
    {
      ProcessKeepsConsistent(State(), msg);
      ProcessKeepsByteRange(State(), msg);
      var m := Decode(msg);
      if m.channel != LISTEN_CHANNEL {
        return;
      }
      if m.status == NOTE_OFF {
        ReleaseNote(m.data1);
      } else if m.status == NOTE_ON {
        if m.data2 != 0 {
          PressNote(m.data1);
        } else {
          ReleaseNote(m.data1);
        }
      } else if m.status == CONTROL_CHANGE {
        if m.data1 == SUSTAIN_PEDAL {
          pedal := m.data2 >= 64;
          ReleaseNote(SENTINEL);
        }
      } else if m.status == PITCH_BEND {
        pitchWheel := m.data2;
      }
    }

    /** One processing cycle: handles the pending words in arrival order,
      then returns the gate and pitch output levels of the new state. */
    method Step(pending: seq<int>) returns (gateLevel: real, pitchLevel: real)
      requires Valid()
      modifies this
      ensures State() == Run(old(State()), pending)
      ensures Valid()
      ensures gateLevel == GateOutput(State()) && pitchLevel == PitchOutput(State())
    {
      var i := 0;
      while i < |pending|
        invariant 0 <= i <= |pending|
        invariant Valid()
        invariant State() == Run(old(State()), pending[..i])
      {
        assert pending[..i + 1][..i] == pending[..i];
        ProcessMidi(pending[i]);
        i := i + 1;
      }
      assert pending[..i] == pending;
      gateLevel := GateOutput(State());
      pitchLevel := PitchOutput(State());
    }
  }

  /** A client run of last-note priority, sustain after key release, and
      pedal-up silencing. */
  method SustainScenario()
  {
    var midi := new MidiInterface();
    midi.PressNote(60);
    midi.PressNote(64);
    midi.ReleaseNote(64);
    assert midi.gate && midi.note == 60;
    midi.ReleaseNote(60);
    assert !midi.gate && midi.notes == [];

    midi.PressNote(60);
    midi.pedal := true;
    midi.ReleaseNote(60);
    assert midi.gate && midi.note == 60 && midi.notes == [];
    midi.pedal := false;
    midi.ReleaseNote(SENTINEL);
    assert !midi.gate;
  }
}
