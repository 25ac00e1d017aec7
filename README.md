# MIDI interface: last-note priority with sustain

This project models the core of the `MidiInterface` module of WaveEdit
(`src/core/MidiInterface.cpp`). The module turns channel-voice MIDI messages
into a monophonic gate and pitch, using last-note priority and a sustain
pedal. The model has four parts:

- `MidiMessage.dfy`: the decoder. It splits a packed word into channel,
  status nibble and two data bytes with masks and shifts. `Encode` is the
  inverse packing. Lemmas prove the round trip both ways, and that decoding
  reads only the low 24 bits of a word.
- `NoteStack.dfy`: the list of held keys. `FirstIndex` is `std::find`.
  `Erase` is find-then-erase of one element. `Without` is an independent
  reference definition (every other element, in order), and `Erase` is proved
  equal to it on a list without duplicates.
- `NotePriority.dfy`: the interface's state as a value `Voice` (held keys,
  pedal, gate, sounding note, pitch wheel). It defines what `pressNote`,
  `releaseNote` and `processMidi` do (`Press`, `Release`, `Process`) and what a
  batch of words does (`Run`). It also has the two output levels. It proves
  three invariants:
  - `WellStacked`: no key is held twice, and a held key keeps the gate open.
  - `Consistent`: with the pedal up, the gate is open exactly while a key is
    held, and the sounding note is the most recently pressed held key.
  - `InByteRange`: every stored value is a masked data byte, so the sentinel
    -1 is never held.
- `Engine.dfy`: the class `MidiInterface`. Its fields `notes`, `pedal`, `gate`,
  `note` and `pitchWheel` are updated in place by `PressNote`, `ReleaseNote`,
  `ProcessMidi` and `Step`. The postcondition of each of these four methods
  equates the new fields with the matching `NotePriority` function applied to
  the old fields:
  - `PressNote` and `ReleaseNote` also guarantee `Consistent`.
  - `ProcessMidi` and `Step` keep the whole object invariant, `Consistent`
    together with `InByteRange`.
  - The helper `EraseNote` changes only `notes`, and its postcondition ties
    them to `NoteStack.Erase`.

`Press`, `Release`, `Process`, `Run` and `PitchOutput` are the definitions of
what the source lines do. The table below lists the lemmas and methods whose
contracts state what those definitions promise, not the definitions
themselves.

The pedal handler sets `pedal` and then releases the sentinel -1. Between
those two steps the object can break `Consistent`. So `ReleaseNote` requires
only `WellStacked`, and `ReleaseResynchronises` proves that one release
restores `Consistent`. That is why the sentinel trick works.

Where the code departs from MIDI convention, the model follows the code:

- Both data bytes are masked with `0xff`, not to 7 bits. Keys, the sounding
  note and the wheel value therefore range over [0, 255], not [0, 127].
- The listened channel is the constant 0 (`LISTEN_CHANNEL`). It is not
  configurable.
- Pedal-down with keys held does not re-attack the gate.

## Model

| member | source | states |
|---|---|---|
| MidiMessage.Decode | src/core/MidiInterface.cpp:146-149 | every word, negative ones included, yields a channel and status below 16 and two data bytes below 256 |
| MidiMessage.Encode | src/core/MidiInterface.cpp:146-149 | packing four in-range fields gives a 24-bit word |
| MidiMessage.DecodeEncode | src/core/MidiInterface.cpp:146-149 | decoding the packing of any in-range fields gives those fields back |
| MidiMessage.DecodeLow24 | src/core/MidiInterface.cpp:146-149 | decoding any word, negative or wider than 24 bits, gives the fields of its low 24 bits, and those fields pack back into exactly those bits |
| MidiMessage.EncodeDecode | src/core/MidiInterface.cpp:146-149 | every 24-bit word is the packing of its own decoded fields, so decoding loses nothing |
| NoteStack.FirstIndex | src/core/MidiInterface.cpp:116 | the search returns the position of the first occurrence, or the length (end) when the key is absent |
| NoteStack.Erase | src/core/MidiInterface.cpp:126-128 | an absent key leaves the list unchanged; a present key shortens it by exactly one |
| NoteStack.EraseMultiset | src/core/MidiInterface.cpp:126-128 | erasure removes exactly one copy of the key and keeps every other element with its count |
| NoteStack.EraseKeepsOthers | src/core/MidiInterface.cpp:126-128 | erasure never introduces a key that was not held |
| NoteStack.Without | src/core/MidiInterface.cpp:124-128 | reference removal: an element is in the result exactly when it is in the list and is not the removed key |
| NoteStack.WithoutNoDuplicates | src/core/MidiInterface.cpp:116-119 | removing a key from a list without duplicates leaves a list without duplicates |
| NoteStack.EraseIsWithout | src/core/MidiInterface.cpp:116-118 | on a list without duplicates, find-then-erase equals the in-order removal of every copy, so the other keys keep their order |
| NotePriority.GateHighWhileHeld | src/core/MidiInterface.cpp:76-78 | in a consistent state the gate output is 5 V whenever a key is held; with the pedal up it is 5 V exactly while a key is held and 0 V exactly when none is held |
| NotePriority.PitchScale | src/core/MidiInterface.cpp:79-81 | twelve notes up raise the pitch output by 1 V; at wheel centre the output is (note-64)/12; wheel 96 adds one semitone; wheel 0 subtracts two |
| NotePriority.PressPromotes | src/core/MidiInterface.cpp:115-122 | press puts the key last and keeps the other keys in order, with no duplicates; the length is unchanged if the key was held and grows by one otherwise; the gate opens, the key sounds, pedal and wheel are unchanged |
| NotePriority.ReleaseRemoves | src/core/MidiInterface.cpp:124-143 | release removes the key and keeps the other keys in order. With the pedal down, gate and note are unchanged. With it up, the last remaining key sounds with the gate unchanged, or the gate closes with the note unchanged when none remain |
| NotePriority.PressKeepsConsistent | src/core/MidiInterface.cpp:115-122 | pressing any key keeps the state consistent |
| NotePriority.ReleaseResynchronises | src/core/MidiInterface.cpp:124-143 | from any well-stacked state, even one just after a pedal change, one release makes the state consistent |
| NotePriority.ProcessKeepsConsistent | src/core/MidiInterface.cpp:145-181 | every MIDI word keeps the state consistent |
| NotePriority.ReleaseKeepsByteRange | src/core/MidiInterface.cpp:133-138 | a release only ever sounds a held key, so values stay bytes |
| NotePriority.PressKeepsByteRange | src/core/MidiInterface.cpp:115-122 | pressing a data byte keeps every stored value a byte |
| NotePriority.ProcessKeepsByteRange | src/core/MidiInterface.cpp:145-181 | every MIDI word keeps keys, note and wheel in [0, 255] because the data bytes are masked |
| NotePriority.RunKeepsInvariants | src/core/MidiInterface.cpp:67-74 | any sequence of words, handled in arrival order, keeps both invariants |
| NotePriority.IgnoredMessages | src/core/MidiInterface.cpp:151-180 | a word on a channel other than 0, an unhandled status, or a control change of a controller other than 0x40 changes no state at all |
| NotePriority.NoteOnZeroIsNoteOff | src/core/MidiInterface.cpp:157-168 | a note-on with velocity 0 has exactly the effect of a note-off of the same key (with any velocity), which is a release |
| NotePriority.NoteOnPresses | src/core/MidiInterface.cpp:160-163 | a note-on with non-zero velocity presses its key |
| NotePriority.PitchBendSetsWheel | src/core/MidiInterface.cpp:177-179 | pitch bend sets the wheel to its second data byte and changes nothing else |
| NotePriority.PedalChange | src/core/MidiInterface.cpp:169-175 | from any well-stacked state in byte range, not only one already in sync, CC 0x40 sets the pedal to value >= 64 and never changes the held keys, since the sentinel is never held. Pedal-down keeps gate and note. Pedal-up keeps the gate open exactly when a key is held, and then sounds the last held key |
| NotePriority.ReleaseFallsBack | src/core/MidiInterface.cpp:133-138 | with the pedal up, pressing a then b and releasing b sounds a again, on top of the other held keys |
| NotePriority.PedalDownLeavesReleasedNoteSounding | src/core/MidiInterface.cpp:130-132 | with the pedal down, pressing 60 and 64 and then releasing 64 leaves only 60 held while 64 still sounds, so the sounding note is tied to the last held key only with the pedal up |
| NotePriority.SustainHolds | src/core/MidiInterface.cpp:130-132 | with the pedal held, releasing the key just pressed leaves the gate open and that key sounding |
| Engine.MidiInterface.constructor | src/core/MidiInterface.cpp:27-31 | a new interface holds no keys, has the pedal up and the gate closed, and note and wheel at 64 |
| Engine.MidiInterface.EraseNote | src/core/MidiInterface.cpp:126-128 | the in-place find and erase leaves the list equal to `Erase` of the old list |
| Engine.MidiInterface.PressNote | src/core/MidiInterface.cpp:115-122 | the fields after the call are `Press` of the fields before, and the state is consistent |
| Engine.MidiInterface.ReleaseNote | src/core/MidiInterface.cpp:124-143 | the fields after the call are `Release` of the fields before, and the state is consistent again even if the pedal was just changed |
| Engine.MidiInterface.ProcessMidi | src/core/MidiInterface.cpp:145-181 | the fields after the call are `Process` of the fields before, and the object invariant is kept |
| Engine.MidiInterface.Step | src/core/MidiInterface.cpp:67-82 | the pending words are handled in arrival order (`Run`), the invariant is kept, and the returned levels are the gate and pitch outputs of the new state |

## Left out

- Port I/O through PortMidi is not modelled: opening, closing and enumerating
  ports (`openPort`, `getPortCount`, `getPortName`), and `Pm_Read`. `Step` takes
  the words that `Pm_Read` would deliver as its parameter, and an absent
  stream is an empty sequence.
- The process-wide `midiInitialized` flag, `Pm_Initialize` in the constructor,
  and `openPort(-1)` in the destructor are not modelled. They are library
  lifecycle, not logic.
- The debug `printf` in `processMidi` is left out. It has no effect on state.
- The menu and widget classes (`MidiItem`, `MidiChoice`,
  `MidiInterfaceWidget`) are left out. They are user-interface code.
- Step: the output levels are exact reals, not doubles, so rounding in the
  pitch formula is not modelled. Both levels are always returned; the check
  for whether each output jack exists is not modelled.
- ProcessMidi: the message is an unbounded `int`, not a C `long`. The shifts
  and masks touch only the low 24 bits (`DecodeLow24`), so the width never
  matters.
- PressNote and ReleaseNote accept any `int` key, as the C++ does. Only keys
  that arrive through `ProcessMidi` are bytes. `InByteRange`, and with it
  the claim that the sentinel is never held, is therefore proved for
  `ProcessMidi` and `Step` and not for direct calls.
