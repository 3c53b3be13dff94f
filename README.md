# Midiqo'te translation core in Dafny

Midiqo'te turns a MIDI controller into keystrokes for a game that reads
typed characters as musical notes. This project models the part of its two
scripts that does the translating, with the I/O and threading around it
removed.

- `midiqote.py`: a worker thread owns one open MIDI input at a time. The
  user interface asks for a device through a one-slot mailbox
  (`set_device`). The worker decodes each message. A note is transposed,
  folded into the 37-note window 48..84 by a configurable period, and
  looked up in a 37-key table. Pitch bend is quantised into one of eight
  F-keys. Modulation (controller 1) presses a "rest" F-key that is
  released when the next message arrives. With the rock-octave option on,
  System messages set the octave shift.
- `bard-on.py`: a driver callback types one character per NOTE_ON. The
  character comes from a 25-character bass or treble slice of the same
  37-symbol alphabet. A System message switches between the two slices.

Files:

- `midi_wire.dfy` (module `MidiWire`): bytes, message kinds, and decoding
  of the status byte.
- `midiqote.dfy` (module `Midiqote`): the translator as pure functions.
  `Translate` is the reference definition of one message. `WrapNote` runs
  the source's two `while` loops and is proved equal to `FoldNote`.
- `midiqote_worker.dfy` (module `MidiqoteWorker`): class `Worker`, the
  thread object. It holds the device mailbox, the translation fields and a
  log of keystrokes. Its methods update those fields in place and are
  proved against `Translate` and `TranslateAll`.
- `bard_on.dfy` (module `BardOn`): the tables, `OnMidiEvent`, and class
  `Bard`, which holds `use_trebble` and a log of typed characters.
- `key_layout.dfy` (module `KeyLayout`): shows that the two scripts use
  the same key layout.

Facts about the code that the model keeps:

- The playable window is 48..84 (`ROOT_NOTE + 36`).
- A centred pitch bend presses `F1_KEY + rest_selection`. The modifier
  held by the previous message has been auto-released by then.
- `rest_selection` is never set in `__init__`. So a centred bend that
  arrives before any modulation message raises `AttributeError`. That
  ends the worker thread and leaves its port open. The model records
  this as `raised` / `crashed`.
- Notes have one policy, wrap-then-clamp. No option discards
  out-of-range notes.
- Re-selecting the device that is already open closes it and opens it
  again.

## Model

| member | source | states |
|---|---|---|
| MidiWire.Decode | midiqote.py:87-88 | message is `status >> 4`, channel is `status & 0xF`; both in 0..15, and `message * 16 + channel` gives back the status byte |
| MidiWire.Bit2 | midiqote.py:126 | `(channel & 4) == 4` holds exactly when bit 2 of the channel nibble is set, i.e. `(channel / 4) % 2 == 1` |
| Midiqote.RangeMembers | midiqote.py:21 | `list(range(lo, hi))` holds exactly the integers `lo <= x < hi`, in strictly increasing order |
| Midiqote.SymbolsLayout | midiqote.py:21 | SYMBOLS has 26 + 10 + 1 = 37 entries: codes 0x41..0x5A, then 0x30..0x39, then 0xBE |
| Midiqote.Clamp | midiqote.py:95-96 | `max`/`min` puts the note into [48, 84] and leaves a note already inside unchanged |
| Midiqote.FoldNote | midiqote.py:90-97 | for any note and any positive period, the wrapped and clamped note is in [ROOT_NOTE, ROOT_NOTE+36], so `SYMBOLS[note-ROOT_NOTE]` is in range |
| Midiqote.RaiseLands | midiqote.py:91-92 | the raising loop ends at or above 48, changes the note by a multiple of the period, ends below 48 + period if it ran at all, and does nothing to a note already ≥ 48 |
| Midiqote.LowerLands | midiqote.py:93-94 | the lowering loop ends at or below 84, changes the note by a multiple of the period, ends above 84 − period if it ran at all, and does nothing to a note already ≤ 84 |
| Midiqote.FoldNoteWraps | midiqote.py:90-96 | when 0 < period ≤ len(SYMBOLS), the two loops alone land in the window, so the clamp is a no-op; the result is congruent to `data1 + transpose + octave` modulo the period; it is the first congruent note past the edge it was folded across; a note inside [48, 84] is unchanged |
| Midiqote.FoldNoteClosedForm | midiqote.py:90-96 | under the same bound, the folded note is `48 + (n−48) mod p` below the window, `84 − (84−n) mod p` above it, and `n` inside |
| Midiqote.WrapNote | midiqote.py:90-96 | the two `while` loops and the clamp, as the source runs them, compute exactly `FoldNote` |
| Midiqote.BendSymbol | midiqote.py:25-33 | `bend_symbol` returns None exactly when the bend is 0; a bend in (0, 0.5] gives a key in F1_KEY..F1_KEY+3; a bend in [−0.5, 0) gives a key in F1_KEY+4..F1_KEY+7 |
| Midiqote.BendSymbolMonotone | midiqote.py:25-33 | over [−0.5, 0.5] without 0, a higher bend never selects a higher key code (F8..F5 below the centre, F4..F1 above) |
| Midiqote.BendSymbolBuckets | midiqote.py:25-33 | −0.5 selects F8, −1/8 selects F5, 1/8 selects F4, 0.5 selects F1 |
| Midiqote.BendValue | midiqote.py:113 | for any two bytes the normalised bend lies in [−0.5, 1.5), and it is 0 exactly when the raw 14-bit value is the centre 0x2000 |
| Midiqote.RawBend | midiqote.py:113 | `(data2 << 7) \| data1` is below 0x8000, and equals `data2*128 + data1` when data1 is a 7-bit byte |
| Midiqote.BendValueRange | midiqote.py:113 | for 7-bit data bytes the raw bend is in 0..16383 and the normalised bend is in [−0.5, 0.5); it is 0 exactly at MSB 64, LSB 0 |
| Midiqote.RoundHalfEven | midiqote.py:108 | Python `round`: the result is within 0.5 of the input, and an exact half goes to the even neighbour |
| Midiqote.RestSelection | midiqote.py:106-108 | `7 − round(7·data2/127)` is in 0..7 for a 7-bit value; value 0 gives 7, and value 127 gives 0 |
| Midiqote.RestSelectionNearest | midiqote.py:106-108 | the same selection in integer arithmetic: `7 − (14·data2 + 127) div 254` (no byte value lands on a rounding tie) |
| Midiqote.NoteKey | midiqote.py:90-97 | the key a note message names is always an entry of SYMBOLS |
| Midiqote.Translate | midiqote.py:83-126 | one message never changes the period, the transpose or the rock-octave option |
| Midiqote.ModifierReleasedFirst | midiqote.py:83-123 | whatever the message, a held modifier's release is the first keystroke emitted. Afterwards a modifier is held only if this message pressed it as its last keystroke: a CC 1, or a centred bend. It is then F1_KEY + rest_selection |
| Midiqote.NoteMessage | midiqote.py:89-102 | NOTE_ON presses, and NOTE_OFF releases, the key of the folded note after the auto-release. Nothing else changes |
| Midiqote.NoteOnOffPair | midiqote.py:98-102 | NOTE_ON and NOTE_OFF for the same note, transpose, octave and period press and release the same SYMBOLS key |
| Midiqote.ControlChangeRest | midiqote.py:104-110 | CC 1 sets rest_selection, presses F1_KEY + rest_selection (one of F1..F8 for a 7-bit value) and holds it as the modifier. Any other controller emits only the auto-release and changes nothing else |
| Midiqote.PitchBendDebounce | midiqote.py:112-123 | the previous bend key is released only when the bucket changes and a previous key exists. `last_bend` becomes the new bucket. A directional key is pressed even when unchanged. At the centre, F1_KEY + rest_selection is pressed and held; this raises if no CC 1 came first |
| Midiqote.RockOctave | midiqote.py:125-126 | with the rock-octave option on, a System message sets the octave to 0 if channel bit 2 is set, else 12; with it off the message only auto-releases |
| Midiqote.OtherKindsIgnored | midiqote.py:89-126 | polyphonic pressure, program change and channel pressure emit only the auto-release and change nothing else |
| Midiqote.RaisesOnlyBeforeModulation | midiqote.py:121-123 | a message raises exactly when it is a centred bend with rest_selection unset; once set, rest_selection stays set |
| Midiqote.TranslateAll | midiqote.py:78-81 | over a stream of messages the period, transpose and rock option are kept; once a CC 1 has set rest_selection, no later message raises |
| Midiqote.Scenarios | midiqote.py:90-123 | note 30 with period 12 folds to 54 and presses 'G'. A centred bend with rest 3 releases the old bend key and presses F4. CC 1 at 127 presses F1, which the next note message releases first |
| MidiqoteWorker.OneOpenPort | midiqote.py:66-75 | when opens and closes alternate, the number of open ports is 0 or 1 |
| MidiqoteWorker.Worker.constructor | midiqote.py:37-57 | the worker starts live, with no current or pending device and the signal clear, transpose 0, octave 0, period 12, and no bend, modifier or rest selection |
| MidiqoteWorker.Worker.SetDevice | midiqote.py:139-144 | `set_device` overwrites the pending slot (last writer wins) and raises the signal. It does not compare against the current device. Nothing else changes |
| MidiqoteWorker.Worker.OpenPending | midiqote.py:62-75 | requires a running worker thread, current None and pending set (the two asserts). It clears the signal, counts a driver reset when the driver still reports the device open, moves pending to current, empties the slot and logs the open |
| MidiqoteWorker.Worker.ClosePort | midiqote.py:130-132 | closes the current port, logs the close and resets current to None |
| MidiqoteWorker.Worker.HandlePacket | midiqote.py:80-126 | one message changes the translation fields and appends keystrokes exactly as `Translate` prescribes; device fields are untouched |
| MidiqoteWorker.Worker.ReleaseModifier | midiqote.py:83-85 | releases and forgets the held modifier, if any |
| MidiqoteWorker.Worker.PlayNote | midiqote.py:89-102 | presses or releases `NoteKey` of the note, with no other state change |
| MidiqoteWorker.Worker.ControlChange | midiqote.py:104-110 | controller 1 stores the rest selection and presses and holds F1_KEY + selection; other controllers do nothing |
| MidiqoteWorker.Worker.PitchBend | midiqote.py:112-123 | the bend-key release and update, then a press of the bend key or, at the centre, of the rest key. With no rest selection the worker crashes |
| MidiqoteWorker.Worker.Listen | midiqote.py:77-128 | one drain: if the worker is live and no switch is pending when the drain starts, the messages are handled in order exactly as `TranslateAll` prescribes, stopping at a raise; otherwise nothing happens |
| MidiqoteWorker.Worker.Shutdown | midiqote.py:134-137 | clears the liveness flag and nothing else |
| MidiqoteWorker.Worker.SetRockOctave | midiqote.py:152-153 | sets only the rock-octave option |
| MidiqoteWorker.Worker.SetTranspose | midiqote.py:155-156 | stores `MIDDLE_C − value` = 60 − value as the transpose |
| MidiqoteWorker.Worker.SetPeriod | midiqote.py:158-161 | for 0 < value < len(SYMBOLS) (the two asserts) stores the period |
| MidiqoteWorker.ReselectReopens | midiqote.py:139-144 | selecting the open device again leads to close and reopen: the port log reads open, close, open of that device |
| MidiqoteWorker.LastRequestWins | midiqote.py:139-144 | two requests before the worker wakes: only the second device is opened |
| BardOn.TablesOverlap | bard-on.py:14-16 | the alphabet has 37 characters; `bass` and `trebble` have 25 each; `trebble` is `all_symbols[12:37]`, and `trebble[i] == bass[i+12]` for i < 13 |
| BardOn.AllSymbolsDistinct | bard-on.py:14 | no character occurs twice in the alphabet |
| BardOn.PyIndex | bard-on.py:39 | Python indexing is defined exactly for −len ≤ i < len, and within that range it is modular: `s[i]` is `s[i mod len]` |
| BardOn.OnMidiEvent | bard-on.py:30-42 | `midi_event` raises exactly on an empty packet or on a NOTE_ON whose note byte is missing or outside 23..72. Otherwise it types at most one character, always from the alphabet. Only a System message changes the table in use |
| BardOn.NoteOnTypes | bard-on.py:36-40 | NOTE_ON types `notemap[note−48]` of the table in use for 48 ≤ note < 73, and `notemap[note−23]` for 23 ≤ note < 48 (negative indexing). Any other note raises and types nothing. The table in use is kept |
| BardOn.NoteOnInjective | bard-on.py:36-40 | within 48..72, different notes type different characters |
| BardOn.TrebbleIsOctaveUp | bard-on.py:15-16 | in treble mode a note in 48..60 types what the note 12 higher types in bass mode |
| BardOn.SystemSelectsTable | bard-on.py:41-42 | a System message sets `use_trebble` to `(channel & 4) == 0`, whatever it was before, and types nothing |
| BardOn.OtherKindsIgnored | bard-on.py:34-42 | every other kind, NOTE_OFF included, types nothing and keeps `use_trebble` |
| BardOn.Bard.constructor | bard-on.py:29 | `use_trebble` starts true; nothing has been typed |
| BardOn.Bard.MidiEvent | bard-on.py:30-42 | the callback updates `use_trebble`, appends the typed characters and reports a raise exactly as `OnMidiEvent` prescribes |
| KeyLayout.SameLayout | midiqote.py:20-21 | entry i of midiqote's SYMBOLS is the key that types entry i of bard-on's alphabet, for all 37 positions |
| KeyLayout.KeysOfAlphabet | midiqote.py:20-21 | a character has a key exactly when it belongs to bard-on's alphabet, and that key is an entry of midiqote's SYMBOLS |
| KeyLayout.DistinctKeys | midiqote.py:20-21 | two different characters never share a key |

## Left out

- The pygame.midi driver is not modelled: `midi.Input`, `poll`, `read`, `close`, `get_device_info`, `quit`/`init`. Opening is a state change. The "device still open" check that triggers the driver reset is a parameter of `OpenPending`, and the reset is only counted.
- Device enumeration is not modelled, nor the translation in `set_device` of a combo-box index into a device id through `input_devices`. `SetDevice` takes the id.
- `keybd_event` and `SendKeys` are replaced by appending to a log. The 30 ms and 1 ms sleeps only affect timing.
- Threading, the `Lock` and the `Event` are modelled as sequential calls. The same goes for `shutdown`'s `join` and the final `midi.quit()`. Sequentially, a pending request and the raised signal always go together. Under real concurrency they need not: `set_device` stores the id and raises the signal in two separate steps. The worker can consume the id between those steps and then reach `assert self.pending_device is not None` with an empty slot. This race is not modelled.
- The initial `device_changed.wait()` is not modelled. The caller of `OpenPending` decides when a device is opened and when the port is closed.
- MidiqoteWorker.Worker.Listen: one call is one drain, meaning the messages `poll()` yields before the 1 ms sleep. A switch request takes effect only after the drain in progress, because the inner loop tests only liveness. A shutdown that arrives in the middle of a drain, which would split it, is not modelled.
- MidiqoteWorker.Worker.SetPeriod: the source stores the new period before its asserts run, so a rejected value would stay in the live worker. The model's precondition rules such values out instead. The user interface's spin control only offers 1..36.
- After the worker thread raises, the methods that run on that thread require `!crashed`: `OpenPending`, `ClosePort`, `HandlePacket` and its per-kind helpers, and `Listen`. The methods called from the user interface stay callable: `SetDevice`, `Shutdown` and the setters. The model shows that the port of the dead thread stays open (`currentDevice` keeps its value), but it has no operation for what happens to that port later.
- The GUI (`fancy_panel`, the wx controls), process-priority elevation and `__main__` are not modelled. The same holds for bard-on's port lookup, its `assert(device_name in available_inputs)` and the registration of its callback.
- `set_ctrl_octave` and `set_prog_octave` are not modelled, nor the flags `use_trebble`, `use_ctrl_octave`, `use_prog_octave` and `rest` of the midiqote worker: nothing reads them.
- Floating point is replaced by exact reals. `raw / 2**14 − 0.5` and `× 8` are exact in binary floating point. For `round(data2 / 127.0 × 7)`, the nearest byte value to a rounding tie is 1/254 away, far beyond any rounding error.
- The fourth packet byte and the timestamp are never read by the source. The model drops them.
- python-rtmidi drops some messages before the callback by default (SysEx, timing clock, active sensing). `OnMidiEvent` models the callback for every message it could receive.
