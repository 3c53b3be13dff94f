/** The bard-on script: every NOTE_ON types one character taken from the
    bass or the treble slice of a 37-character alphabet, and a System
    message switches between the two slices. Typed characters go to a log
    instead of `SendKeys`. */
module BardOn {
  import opened MidiWire

  const DEVICE_ROOT := 48
  const DEVICE_SPAN := 25

  /** `string.ascii_lowercase + string.digits + "."` */
  const ALL_SYMBOLS: string := "abcdefghijklmnopqrstuvwxyz" + "0123456789" + "."

  /** `all_symbols[:device_span]` */
  const BASS: string := ALL_SYMBOLS[..DEVICE_SPAN]

  /** `all_symbols[12:][:device_span]`: the bass table an octave higher. */
  const TREBBLE: string := ALL_SYMBOLS[12..][..DEVICE_SPAN]

  /** Both tables hold 25 characters, and the treble table is the bass
      table shifted up by twelve: its first thirteen entries are the last
      thirteen of the bass table. */
  lemma TablesOverlap()
    ensures |ALL_SYMBOLS| == 37
    ensures |BASS| == DEVICE_SPAN && |TREBBLE| == DEVICE_SPAN
    ensures TREBBLE == ALL_SYMBOLS[12..37]
    ensures forall i :: 0 <= i < 13 ==> TREBBLE[i] == BASS[i + 12]
  {
  }

  /** No character occurs twice in the alphabet. */
  lemma AllSymbolsDistinct()
    ensures forall i, j :: 0 <= i < j < |ALL_SYMBOLS| ==> ALL_SYMBOLS[i] != ALL_SYMBOLS[j]
  {
    var s := ALL_SYMBOLS;
    assert forall i :: 0 <= i < 26 ==> s[i] == ('a' as int + i) as char;
    assert forall i :: 26 <= i < 36 ==> s[i] == ('0' as int + i - 26) as char;
    assert s[36] == '.';
  }

  /** Python's `s[i]`, negative indices counting from the end; None is
      the IndexError. Within bounds, indexing is modular: `i` and
      `i + len(s)` name the same character. */
  function PyIndex(s: string, i: int): (r: Option<char>)
    ensures r.Some? <==> -|s| <= i < |s|
    ensures r.Some? ==> r.value == s[i % |s|]
  {
    if 0 <= i < |s| then Some(s[i])
    else if -|s| <= i < 0 then Some(s[|s| + i])
    else None
  }

  /** The table in use, the characters typed, and whether the callback
      raised. */
  datatype Reaction = Reaction(useTrebble: bool, sent: seq<char>, raised: bool)

  /** Reference definition of `midi_event` for one message. The callback
      raises exactly on an empty packet or on a NOTE_ON whose note is
      missing or outside 23..72; otherwise it types at most one character
      of the alphabet, and only a System message changes the table. */
  function OnMidiEvent(useTrebble: bool, packet: seq<Byte>): (r: Reaction)
    ensures r.raised <==>
              (packet == [] ||
               (Decode(packet[0]).message == NOTE_ON && (|packet| < 2 || packet[1] < 23 || packet[1] >= 73)))
    ensures |r.sent| <= 1 && (r.raised ==> r.sent == [])
    ensures forall c :: c in r.sent ==> c in ALL_SYMBOLS
    ensures r.useTrebble != useTrebble ==> packet != [] && Decode(packet[0]).message == SYSETM
  {
    if packet == [] then Reaction(useTrebble, [], true)
    else
      var d := Decode(packet[0]);
      if d.message == NOTE_ON then
        var notemap := if useTrebble then TREBBLE else BASS;
        if |packet| < 2 then Reaction(useTrebble, [], true)
        else
          match PyIndex(notemap, packet[1] - DEVICE_ROOT)
          case Some(c) => Reaction(useTrebble, [c], false)
          case None => Reaction(useTrebble, [], true)
      else if d.message == SYSETM then
        Reaction(!Bit2(d.channel), [], false)
      else
        Reaction(useTrebble, [], false)
  }

  /** NOTE_ON types `notemap[note - 48]` of the table in use: the intended
      case is 48 <= note < 73; from 23 to 47 Python's negative indexing
      picks `notemap[note - 23]`; any other note raises IndexError and
      types nothing. The table in use never changes. */
  lemma NoteOnTypes(useTrebble: bool, packet: seq<Byte>)
    requires |packet| >= 2 && Decode(packet[0]).message == NOTE_ON
    ensures var r := OnMidiEvent(useTrebble, packet);
      var notemap := if useTrebble then TREBBLE else BASS;
      var note := packet[1];
      r.useTrebble == useTrebble &&
      (48 <= note < 73 ==> !r.raised && r.sent == [notemap[note - 48]]) &&
      (23 <= note < 48 ==> !r.raised && r.sent == [notemap[note - 23]]) &&
      (note < 23 || note >= 73 ==> r.raised && r.sent == [])
  {
    TablesOverlap();
  }

  /** Within the intended range, different notes type different
      characters. */
  lemma NoteOnInjective(useTrebble: bool, a: seq<Byte>, b: seq<Byte>)
    requires |a| >= 2 && |b| >= 2
    requires Decode(a[0]).message == NOTE_ON && Decode(b[0]).message == NOTE_ON
    requires 48 <= a[1] < 73 && 48 <= b[1] < 73 && a[1] != b[1]
    ensures OnMidiEvent(useTrebble, a).sent != OnMidiEvent(useTrebble, b).sent
  {
    NoteOnTypes(useTrebble, a);
    NoteOnTypes(useTrebble, b);
    var offset := if useTrebble then 12 else 0;
    TableEntry(useTrebble, a[1] - 48);
    TableEntry(useTrebble, b[1] - 48);
    var i, j := a[1] - 48 + offset, b[1] - 48 + offset;
    AllSymbolsDistinct();
    if i < j {
      assert ALL_SYMBOLS[i] != ALL_SYMBOLS[j];
    } else {
      assert ALL_SYMBOLS[j] != ALL_SYMBOLS[i];
    }
  }

  /** Entry k of the table in use is entry k, or k + 12 in treble mode,
      of the alphabet. */
  lemma TableEntry(useTrebble: bool, k: int)
    requires 0 <= k < DEVICE_SPAN
    ensures (if useTrebble then TREBBLE else BASS)[k] == ALL_SYMBOLS[k + if useTrebble then 12 else 0]
  {
  }

  /** In treble mode a note types what the note an octave higher types in
      bass mode. */
  lemma TrebbleIsOctaveUp(status: Byte, note: Byte, higher: Byte)
    requires Decode(status).message == NOTE_ON
    requires 48 <= note < 61 && higher == note + 12
    ensures OnMidiEvent(true, [status, note]).sent == OnMidiEvent(false, [status, higher]).sent
    ensures !OnMidiEvent(true, [status, note]).raised
  {
    TablesOverlap();
    NoteOnTypes(true, [status, note]);
    NoteOnTypes(false, [status, higher]);
  }

  /** A System message selects the treble table exactly when bit 2 of its
      channel nibble is clear, whatever was selected before. */
  lemma SystemSelectsTable(useTrebble: bool, packet: seq<Byte>)
    requires packet != [] && Decode(packet[0]).message == SYSETM
    ensures OnMidiEvent(useTrebble, packet) ==
      Reaction((Decode(packet[0]).channel / 4) % 2 == 0, [], false)
  {
  }

  /** Every other kind, NOTE_OFF included, types nothing and keeps the
      table. */
  lemma OtherKindsIgnored(useTrebble: bool, packet: seq<Byte>)
    requires packet != [] && Decode(packet[0]).message !in {NOTE_ON, SYSETM}
    ensures OnMidiEvent(useTrebble, packet) == Reaction(useTrebble, [], false)
  {
  }

  /** The script's module-level state: `use_trebble` and what was typed. */
  class Bard {
    var useTrebble: bool
    var sent: seq<char>

    constructor ()
      ensures useTrebble && sent == []
    {
      useTrebble := true;
      sent := [];
    }

    /** `midi_event`, the callback the MIDI driver runs per message. */
    method MidiEvent(packet: seq<Byte>) returns (raised: bool)
      modifies this
      ensures var r := OnMidiEvent(old(useTrebble), packet);
        useTrebble == r.useTrebble && sent == old(sent) + r.sent && raised == r.raised
    {
      raised := false;
      if packet == [] {
        raised := true;
        return;
      }
      var status := packet[0];
      var d := Decode(status);
      if d.message == NOTE_ON {
        var notemap := if useTrebble then TREBBLE else BASS;
        if |packet| < 2 {
          raised := true;
          return;
        }
        var symbol := PyIndex(notemap, packet[1] - DEVICE_ROOT);
        if symbol.None? {
          raised := true;
          return;
        }
        sent := sent + [symbol.value];
      } else if d.message == SYSETM {
        useTrebble := !Bit2(d.channel);
      }
    }
  }
}
