/** The pure half of the midiqote translator: the symbol table, the
    wrap-and-clamp folding of notes into the playable window, pitch-bend
    quantisation, the modulation "rest" selection, and `Translate`, the
    reference definition of what one incoming message does to the
    translation state and to the keystroke stream. */
module Midiqote {
  import opened MidiWire

  const MIDDLE_C := 60
  const ROOT_NOTE := 48
  /** Highest playable note; the source writes it as ROOT_NOTE + 36. */
  const TOP_NOTE := ROOT_NOTE + 36
  const F1_KEY := 0x70

  /** Python's `list(range(lo, hi))`. */
  function Range(lo: int, hi: int): seq<int>
  {
    seq(if lo < hi then hi - lo else 0, i => lo + i)
  }

  /** `Range(lo, hi)` holds every integer from `lo` up to but not
      including `hi`, each once, in increasing order. */
  lemma RangeMembers(lo: int, hi: int)
    ensures forall x :: x in Range(lo, hi) <==> lo <= x < hi
    ensures forall i, j :: 0 <= i < j < |Range(lo, hi)| ==> Range(lo, hi)[i] < Range(lo, hi)[j]
  {
    var r := Range(lo, hi);
    forall x | lo <= x < hi
      ensures x in r
    {
      assert r[x - lo] == x;
    }
  }

  /** Windows virtual-key codes: 'A'..'Z', '0'..'9' and VK_OEM_PERIOD. */
  const SYMBOLS: seq<int> := Range(0x41, 0x5B) + Range(0x30, 0x3A) + [0xBE]

  lemma SymbolsLayout()
    ensures |SYMBOLS| == 37
    ensures forall i :: 0 <= i < 26 ==> SYMBOLS[i] == 0x41 + i
    ensures forall i :: 26 <= i < 36 ==> SYMBOLS[i] == 0x30 + (i - 26)
    ensures SYMBOLS[36] == 0xBE
  {
    var letters, digits := Range(0x41, 0x5B), Range(0x30, 0x3A);
    assert SYMBOLS == letters + digits + [0xBE];
    forall i | 26 <= i < 36 ensures SYMBOLS[i] == 0x30 + (i - 26) {
      assert SYMBOLS[i] == digits[i - 26];
    }
  }

  datatype KeyEvent = Press(key: int) | Release(key: int)

  // ---------------------------------------------------------------
  // Notes: wrap by `period`, then clamp into [ROOT_NOTE, TOP_NOTE]
  // ---------------------------------------------------------------

  /** What `while note < ROOT_NOTE: note += period` leaves. */
  function Raise(note: int, period: int): int
    requires period > 0
    decreases ROOT_NOTE - note
  {
    if note < ROOT_NOTE then Raise(note + period, period) else note
  }

  /** What `while note > ROOT_NOTE + 36: note -= period` leaves. */
  function Lower(note: int, period: int): int
    requires period > 0
    decreases note - TOP_NOTE
  {
    if note > TOP_NOTE then Lower(note - period, period) else note
  }

  function Clamp(note: int): (r: int)
    ensures ROOT_NOTE <= r <= TOP_NOTE
    ensures ROOT_NOTE <= note <= TOP_NOTE ==> r == note
  {
    var lo := if note > ROOT_NOTE then note else ROOT_NOTE;
    if lo < TOP_NOTE then lo else TOP_NOTE
  }

  /** The note a NOTE_ON / NOTE_OFF plays: wrapped, then clamped. Whatever
      the period, the result indexes SYMBOLS. */
  function FoldNote(note: int, period: int): (r: int)
    requires period > 0
    ensures ROOT_NOTE <= r <= TOP_NOTE
    ensures 0 <= r - ROOT_NOTE < |SYMBOLS|
  {
    SymbolsLayout();
    Clamp(Lower(Raise(note, period), period))
  }

  lemma {:induction false} RaiseLands(note: int, period: int)
    requires period > 0
    ensures Raise(note, period) >= ROOT_NOTE
    ensures (Raise(note, period) - note) % period == 0
    ensures note < ROOT_NOTE ==> Raise(note, period) < ROOT_NOTE + period
    ensures note >= ROOT_NOTE ==> Raise(note, period) == note
    decreases ROOT_NOTE - note
  {
    if note < ROOT_NOTE {
      RaiseLands(note + period, period);
      ShiftMod(Raise(note, period) - (note + period), 1, period);
    }
  }

  lemma {:induction false} LowerLands(note: int, period: int)
    requires period > 0
    ensures Lower(note, period) <= TOP_NOTE
    ensures (Lower(note, period) - note) % period == 0
    ensures note > TOP_NOTE ==> Lower(note, period) > TOP_NOTE - period
    ensures note <= TOP_NOTE ==> Lower(note, period) == note
    decreases note - TOP_NOTE
  {
    if note > TOP_NOTE {
      LowerLands(note - period, period);
      ShiftMod(Lower(note, period) - note, 1, period);
    }
  }

  /** With 0 < period <= |SYMBOLS| (set_period allows 1..36) the two loops
      alone land in the window, so the clamp changes nothing; the played
      note is congruent to the incoming one modulo the period, is the
      nearest such note to the window edge it was folded across, and a
      note already inside the window is left alone. */
  lemma FoldNoteWraps(note: int, period: int)
    requires 0 < period <= |SYMBOLS|
    ensures ROOT_NOTE <= Lower(Raise(note, period), period) <= TOP_NOTE
    ensures FoldNote(note, period) == Lower(Raise(note, period), period)
    ensures (FoldNote(note, period) - note) % period == 0
    ensures note < ROOT_NOTE ==> FoldNote(note, period) - period < ROOT_NOTE
    ensures note > TOP_NOTE ==> FoldNote(note, period) + period > TOP_NOTE
    ensures ROOT_NOTE <= note <= TOP_NOTE ==> FoldNote(note, period) == note
  {
    SymbolsLayout();
    var m := Raise(note, period);
    RaiseLands(note, period);
    LowerLands(m, period);
    var k := Lower(m, period);
    assert k - note == (k - m) + (m - note);
    SumOfMultiples(k - m, m - note, period);
  }

  /** The closed form of the fold for a period that fits the window:
      notes below the window go to the lowest congruent note at or above
      ROOT_NOTE, notes above it to the highest congruent note at or below
      TOP_NOTE. */
  lemma FoldNoteClosedForm(note: int, period: int)
    requires 0 < period <= |SYMBOLS|
    ensures FoldNote(note, period) ==
      if note < ROOT_NOTE then ROOT_NOTE + (note - ROOT_NOTE) % period
      else if note > TOP_NOTE then TOP_NOTE - (TOP_NOTE - note) % period
      else note
  {
    FoldNoteWraps(note, period);
    var r := FoldNote(note, period);
    if note < ROOT_NOTE {
      assert (r - ROOT_NOTE) - (note - ROOT_NOTE) == r - note;
      ResidueOf(r - ROOT_NOTE, note - ROOT_NOTE, period);
    } else if note > TOP_NOTE {
      NegatedMultiple(r - note, period);
      assert (TOP_NOTE - r) - (TOP_NOTE - note) == -(r - note);
      ResidueOf(TOP_NOTE - r, TOP_NOTE - note, period);
    }
  }

  // Euclidean division facts for a variable divisor, which the solver
  // does not find unaided.

  lemma MulAtLeast(d: int, p: int)
    requires d >= 1 && p > 0
    ensures d * p >= p
  {}

  lemma DivModUnique(x: int, p: int, q: int, r: int)
    requires p > 0 && 0 <= r < p && x == q * p + r
    ensures x / p == q && x % p == r
  {
    var q0, r0 := x / p, x % p;
    assert x == q0 * p + r0;
    assert (q - q0) * p == r0 - r;
    assert (q0 - q) * p == r - r0;
    if q > q0 {
      MulAtLeast(q - q0, p);
    } else if q < q0 {
      MulAtLeast(q0 - q, p);
    }
  }

  lemma ShiftMod(x: int, j: int, p: int)
    requires p > 0
    ensures (x + j * p) % p == x % p
  {
    DivModUnique(x + j * p, p, x / p + j, x % p);
  }

  lemma SumOfMultiples(a: int, b: int, p: int)
    requires p > 0 && a % p == 0 && b % p == 0
    ensures (a + b) % p == 0
  {
    assert a == (a / p) * p;
    ShiftMod(b, a / p, p);
  }

  lemma NegatedMultiple(a: int, p: int)
    requires p > 0 && a % p == 0
    ensures (-a) % p == 0
  {
    var k := a / p;
    assert a == k * p;
    assert -a == (-k) * p + 0;
    DivModUnique(-a, p, -k, 0);
  }

  /** A value in [0, p) that differs from y by a multiple of p is y's
      remainder. */
  lemma ResidueOf(x: int, y: int, p: int)
    requires p > 0 && 0 <= x < p && (x - y) % p == 0
    ensures x == y % p
  {
    var q := (x - y) / p;
    assert x - y == q * p;
    DivModUnique(y, p, -q, x);
  }

  /** The two `while` loops of the translation loop, as the source runs
      them, followed by the `max`/`min` clamp. */
  method WrapNote(note: int, period: int) returns (r: int)
    requires period > 0
    ensures r == FoldNote(note, period)
  {
    r := note;
    while r < ROOT_NOTE
      invariant Raise(r, period) == Raise(note, period)
      decreases ROOT_NOTE - r
    {
      r := r + period;
    }
    ghost var raised := r;
    while r > TOP_NOTE
      invariant Lower(r, period) == Lower(raised, period)
      decreases r - TOP_NOTE
    {
      r := r - period;
    }
    r := if r > ROOT_NOTE then r else ROOT_NOTE;
    r := if r < TOP_NOTE then r else TOP_NOTE;
  }

  // ---------------------------------------------------------------
  // Pitch bend
  // ---------------------------------------------------------------

  function Floor(x: real): int { x.Floor }

  function Ceil(x: real): (c: int)
    ensures c as real >= x && (c as real) - 1.0 < x
  {
    -((-x).Floor)
  }

  /** `bend_symbol`: F1..F4 for an upward bend (strongest is F1), F5..F8
      for a downward bend (strongest is F8), nothing at the centre. */
  function BendSymbol(bend: real): (r: Option<int>)
    ensures r.None? <==> bend == 0.0
    ensures 0.0 < bend <= 0.5 ==> r.Some? && F1_KEY <= r.value <= F1_KEY + 3
    ensures -0.5 <= bend < 0.0 ==> r.Some? && F1_KEY + 4 <= r.value <= F1_KEY + 7
  {
    if bend > 0.0 then
      Some(F1_KEY + (4 - Ceil(bend * 8.0)))
    else if bend < 0.0 then
      var f := Floor(bend * 8.0);
      Some(F1_KEY + ((if f < 0 then -f else f) + 3))
    else
      None
  }

  /** Moving the wheel further up never selects a higher F-key: over
      [-0.5, 0.5] the keys run F8..F5 below the centre and F4..F1 above. */
  lemma BendSymbolMonotone(lo: real, hi: real)
    requires -0.5 <= lo <= hi <= 0.5 && lo != 0.0 && hi != 0.0
    ensures BendSymbol(lo).value >= BendSymbol(hi).value
  {
    if lo < 0.0 && hi < 0.0 {
      assert Floor(lo * 8.0) <= Floor(hi * 8.0);
    } else if lo > 0.0 {
      assert Ceil(lo * 8.0) <= Ceil(hi * 8.0);
    }
  }

  /** The extreme and central buckets. */
  lemma BendSymbolBuckets()
    ensures BendSymbol(-0.5) == Some(F1_KEY + 7)
    ensures BendSymbol(-0.125) == Some(F1_KEY + 4)
    ensures BendSymbol(0.125) == Some(F1_KEY + 3)
    ensures BendSymbol(0.5) == Some(F1_KEY)
  {
    assert Floor(-0.5 * 8.0) == -4;
    assert Floor(-0.125 * 8.0) == -1;
    assert Ceil(0.125 * 8.0) == 1;
    assert Ceil(0.5 * 8.0) == 4;
  }

  /** `(data2 << 7) | data1`. */
  function RawBend(data1: Byte, data2: Byte): (raw: int)
    ensures 0 <= raw < 0x8000
    ensures data1 < 0x80 ==> raw == data2 * 0x80 + data1
  {
    var b1, b2 := (data1 as bv8) as bv16, (data2 as bv8) as bv16;
    ByteRoundTrip(data1);
    ByteRoundTrip(data2);
    Widen(data1 as bv8);
    Widen(data2 as bv8);
    BendBits(b1, b2);
    BitsBelow((b2 << 7) | b1);
    SumOfBits(b1, b2);
    ((b2 << 7) | b1) as int
  }

  // Small steps between bytes and bit-vectors, one fact each.

  lemma Widen(b: bv8)
    ensures (b as bv16) as int == b as int && b as bv16 < 0x100
  {}

  lemma BitsBelow(b: bv16)
    requires b < 0x8000
    ensures b as int < 0x8000
  {}

  lemma SumOfBits(b1: bv16, b2: bv16)
    requires b2 < 0x100
    ensures b1 < 0x80 ==> (b2 * 0x80 + b1) as int == (b2 as int) * 0x80 + (b1 as int)
  {}

  /** Shifting a byte left by 7 and or-ing in a 7-bit byte is the same as
      multiplying by 128 and adding. */
  lemma BendBits(b1: bv16, b2: bv16)
    requires b1 < 0x100 && b2 < 0x100
    ensures (b2 << 7) | b1 < 0x8000
    ensures b1 < 0x80 ==> (b2 << 7) | b1 == b2 * 0x80 + b1
  {}

  /** `raw / 2**14 - 0.5`. Every step is exact in binary floating point,
      so the real-valued model loses nothing. */
  function BendValue(data1: Byte, data2: Byte): (v: real)
    ensures -0.5 <= v < 1.5
    ensures v == 0.0 <==> RawBend(data1, data2) == 0x2000
  {
    RawBend(data1, data2) as real / 16384.0 - 0.5
  }

  /** For 7-bit data bytes the normalised bend lies in [-0.5, 0.5) and is
      zero exactly at the centre position (MSB 64, LSB 0). */
  lemma BendValueRange(data1: Byte, data2: Byte)
    requires data1 < 0x80 && data2 < 0x80
    ensures 0 <= RawBend(data1, data2) < 0x4000
    ensures -0.5 <= BendValue(data1, data2) < 0.5
    ensures BendValue(data1, data2) == 0.0 <==> data2 == 64 && data1 == 0
  {
    var raw := RawBend(data1, data2);
    assert raw == data2 * 0x80 + data1;
  }

  // ---------------------------------------------------------------
  // Modulation: the rest selection
  // ---------------------------------------------------------------

  /** Python's `round`: nearest integer, halves to the even neighbour. */
  function RoundHalfEven(x: real): (r: int)
    ensures -0.5 <= r as real - x <= 0.5
    ensures (r as real - x == 0.5 || x - r as real == 0.5) ==> r % 2 == 0
  {
    var f := x.Floor;
    var frac := x - f as real;
    if frac < 0.5 then f
    else if frac > 0.5 then f + 1
    else if f % 2 == 0 then f
    else f + 1
  }

  /** `7 - round(data2 / 127.0 * 7)`. No byte lies at a rounding tie
      (127 is prime), so floating-point error cannot change the result. */
  function RestSelection(data2: Byte): (sel: int)
    ensures data2 < 0x80 ==> 0 <= sel <= 7
    ensures data2 == 0 ==> sel == 7
    ensures data2 == 127 ==> sel == 0
  {
    7 - RoundHalfEven(data2 as real / 127.0 * 7.0)
  }

  /** The rest selection in integer arithmetic: 7 minus the nearest
      integer to 7 * data2 / 127. */
  lemma RestSelectionNearest(data2: Byte)
    ensures RestSelection(data2) == 7 - (14 * data2 + 127) / 254
  {
    var x := data2 as real / 127.0 * 7.0;
    var n := (14 * data2 + 127) / 254;
    assert n as real * 254.0 <= (14 * data2 + 127) as real < (n + 1) as real * 254.0;
    assert n as real <= x + 0.5 < (n + 1) as real;
    assert RoundHalfEven(x) == n;
  }

  // ---------------------------------------------------------------
  // One message
  // ---------------------------------------------------------------

  /** `packet = (status, data1, data2, data3)`; data3 is never read. */
  datatype Packet = Packet(status: Byte, data1: Byte, data2: Byte)

  /** The translation state the worker keeps between messages.
      `restSelection` is None until the first modulation message: the
      source never initialises that attribute. */
  datatype TState = TState(
    transpose: int, octave: int, period: int, useRockOctave: bool,
    lastBend: Option<int>, lastMod: Option<int>, restSelection: Option<int>)

  /** The new state, the keystrokes emitted in order, and whether the
      message raised (which ends the worker thread). */
  datatype StepResult = StepResult(state: TState, emitted: seq<KeyEvent>, raised: bool)

  /** The key a note message names: `SYMBOLS[note - ROOT_NOTE]` for the
      folded `data1 + transpose + octave`. */
  function NoteKey(data1: Byte, transpose: int, octave: int, period: int): (key: int)
    requires period > 0
    ensures key in SYMBOLS
  {
    SYMBOLS[FoldNote(data1 + transpose + octave, period) - ROOT_NOTE]
  }

  /** The keystrokes with which every message starts: the release of the
      modifier left pressed by the previous message, if any. */
  function AutoRelease(s: TState): seq<KeyEvent>
  {
    if s.lastMod.Some? then [Release(s.lastMod.value)] else []
  }

  /** Reference definition of one pass of the polling loop's body. */
  function Translate(s: TState, p: Packet): (r: StepResult)
    requires s.period > 0
    ensures r.state.period == s.period && r.state.transpose == s.transpose
    ensures r.state.useRockOctave == s.useRockOctave
  {
    var released := AutoRelease(s);
    var s1 := s.(lastMod := None);
    var d := Decode(p.status);
    if d.message == NOTE_ON || d.message == NOTE_OFF then
      var key := NoteKey(p.data1, s.transpose, s.octave, s.period);
      StepResult(s1, released + [if d.message == NOTE_ON then Press(key) else Release(key)], false)
    else if d.message == CONTROL_CHANGE then
      if p.data1 == 1 then
        var sel := RestSelection(p.data2);
        StepResult(s1.(restSelection := Some(sel), lastMod := Some(sel + F1_KEY)),
                   released + [Press(sel + F1_KEY)], false)
      else
        StepResult(s1, released, false)
    else if d.message == PITCH_BEND then
      var symbol := BendSymbol(BendValue(p.data1, p.data2));
      var bendReleased := if s.lastBend != symbol && s.lastBend.Some? then [Release(s.lastBend.value)] else [];
      var s2 := s1.(lastBend := symbol);
      if symbol.Some? then
        StepResult(s2, released + bendReleased + [Press(symbol.value)], false)
      else if s.restSelection.Some? then
        var key := s.restSelection.value + F1_KEY;
        StepResult(s2.(lastMod := Some(key)), released + bendReleased + [Press(key)], false)
      else
        StepResult(s2, released + bendReleased, true)
    else if s.useRockOctave && d.message == SYSETM then
      StepResult(s1.(octave := if Bit2(d.channel) then 0 else 12), released, false)
    else
      StepResult(s1, released, false)
  }

  // ---------------------------------------------------------------
  // What one message does
  // ---------------------------------------------------------------

  /** Modifier auto-release: whatever the message, a held modifier is
      released before anything else is emitted. Afterwards a modifier is
      held only if this message pressed it, as its last keystroke, and it
      is F1_KEY plus the current rest selection. */
  lemma ModifierReleasedFirst(s: TState, p: Packet)
    requires s.period > 0
    ensures var r := Translate(s, p);
      |AutoRelease(s)| <= |r.emitted| && r.emitted[..|AutoRelease(s)|] == AutoRelease(s)
    ensures var r := Translate(s, p);
      r.state.lastMod.Some? ==>
        !r.raised && r.emitted != [] && r.emitted[|r.emitted| - 1] == Press(r.state.lastMod.value) &&
        r.state.restSelection.Some? && r.state.lastMod.value == F1_KEY + r.state.restSelection.value
    ensures var r := Translate(s, p); var d := Decode(p.status);
      r.state.lastMod.Some? ==>
        (d.message == CONTROL_CHANGE && p.data1 == 1) ||
        (d.message == PITCH_BEND && BendSymbol(BendValue(p.data1, p.data2)).None?)
  {
  }

  /** A note message presses (NOTE_ON) or releases (NOTE_OFF) the key of
      its folded note, after the auto-release, and changes nothing else. */
  lemma NoteMessage(s: TState, p: Packet)
    requires s.period > 0
    requires Decode(p.status).message in {NOTE_ON, NOTE_OFF}
    ensures var key := NoteKey(p.data1, s.transpose, s.octave, s.period);
      Translate(s, p) == StepResult(s.(lastMod := None),
        AutoRelease(s) + [if Decode(p.status).message == NOTE_ON then Press(key) else Release(key)], false)
  {
  }

  /** NOTE_ON presses, and NOTE_OFF releases, the same key for the same
      incoming note under the same transpose, octave and period; that key
      is an entry of SYMBOLS. */
  lemma NoteOnOffPair(s: TState, t: TState, on: Packet, off: Packet)
    requires s.period > 0
    requires Decode(on.status).message == NOTE_ON && Decode(off.status).message == NOTE_OFF
    requires on.data1 == off.data1
    requires s.transpose == t.transpose && s.octave == t.octave && s.period == t.period
    ensures var key := NoteKey(on.data1, s.transpose, s.octave, s.period);
      key in SYMBOLS &&
      Translate(s, on).emitted == AutoRelease(s) + [Press(key)] &&
      Translate(t, off).emitted == AutoRelease(t) + [Release(key)]
  {
    NoteMessage(s, on);
    NoteMessage(t, off);
  }

  /** Modulation (controller 1) selects the rest key F1_KEY + (7 - round(7 *
      data2 / 127)), which for a 7-bit value is one of F1..F8, presses it
      and holds it as the modifier; any other controller emits nothing of
      its own and changes nothing but the auto-release. */
  lemma ControlChangeRest(s: TState, p: Packet)
    requires s.period > 0 && Decode(p.status).message == CONTROL_CHANGE
    ensures var r := Translate(s, p); var sel := RestSelection(p.data2);
      p.data1 == 1 ==>
        r.state == s.(restSelection := Some(sel), lastMod := Some(F1_KEY + sel)) &&
        r.emitted == AutoRelease(s) + [Press(F1_KEY + sel)] &&
        (p.data2 < 0x80 ==> F1_KEY <= F1_KEY + sel <= F1_KEY + 7)
    ensures var r := Translate(s, p);
      p.data1 != 1 ==> r.state == s.(lastMod := None) && r.emitted == AutoRelease(s)
    ensures !Translate(s, p).raised
  {
  }

  /** Pitch bend debouncing: the previous bend key is released only when
      the bucket changes (and there was one); the new bucket becomes
      `lastBend`; a directional key is pressed on every message, even an
      unchanged one; at the centre the rest key is pressed and held as
      the modifier instead, and that step raises if no modulation message
      has yet set the rest selection. */
  lemma PitchBendDebounce(s: TState, p: Packet)
    requires s.period > 0 && Decode(p.status).message == PITCH_BEND
    ensures var r := Translate(s, p); var symbol := BendSymbol(BendValue(p.data1, p.data2));
      var released := if s.lastBend != symbol && s.lastBend.Some? then [Release(s.lastBend.value)] else [];
      r.state.lastBend == symbol &&
      (symbol.Some? ==>
        !r.raised && r.state.lastMod.None? &&
        r.emitted == AutoRelease(s) + released + [Press(symbol.value)]) &&
      (symbol.None? && s.restSelection.Some? ==>
        !r.raised && r.state.lastMod == Some(F1_KEY + s.restSelection.value) &&
        r.emitted == AutoRelease(s) + released + [Press(F1_KEY + s.restSelection.value)]) &&
      (symbol.None? && s.restSelection.None? ==>
        r.raised && r.emitted == AutoRelease(s) + released)
    ensures var r := Translate(s, p);
      r.state.octave == s.octave && r.state.restSelection == s.restSelection
    ensures s.lastBend == BendSymbol(BendValue(p.data1, p.data2)) ==>
      forall e :: e in Translate(s, p).emitted[|AutoRelease(s)|..] ==> e.Press?
  {
  }

  /** With the rock-octave option on, a System message sets the octave
      shift from bit 2 of its channel nibble: 0 when set, 12 when clear.
      With the option off it is ignored like any unhandled kind. */
  lemma RockOctave(s: TState, p: Packet)
    requires s.period > 0 && Decode(p.status).message == SYSETM
    ensures var r := Translate(s, p);
      !r.raised && r.emitted == AutoRelease(s) &&
      r.state == s.(lastMod := None,
                    octave := if !s.useRockOctave then s.octave
                              else if Bit2(Decode(p.status).channel) then 0 else 12)
  {
  }

  /** Polyphonic pressure, program change and channel pressure only
      trigger the auto-release. */
  lemma OtherKindsIgnored(s: TState, p: Packet)
    requires s.period > 0
    requires Decode(p.status).message !in {NOTE_ON, NOTE_OFF, CONTROL_CHANGE, PITCH_BEND, SYSETM}
    ensures Translate(s, p) == StepResult(s.(lastMod := None), AutoRelease(s), false)
  {
  }

  /** A message raises exactly when it is a centred pitch bend arriving
      before any modulation message; once set, the rest selection stays
      set, so from then on no message raises. */
  lemma RaisesOnlyBeforeModulation(s: TState, p: Packet)
    requires s.period > 0
    ensures Translate(s, p).raised <==>
      Decode(p.status).message == PITCH_BEND &&
      BendSymbol(BendValue(p.data1, p.data2)).None? && s.restSelection.None?
    ensures s.restSelection.Some? ==> Translate(s, p).state.restSelection.Some?
  {
  }

  /** A stream of messages handled in order. A message that raises ends
      the worker thread, so nothing after it is translated. */
  function TranslateAll(s: TState, ps: seq<Packet>): (r: StepResult)
    requires s.period > 0
    ensures r.state.period == s.period && r.state.transpose == s.transpose
    ensures r.state.useRockOctave == s.useRockOctave
    ensures s.restSelection.Some? ==> !r.raised && r.state.restSelection.Some?
    decreases |ps|
  {
    if ps == [] then StepResult(s, [], false)
    else
      var h := Translate(s, ps[0]);
      RaisesOnlyBeforeModulation(s, ps[0]);
      if h.raised then h
      else
        var t := TranslateAll(h.state, ps[1..]);
        StepResult(t.state, h.emitted + t.emitted, t.raised)
  }

  /** One step of `TranslateAll`: the first message, then the rest from
      the state it leaves, unless it raised. */
  lemma TranslateAllCons(s: TState, ps: seq<Packet>)
    requires s.period > 0 && ps != []
    ensures var h := Translate(s, ps[0]); var r := TranslateAll(s, ps);
      (h.raised ==> r == h) &&
      (!h.raised ==>
        var t := TranslateAll(h.state, ps[1..]);
        r.state == t.state && r.emitted == h.emitted + t.emitted && r.raised == t.raised)
  {
  }

  /** Worked cases: with period 12 and no transpose, note 30 folds up to
      54 and types the seventh symbol ('G'); a centred bend while rest
      selection 3 is set presses F4; modulation at full value selects
      rest 0, and the next note message first releases that F1. */
  lemma Scenarios()
    ensures FoldNote(30, 12) == 54 && SYMBOLS[54 - ROOT_NOTE] == 0x47
    ensures var s := TState(0, 0, 12, false, Some(F1_KEY + 2), None, Some(3));
      Translate(s, Packet(0xE0, 0, 64)).emitted == [Release(F1_KEY + 2), Press(F1_KEY + 3)]
    ensures var s := TState(0, 0, 12, false, None, None, None);
      var r := Translate(s, Packet(0xB0, 1, 127));
      r.emitted == [Press(F1_KEY)] &&
      Translate(r.state, Packet(0x90, 60, 100)).emitted[0] == Release(F1_KEY)
  {
    SymbolsLayout();
    assert BendValue(0, 64) == 0.0;
    assert RestSelection(127) == 0;
  }
}
