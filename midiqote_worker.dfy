/** The `midiqote` worker thread as a sequential state machine: the
    single-slot device mailbox that `set_device` writes and the worker
    consumes when it opens a port, the open/listen/close cycle of `run`,
    the setters called from the user interface, and the translation state
    that `run` updates message by message. Keystrokes go to a log instead
    of `keybd_event`; ports are recorded as open/close events instead of
    driver calls. */
module MidiqoteWorker {
  import opened MidiWire
  import opened Midiqote

  datatype PortEvent = Opened(device: int) | Closed(device: int)

  /** Opens and closes alternate, starting with an open, and each close
      is of the device opened just before it. */
  ghost predicate PortsAlternate(log: seq<PortEvent>)
  {
    forall i :: 0 <= i < |log| ==>
      (log[i].Opened? <==> i % 2 == 0) &&
      (i % 2 == 1 ==> log[i].device == log[i - 1].device)
  }

  /** Ports opened and not yet closed. */
  function OpenCount(log: seq<PortEvent>): int
  {
    if log == [] then 0
    else OpenCount(log[..|log| - 1]) + (if log[|log| - 1].Opened? then 1 else -1)
  }

  /** At most one port is open at any time: under alternation the number
      of open ports is 0 or 1, and 1 exactly after an open. */
  lemma {:induction false} OneOpenPort(log: seq<PortEvent>)
    requires PortsAlternate(log)
    ensures OpenCount(log) == |log| % 2
    ensures 0 <= OpenCount(log) <= 1
  {
    if log != [] {
      var init := log[..|log| - 1];
      assert forall i :: 0 <= i < |init| ==> init[i] == log[i];
      OneOpenPort(init);
    }
  }

  /** The fields of the worker that concern devices rather than messages. */
  datatype Devices = Devices(
    live: bool, current: Option<int>, pending: Option<int>, changed: bool,
    driverResets: nat, ports: seq<PortEvent>)

  class Worker {
    var live: bool
    var currentDevice: Option<int>
    var pendingDevice: Option<int>
    /** The `device_changed` event, as a flag. */
    var deviceChanged: bool
    /** How often the driver was torn down and re-initialised because it
        still reported the pending device open. */
    var driverResets: nat
    var ports: seq<PortEvent>

    var useRockOctave: bool
    var transpose: int
    var octave: int
    var period: int
    var lastBend: Option<int>
    var lastMod: Option<int>
    var restSelection: Option<int>

    /** Every keystroke sent, in order. */
    var keys: seq<KeyEvent>
    /** The worker thread ended with an exception. */
    var crashed: bool

    ghost predicate Valid()
      reads this
    {
      period > 0 &&
      PortsAlternate(ports) &&
      currentDevice == (if |ports| % 2 == 1 then Some(ports[|ports| - 1].device) else None) &&
      (pendingDevice.Some? <==> deviceChanged)
    }

    function State(): TState
      reads this
    {
      TState(transpose, octave, period, useRockOctave, lastBend, lastMod, restSelection)
    }

    function DeviceFields(): Devices
      reads this
    {
      Devices(live, currentDevice, pendingDevice, deviceChanged, driverResets, ports)
    }

    constructor ()
      ensures Valid()
      ensures DeviceFields() == Devices(true, None, None, false, 0, [])
      ensures State() == TState(0, 0, 12, false, None, None, None)
      ensures keys == [] && !crashed
    {
      live := true;
      currentDevice, pendingDevice, deviceChanged := None, None, false;
      driverResets, ports := 0, [];
      useRockOctave := false;
      transpose, octave, period := 0, 0, 12;
      lastBend, lastMod, restSelection := None, None, None;
      keys, crashed := [], false;
    }

    /** `set_device`: store the request in the single slot, overwriting any
        request not yet consumed, and signal the worker. Nothing compares
        it with the current device, so re-selecting the open device still
        closes and reopens it. */
    method SetDevice(id: int)
      requires Valid()
      modifies this
      ensures Valid()
      ensures DeviceFields() == old(DeviceFields()).(pending := Some(id), changed := true)
      ensures State() == old(State()) && keys == old(keys) && crashed == old(crashed)
    {
      pendingDevice := Some(id);
      deviceChanged := true;
    }

    /** The opening half of one pass of `run`: clear the signal, take the
        pending device (resetting the driver first if it still reports
        that device open), make it current and empty the slot. The two
        assertions of the source are the precondition. */
    method OpenPending(reportedOpen: bool)
      requires Valid() && !crashed
      requires currentDevice == None && pendingDevice.Some?
      modifies this
      ensures Valid()
      ensures currentDevice == old(pendingDevice) && pendingDevice == None && !deviceChanged
      ensures ports == old(ports) + [Opened(old(pendingDevice).value)]
      ensures driverResets == old(driverResets) + (if reportedOpen then 1 else 0)
      ensures live == old(live)
      ensures State() == old(State()) && keys == old(keys) && crashed == old(crashed)
    {
      deviceChanged := false;
      if reportedOpen {
        driverResets := driverResets + 1;
      }
      var device := pendingDevice.value;
      currentDevice := Some(device);
      ports := ports + [Opened(device)];
      pendingDevice := None;
    }

    /** The closing half of one pass of `run`. */
    method ClosePort()
      requires Valid() && currentDevice.Some? && !crashed
      modifies this
      ensures Valid()
      ensures DeviceFields() == old(DeviceFields()).(current := None, ports := old(ports) + [Closed(old(currentDevice).value)])
      ensures State() == old(State()) && keys == old(keys) && crashed == old(crashed)
    {
      ports := ports + [Closed(currentDevice.value)];
      currentDevice := None;
    }

    /** One message read from the open port: the body of the polling loop. */
    method HandlePacket(p: Packet)
      requires Valid() && !crashed
      modifies this
      ensures Valid() && DeviceFields() == old(DeviceFields())
      ensures var r := Translate(old(State()), p);
        State() == r.state && keys == old(keys) + r.emitted && crashed == r.raised
    {
      ghost var s0, k0 := State(), keys;
      ghost var r := Translate(s0, p);
      ReleaseModifier();
      ghost var k1 := keys;
      var d := Decode(p.status);
      if d.message == NOTE_ON || d.message == NOTE_OFF {
        NoteMessage(s0, p);
        PlayNote(p.data1, d.message == NOTE_ON);
      } else if d.message == CONTROL_CHANGE {
        ControlChangeRest(s0, p);
        ControlChange(p.data1, p.data2);
      } else if d.message == PITCH_BEND {
        BendStep(p, s0, k0);
      } else if useRockOctave && d.message == SYSETM {
        RockOctave(s0, p);
        octave := if Bit2(d.channel) then 0 else 12;
      } else if d.message == SYSETM {
        RockOctave(s0, p);
      } else {
        OtherKindsIgnored(s0, p);
      }
    }

    /** The pitch-bend arm of `HandlePacket`, after the auto-release:
        brings the worker to the state `Translate` prescribes. */
    method BendStep(p: Packet, ghost s0: TState, ghost k0: seq<KeyEvent>)
      requires Valid() && !crashed && Decode(p.status).message == PITCH_BEND
      requires s0.period > 0 && State() == s0.(lastMod := None) && keys == k0 + AutoRelease(s0)
      modifies this
      ensures Valid() && DeviceFields() == old(DeviceFields())
      ensures var r := Translate(s0, p);
        State() == r.state && keys == k0 + r.emitted && crashed == r.raised
    {
      PitchBendDebounce(s0, p);
      PitchBend(p.data1, p.data2);
    }

    /** A modifier left pressed by the previous message is released first. */
    method ReleaseModifier()
      requires Valid() && !crashed
      modifies this
      ensures Valid() && DeviceFields() == old(DeviceFields()) && !crashed
      ensures State() == old(State()).(lastMod := None)
      ensures keys == old(keys) + AutoRelease(old(State()))
    {
      if lastMod.Some? {
        keys := keys + [Release(lastMod.value)];
        lastMod := None;
      }
    }

    /** NOTE_ON / NOTE_OFF: fold the transposed note into the window and
        press or release its symbol. */
    method PlayNote(data1: Byte, on: bool)
      requires Valid() && !crashed
      modifies this
      ensures Valid() && DeviceFields() == old(DeviceFields()) && !crashed
      ensures State() == old(State())
      ensures var key := NoteKey(data1, transpose, octave, period);
        keys == old(keys) + [if on then Press(key) else Release(key)]
    {
      var note := WrapNote(data1 + transpose + octave, period);
      var symbol := SYMBOLS[note - ROOT_NOTE];
      if on {
        keys := keys + [Press(symbol)];
      } else {
        keys := keys + [Release(symbol)];
      }
    }

    /** CONTROL_CHANGE: controller 1 selects, presses and holds a rest key. */
    method ControlChange(control: Byte, value: Byte)
      requires Valid() && !crashed
      modifies this
      ensures Valid() && DeviceFields() == old(DeviceFields()) && !crashed
      ensures var sel := RestSelection(value);
        if control == 1 then
          State() == old(State()).(restSelection := Some(sel), lastMod := Some(sel + F1_KEY)) &&
          keys == old(keys) + [Press(sel + F1_KEY)]
        else
          State() == old(State()) && keys == old(keys)
    {
      if control == 1 {
        var selection := RestSelection(value);
        restSelection := Some(selection);
        lastMod := Some(selection + F1_KEY);
        keys := keys + [Press(selection + F1_KEY)];
      }
    }

    /** PITCH_BEND: release the previous bend key if the bucket changed,
        then press the new one, or at the centre the rest key. */
    method PitchBend(data1: Byte, data2: Byte)
      requires Valid() && !crashed
      modifies this
      ensures Valid() && DeviceFields() == old(DeviceFields())
      ensures var symbol := BendSymbol(BendValue(data1, data2));
        var released := if old(lastBend) != symbol && old(lastBend).Some? then [Release(old(lastBend).value)] else [];
        lastBend == symbol &&
        transpose == old(transpose) && octave == old(octave) && period == old(period) &&
        useRockOctave == old(useRockOctave) && restSelection == old(restSelection) &&
        (symbol.Some? ==>
          !crashed && lastMod == old(lastMod) && keys == old(keys) + released + [Press(symbol.value)]) &&
        (symbol.None? && restSelection.Some? ==>
          !crashed && lastMod == Some(restSelection.value + F1_KEY) &&
          keys == old(keys) + released + [Press(restSelection.value + F1_KEY)]) &&
        (symbol.None? && restSelection.None? ==>
          crashed && lastMod == old(lastMod) && keys == old(keys) + released)
    {
      var symbol := BendSymbol(BendValue(data1, data2));
      if lastBend != symbol {
        if lastBend.Some? {
          keys := keys + [Release(lastBend.value)];
        }
        lastBend := symbol;
      }
      if symbol.Some? {
        keys := keys + [Press(symbol.value)];
      } else if restSelection.None? {
        crashed := true;  // AttributeError: rest_selection was never assigned
      } else {
        lastMod := Some(restSelection.value + F1_KEY);
        keys := keys + [Press(restSelection.value + F1_KEY)];
      }
    }

    /** One drain of the polling loop of `run`: the messages `poll()`
        yields before the worker next sleeps. Whether the worker is live
        and no new device has been requested is tested once, before the
        drain; inside it only liveness is tested, so a switch request
        takes effect after the drain in progress. The messages are handled
        in arrival order, stopping at a raise. */
    method Listen(packets: seq<Packet>)
      requires Valid() && currentDevice.Some? && !crashed
      modifies this
      ensures Valid() && DeviceFields() == old(DeviceFields())
      ensures var r := if old(live && !deviceChanged) then TranslateAll(old(State()), packets)
                       else StepResult(old(State()), [], false);
        State() == r.state && keys == old(keys) + r.emitted && crashed == r.raised
    {
      if !(live && !deviceChanged) {
        return;
      }
      ghost var s0, k0 := State(), keys;
      ghost var all := TranslateAll(s0, packets);
      var i := 0;
      while i < |packets| && live && !crashed
        invariant 0 <= i <= |packets|
        invariant Valid() && DeviceFields() == old(DeviceFields()) && live
        invariant !crashed ==>
          var rest := TranslateAll(State(), packets[i..]);
          rest.state == all.state && k0 + all.emitted == keys + rest.emitted && rest.raised == all.raised
        invariant crashed ==> State() == all.state && keys == k0 + all.emitted && all.raised
      {
        ListenStep(packets, i, all, k0);
        i := i + 1;
      }
    }

    /** One pass of the drain loop, keeping `Listen`'s invariant: what is
        still to come, translated from the current state, completes the
        translation of the whole drain. */
    method ListenStep(packets: seq<Packet>, i: nat, ghost all: StepResult, ghost k0: seq<KeyEvent>)
      requires Valid() && !crashed && i < |packets|
      requires var rest := TranslateAll(State(), packets[i..]);
        rest.state == all.state && k0 + all.emitted == keys + rest.emitted && rest.raised == all.raised
      modifies this
      ensures Valid() && DeviceFields() == old(DeviceFields())
      ensures !crashed ==>
        var rest := TranslateAll(State(), packets[i + 1..]);
        rest.state == all.state && k0 + all.emitted == keys + rest.emitted && rest.raised == all.raised
      ensures crashed ==> State() == all.state && keys == k0 + all.emitted && all.raised
    {
      TranslateAllCons(State(), packets[i..]);
      assert packets[i..][1..] == packets[i + 1..];
      HandlePacket(packets[i]);
    }

    /** `shutdown`: clear the liveness flag; the worker stops polling and
        its port is then closed. */
    method Shutdown()
      requires Valid()
      modifies this
      ensures Valid() && DeviceFields() == old(DeviceFields()).(live := false)
      ensures State() == old(State()) && keys == old(keys) && crashed == old(crashed)
    {
      live := false;
    }

    method SetRockOctave(checked: bool)
      requires Valid()
      modifies this
      ensures Valid() && DeviceFields() == old(DeviceFields())
      ensures State() == old(State()).(useRockOctave := checked)
      ensures keys == old(keys) && crashed == old(crashed)
    {
      useRockOctave := checked;
    }

    /** `set_transpose`: the spin control names the incoming note that
        should play as middle C. */
    method SetTranspose(middleC: int)
      requires Valid()
      modifies this
      ensures Valid() && DeviceFields() == old(DeviceFields())
      ensures State() == old(State()).(transpose := MIDDLE_C - middleC)
      ensures keys == old(keys) && crashed == old(crashed)
    {
      transpose := MIDDLE_C - middleC;
    }

    /** `set_period`: the source asserts 0 < period < len(SYMBOLS). */
    method SetPeriod(value: int)
      requires Valid() && 0 < value < |SYMBOLS|
      modifies this
      ensures Valid() && DeviceFields() == old(DeviceFields())
      ensures State() == old(State()).(period := value)
      ensures keys == old(keys) && crashed == old(crashed)
    {
      period := value;
    }
  }

  /** Selecting the device that is already open is not ignored: the
      worker closes it and opens it again. */
  method ReselectReopens(device: int) returns (w: Worker)
    ensures w.ports == [Opened(device), Closed(device), Opened(device)]
    ensures w.currentDevice == Some(device) && w.pendingDevice == None
  {
    w := new Worker();
    w.SetDevice(device);
    w.OpenPending(false);
    assert w.ports == [Opened(device)] && w.currentDevice == Some(device);
    w.SetDevice(device);
    assert w.live && w.deviceChanged && !w.crashed;
    w.Listen([Packet(0x90, 60, 100)]);
    assert w.keys == [] && w.ports == [Opened(device)];
    w.ClosePort();
    assert w.ports == [Opened(device), Closed(device)];
    w.OpenPending(false);
  }

  /** Two requests before the worker wakes: the later one wins. */
  method LastRequestWins(first: int, second: int) returns (w: Worker)
    ensures w.ports == [Opened(second)] && w.pendingDevice == None
  {
    w := new Worker();
    w.SetDevice(first);
    w.SetDevice(second);
    w.OpenPending(false);
  }
}
