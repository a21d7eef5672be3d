/**
 * The parts of the `Robot` class (sr/robot3/robot.py) that decide behaviour:
 * the list of Ruggeduinos to ignore, the metadata fetch that also resets the
 * cameras' marker offsets, and waiting for the start signal, with its
 * blinking start LEDs and the game timeout that follows.
 */
module Robot {
  import opened Wrappers
  import Astoria
  import Vision

  /** What the broker delivers to one metadata fetch: whether it refused the connection, and the messages in time. */
  datatype Fetch = Fetch(refused: bool, inbox: seq<Astoria.Event>)

  /** The serials to ignore: none when no list is given, else the given list. */
  function IgnoredSerials(ignored: Option<seq<string>>): (serials: seq<string>)
    ensures ignored.None? ==> serials == []
    ensures ignored.Some? ==> serials == ignored.value
  {
    match ignored
    case None => []
    case Some(list) => list
  }

  /** The fields of a serial port's `ListPortInfo` that matter here; a port may have no serial number. */
  datatype PortInfo = PortInfo(serialNumber: Option<string>, device: string)

  predicate IsIgnored(serials: seq<string>, port: PortInfo) {
    port.serialNumber.Some? && port.serialNumber.value in serials
  }

  /**
   * The record Ruggeduino discovery leaves behind when it has offered `ports`
   * (each with the base backend's `is_arduino` answer) in order: every ignored
   * port's serial mapped to its device, a later port with the same serial winning.
   */
  function IgnoredRecord(serials: seq<string>, ports: seq<(PortInfo, bool)>): map<string, string>
    decreases |ports|
  {
    if ports == [] then map[]
    else
      var before := IgnoredRecord(serials, ports[..|ports| - 1]);
      var port := ports[|ports| - 1].0;
      if IsIgnored(serials, port) then before[port.serialNumber.value := port.device] else before
  }

  /** The ports discovery accepts as Ruggeduinos, in order: those not ignored that the base backend accepts. */
  function AcceptedPorts(serials: seq<string>, ports: seq<(PortInfo, bool)>): seq<PortInfo>
    decreases |ports|
  {
    if ports == [] then []
    else
      var last := ports[|ports| - 1];
      AcceptedPorts(serials, ports[..|ports| - 1]) + (if !IsIgnored(serials, last.0) && last.1 then [last.0] else [])
  }

  /**
   * A serial is recorded exactly when some offered port with that serial is
   * ignored, and it is recorded with the device of the last such port.
   */
  lemma {:induction false} IgnoredRecordCharacterised(serials: seq<string>, ports: seq<(PortInfo, bool)>, serial: string)
    ensures serial in IgnoredRecord(serials, ports) <==>
      exists i :: 0 <= i < |ports| && IsIgnored(serials, ports[i].0) && ports[i].0.serialNumber == Some(serial)
    ensures serial in IgnoredRecord(serials, ports) ==>
      exists i :: 0 <= i < |ports| && IsIgnored(serials, ports[i].0) && ports[i].0.serialNumber == Some(serial)
        && IgnoredRecord(serials, ports)[serial] == ports[i].0.device
        && forall j :: i < j < |ports| ==> ports[j].0.serialNumber != Some(serial)
    decreases |ports|
  {
    if ports != [] {
      var n := |ports| - 1;
      var init := ports[..n];
      var last := ports[n].0;
      IgnoredRecordCharacterised(serials, init, serial);
      if IsIgnored(serials, last) && last.serialNumber == Some(serial) {
        assert IgnoredRecord(serials, ports)[serial] == last.device;
      } else {
        assert serial in IgnoredRecord(serials, ports) <==> serial in IgnoredRecord(serials, init);
        if exists i :: 0 <= i < |ports| && IsIgnored(serials, ports[i].0) && ports[i].0.serialNumber == Some(serial) {
          var i :| 0 <= i < |ports| && IsIgnored(serials, ports[i].0) && ports[i].0.serialNumber == Some(serial);
          assert i < n && init[i] == ports[i];
        }
        if serial in IgnoredRecord(serials, init) {
          var i :| 0 <= i < |init| && IsIgnored(serials, init[i].0) && init[i].0.serialNumber == Some(serial)
            && IgnoredRecord(serials, init)[serial] == init[i].0.device
            && forall j :: i < j < |init| ==> init[j].0.serialNumber != Some(serial);
          assert ports[i] == init[i];
          assert IgnoredRecord(serials, ports)[serial] == ports[i].0.device;
          assert last.serialNumber != Some(serial);
          assert forall j :: i < j < |ports| ==> ports[j].0.serialNumber != Some(serial) by {
            forall j | i < j < |ports| ensures ports[j].0.serialNumber != Some(serial) {
              if j < n {
                assert ports[j] == init[j];
              }
            }
          }
        }
      }
    }
  }

  /** A port is accepted exactly when it was offered, is not ignored and the base backend accepts it. */
  lemma {:induction false} AcceptedPortsCharacterised(serials: seq<string>, ports: seq<(PortInfo, bool)>, port: PortInfo)
    ensures port in AcceptedPorts(serials, ports) <==>
      exists i :: 0 <= i < |ports| && ports[i].0 == port && !IsIgnored(serials, port) && ports[i].1
    decreases |ports|
  {
    if ports != [] {
      var n := |ports| - 1;
      var init := ports[..n];
      AcceptedPortsCharacterised(serials, init, port);
      if exists i :: 0 <= i < |ports| && ports[i].0 == port && !IsIgnored(serials, port) && ports[i].1 {
        var i :| 0 <= i < |ports| && ports[i].0 == port && !IsIgnored(serials, port) && ports[i].1;
        if i < n {
          assert init[i] == ports[i];
        }
      }
      if exists i :: 0 <= i < |init| && init[i].0 == port && !IsIgnored(serials, port) && init[i].1 {
        var i :| 0 <= i < |init| && init[i].0 == port && !IsIgnored(serials, port) && init[i].1;
        assert ports[i] == init[i];
      }
    }
  }

  /**
   * One evaluation of the start loop's guard: whether the start button reads
   * pressed, and whether the shared start event is set (by the broadcast consumer).
   * The button is read once and discarded before the loop; `checks[0]` is the
   * first guard evaluation after that read.
   */
  datatype StartCheck = StartCheck(pressed: bool, eventSet: bool)

  predicate Fires(check: StartCheck) {
    check.pressed || check.eventSet
  }

  /** The first check at which the loop stops, or `|checks|` if none does. */
  function FirstFire(checks: seq<StartCheck>): (k: nat)
    ensures k <= |checks|
    ensures k < |checks| ==> Fires(checks[k])
    ensures forall j :: 0 <= j < k ==> !Fires(checks[j])
  {
    if checks == [] then 0 else if Fires(checks[0]) then 0 else 1 + FirstFire(checks[1..])
  }

  /** `led_state` after `n` iterations of the blink loop: it flips on every iteration whose counter is a multiple of 6. */
  function LedState(n: nat): bool {
    if n == 0 then false
    else if (n - 1) % 6 == 0 then !LedState(n - 1)
    else LedState(n - 1)
  }

  /** The states written to the run LED (and to the KCH start LED) during the first `n` iterations. */
  function BlinkWrites(n: nat): seq<bool> {
    if n == 0 then []
    else BlinkWrites(n - 1) + (if (n - 1) % 6 == 0 then [LedState(n)] else [])
  }

  /**
   * After `n` iterations the LEDs have been written ceil(n/6) times, with
   * alternating states starting from on, and `led_state` is the last of them.
   */
  lemma {:induction false} BlinkClosedForm(n: nat)
    ensures |BlinkWrites(n)| == (n + 5) / 6
    ensures forall k :: 0 <= k < |BlinkWrites(n)| ==> BlinkWrites(n)[k] == (k % 2 == 0)
    ensures LedState(n) == ((n + 5) / 6 % 2 == 1)
  {
    if n > 0 {
      var m := n - 1;
      BlinkClosedForm(m);
      var q := m / 6;
      assert m == 6 * q + m % 6;
      if m % 6 == 0 {
        assert (m + 5) / 6 == q;
        assert (n + 5) / 6 == q + 1;
      } else {
        assert (m + 5) / 6 == q + 1;
        assert (n + 5) / 6 == q + 1;
      }
    }
  }

  /** A hardware LED (the power board's run LED) and the states written to it. */
  class Led {
    var state: bool
    var writes: seq<bool>

    constructor (state: bool)
      ensures this.state == state && writes == []
    {
      this.state := state;
      writes := [];
    }

    method SetState(value: bool)
      modifies this
      ensures state == value && writes == old(writes) + [value]
    {
      state := value;
      writes := writes + [value];
    }
  }

  /** The KCH's `start` LED, and the values assigned to it. */
  class KchStartLed {
    var start: bool
    var startWrites: seq<bool>

    constructor (start: bool)
      ensures this.start == start && startWrites == []
    {
      this.start := start;
      startWrites := [];
    }

    method SetStart(value: bool)
      modifies this
      ensures start == value && startWrites == old(startWrites) + [value]
    {
      start := value;
      startWrites := startWrites + [value];
    }
  }

  class Robot {
    const ignoredRuggeduinoSerials: seq<string>
    /** Serial number -> device of every ignored Ruggeduino seen during discovery. */
    var ignoredRuggeduinos: map<string, string>
    var metadata: Astoria.Metadata
    var codePath: string
    var cameras: seq<Vision.SRZolotoCamera>
    /** The ports discovery accepted as Ruggeduinos. */
    var ruggeduinoPorts: seq<PortInfo>
    const runLed: Led
    const kch: KchStartLed
    /** The game timeouts passed to `kill_after_delay`, oldest first. */
    var killAfterDelays: seq<int>
    ghost var waitStartCalls: nat

    /**
     * `__init__`, with discovery replaced by its answers: the two metadata
     * fetches, the camera ids found, the serial ports Ruggeduino discovery
     * offers (each with the base backend's `is_arduino` answer), and the
     * start checks observed if the robot waits for the start signal. The robot waits exactly when
     * `autoStart` is false.
     */
    constructor (autoStart: bool, ignored: Option<seq<string>>, runLed: Led, kch: KchStartLed,
                 defaults: Astoria.Metadata, boot: Fetch, cameraIds: seq<int>,
                 ports: seq<(PortInfo, bool)>, checks: seq<StartCheck>, reload: Fetch)
      modifies runLed, kch
      ensures this.runLed == runLed && this.kch == kch
      ensures ignoredRuggeduinoSerials == IgnoredSerials(ignored)
      ensures ignoredRuggeduinos == IgnoredRecord(IgnoredSerials(ignored), ports)
      ensures ruggeduinoPorts == AcceptedPorts(IgnoredSerials(ignored), ports)
      ensures |cameras| == |cameraIds|
      ensures forall i :: 0 <= i < |cameras| ==> fresh(cameras[i]) && cameras[i].cameraId == cameraIds[i]
      ensures waitStartCalls == if autoStart then 0 else 1
      ensures var started := !autoStart && FirstFire(checks) < |checks|;
        var fetch := if started then reload else boot;
        && Astoria.GetMetadataResult(metadata, codePath) == Astoria.FetchedMetadata(defaults, fetch.refused, fetch.inbox)
        && killAfterDelays == (if started && metadata.gameTimeout.Some? then [metadata.gameTimeout.value] else [])
      ensures autoStart ==> runLed.writes == old(runLed.writes) && kch.startWrites == old(kch.startWrites)
      ensures !autoStart ==>
        var started := FirstFire(checks) < |checks|;
        && runLed.writes == old(runLed.writes) + BlinkWrites(FirstFire(checks)) + (if started then [true] else [])
        && kch.startWrites == old(kch.startWrites) + BlinkWrites(FirstFire(checks)) + (if started then [false] else [])
      ensures forall c :: c in cameras ==> c.markerOffset == metadata.markerOffset
    {
      this.ignoredRuggeduinoSerials := IgnoredSerials(ignored);
      this.runLed := runLed;
      this.kch := kch;
      ignoredRuggeduinos := map[];
      ruggeduinoPorts := [];
      killAfterDelays := [];
      waitStartCalls := 0;
      // No camera exists yet, so the first metadata fetch resets no offset.
      cameras := [];
      metadata := defaults;
      codePath := Astoria.NullDevice;
      new;
      InitMetadata(defaults, boot);
      InitCameras(cameraIds);
      InitRuggeduinos(ports);
      if !autoStart {
        var _ := WaitStart(checks, defaults, reload);
      }
    }

    /** `_init_cameras`: one camera per id found, each with the current marker offset. */
    method InitCameras(cameraIds: seq<int>)
      modifies this`cameras
      ensures |cameras| == |cameraIds|
      ensures forall i :: 0 <= i < |cameras| ==> fresh(cameras[i]) && cameras[i].cameraId == cameraIds[i]
      ensures forall c :: c in cameras ==> c.markerOffset == metadata.markerOffset
    {
      cameras := [];
      for i := 0 to |cameraIds|
        invariant |cameras| == i
        invariant forall k :: 0 <= k < i ==> fresh(cameras[k]) && cameras[k].cameraId == cameraIds[k]
        invariant forall c :: c in cameras ==> c.markerOffset == metadata.markerOffset
      {
        var camera := new Vision.SRZolotoCamera(cameraIds[i], metadata.markerOffset);
        cameras := cameras + [camera];
      }
    }

    /**
     * `_init_ruggeduinos`: starts an empty record, then discovery asks
     * `is_arduino` about each offered port in turn.
     */
    method InitRuggeduinos(ports: seq<(PortInfo, bool)>)
      modifies this`ignoredRuggeduinos, this`ruggeduinoPorts
      ensures ignoredRuggeduinos == IgnoredRecord(ignoredRuggeduinoSerials, ports)
      ensures ruggeduinoPorts == AcceptedPorts(ignoredRuggeduinoSerials, ports)
    {
      ignoredRuggeduinos := map[];
      var accepted := [];
      for i := 0 to |ports|
        invariant ignoredRuggeduinos == IgnoredRecord(ignoredRuggeduinoSerials, ports[..i])
        invariant accepted == AcceptedPorts(ignoredRuggeduinoSerials, ports[..i])
      {
        assert ports[..i + 1][..i] == ports[..i];
        var isArduino := IsArduino(ports[i].0, ports[i].1);
        if isArduino {
          accepted := accepted + [ports[i].0];
        }
      }
      assert ports[..|ports|] == ports;
      ruggeduinoPorts := accepted;
    }

    /** `_init_metadata`: fetch the metadata and USB path, and give every existing camera the new marker offset. */
    method InitMetadata(defaults: Astoria.Metadata, fetch: Fetch)
      modifies this`metadata, this`codePath, set c | c in cameras
      ensures Astoria.GetMetadataResult(metadata, codePath) == Astoria.FetchedMetadata(defaults, fetch.refused, fetch.inbox)
      ensures forall c :: c in cameras ==> c.markerOffset == metadata.markerOffset
    {
      var fetched := Astoria.GetMetadata(defaults, fetch.refused, fetch.inbox);
      metadata, codePath := fetched.metadata, fetched.usbPath;
      var offset := metadata.markerOffset;
      for i := 0 to |cameras|
        invariant metadata == fetched.metadata && codePath == fetched.usbPath
        invariant forall k :: 0 <= k < i ==> cameras[k].markerOffset == offset
      {
        cameras[i].markerOffset := offset;
      }
    }

    /**
     * `is_arduino` of the backend that skips ignored Ruggeduinos: an ignored
     * port is recorded and rejected; any other answer is the base backend's
     * (`baseIsArduino`).
     */
    method IsArduino(port: PortInfo, baseIsArduino: bool) returns (r: bool)
      modifies this`ignoredRuggeduinos
      ensures IsIgnored(ignoredRuggeduinoSerials, port) ==>
        !r && ignoredRuggeduinos == old(ignoredRuggeduinos)[port.serialNumber.value := port.device]
      ensures !IsIgnored(ignoredRuggeduinoSerials, port) ==>
        r == baseIsArduino && ignoredRuggeduinos == old(ignoredRuggeduinos)
    {
      if port.serialNumber.Some? && port.serialNumber.value in ignoredRuggeduinoSerials {
        ignoredRuggeduinos := ignoredRuggeduinos[port.serialNumber.value := port.device];
        return false;
      }
      return baseIsArduino;
    }

    /**
     * `wait_for_physical_start`: blink the run LED and the KCH start LED until
     * the button is pressed or the start event is set, then set the event and
     * leave the run LED on and the start LED off. If the checks run out first
     * the loop is still waiting (`started` is false).
     */
    method WaitForPhysicalStart(checks: seq<StartCheck>, startEvent: Astoria.StartEvent)
      returns (started: bool, iterations: nat)
      modifies runLed, kch, startEvent
      ensures iterations == FirstFire(checks) && started == (iterations < |checks|)
      ensures runLed.writes == old(runLed.writes) + BlinkWrites(iterations) + (if started then [true] else [])
      ensures kch.startWrites == old(kch.startWrites) + BlinkWrites(iterations) + (if started then [false] else [])
      ensures started ==> startEvent.isSet && runLed.state && !kch.start
      ensures !started ==> startEvent.isSet == old(startEvent.isSet)
    {
      var counter := 0;
      var ledState := false;
      while counter < |checks| && !checks[counter].pressed && !checks[counter].eventSet
        invariant 0 <= counter <= FirstFire(checks)
        invariant ledState == LedState(counter)
        invariant runLed.writes == old(runLed.writes) + BlinkWrites(counter)
        invariant kch.startWrites == old(kch.startWrites) + BlinkWrites(counter)
        invariant startEvent.isSet == old(startEvent.isSet)
      {
        if counter % 6 == 0 {
          ledState := !ledState;
          runLed.SetState(ledState);
          kch.SetStart(ledState);
        }
        counter := counter + 1;
      }
      iterations := counter;
      if counter == |checks| {
        return false, iterations;
      }
      startEvent.Set();
      runLed.SetState(true);
      kch.SetStart(false);
      started := true;
    }

    /**
     * `wait_start`: once started, reload the metadata (a metadata USB may have
     * been inserted meanwhile) and arm the game timeout exactly when the
     * reloaded metadata has one.
     */
    method WaitStart(checks: seq<StartCheck>, defaults: Astoria.Metadata, reload: Fetch) returns (started: bool)
      modifies this`metadata, this`codePath, this`killAfterDelays, this`waitStartCalls
      modifies runLed, kch, set c | c in cameras
      ensures waitStartCalls == old(waitStartCalls) + 1
      ensures started == (FirstFire(checks) < |checks|)
      ensures runLed.writes == old(runLed.writes) + BlinkWrites(FirstFire(checks)) + (if started then [true] else [])
      ensures kch.startWrites == old(kch.startWrites) + BlinkWrites(FirstFire(checks)) + (if started then [false] else [])
      ensures started ==>
        && Astoria.GetMetadataResult(metadata, codePath) == Astoria.FetchedMetadata(defaults, reload.refused, reload.inbox)
        && (forall c :: c in cameras ==> c.markerOffset == metadata.markerOffset)
        && killAfterDelays == old(killAfterDelays) + (if metadata.gameTimeout.Some? then [metadata.gameTimeout.value] else [])
      ensures !started ==>
        && metadata == old(metadata) && codePath == old(codePath) && killAfterDelays == old(killAfterDelays)
        && (forall c :: c in cameras ==> c.markerOffset == old(c.markerOffset))
    {
      waitStartCalls := waitStartCalls + 1;
      var startEvent := new Astoria.StartEvent();
      var iterations;
      started, iterations := WaitForPhysicalStart(checks, startEvent);
      if !started {
        return;
      }
      InitMetadata(defaults, reload);
      if metadata.gameTimeout.Some? {
        killAfterDelays := killAfterDelays + [metadata.gameTimeout.value];
      }
    }
  }
}
