/**
 * The integration with Astoria (sr/robot3/astoria.py): a one-shot consumer
 * that collects the metadata and process-manager status messages and gives
 * defaults when they do not both arrive in time, and a consumer that waits
 * for a start-button broadcast.
 *
 * A consumer run is modelled as a walk over the messages that arrive before
 * the 0.1 second budget runs out (`inbox`); running out of messages is the
 * timeout.
 */
module Astoria {
  import opened Wrappers

  /** The status field of a manager status message. */
  datatype Status = Running | NotRunning

  /** A payload on a status topic: JSON that did not decode, or a parsed message. */
  datatype Incoming<T> = DecodeError | Parsed(status: Status, body: T)

  /** Astoria's metadata, reduced to the fields the robot reads. */
  datatype Metadata = Metadata(markerOffset: int, gameTimeout: Option<int>)

  datatype DiskInfo = DiskInfo(mountPath: string)

  /** The part of a process-manager status message the robot reads. */
  datatype ProcessInfo = ProcessInfo(diskInfo: Option<DiskInfo>)

  /** A message on one of the two topics the metadata consumer subscribes to. */
  datatype Event = Astmetad(meta: Incoming<Metadata>) | Astprocd(proc: Incoming<ProcessInfo>)

  /** How a consumer's run ends: it halted itself, the time budget ran out, or the broker refused the connection. */
  datatype RunOutcome = Halted | TimedOut | ConnRefused

  datatype GetMetadataResult = GetMetadataResult(metadata: Metadata, usbPath: string)

  const NullDevice: string := "/dev/null"

  /** The state of a metadata consumer: its two message slots and whether it asked to halt. */
  datatype Slots = Slots(metadata: Option<Metadata>, proc: Option<ProcessInfo>, halted: bool)

  const EmptySlots: Slots := Slots(None, None, false)

  /** A slot after a handler: it takes the body of a running message and is otherwise untouched. */
  function Keep<T>(slot: Option<T>, m: Incoming<T>): Option<T> {
    if m.Parsed? && m.status == Running then Some(m.body) else slot
  }

  /** One handler call: fill the slot of the message's topic, then halt if both slots are filled. */
  function Handle(s: Slots, e: Event): Slots {
    var filled := match e
      case Astmetad(m) => s.(metadata := Keep(s.metadata, m))
      case Astprocd(p) => s.(proc := Keep(s.proc, p));
    filled.(halted := s.halted || (filled.metadata.Some? && filled.proc.Some?))
  }

  /** The consumer's wait loop: handle messages in arrival order until it halts or no message is left. */
  function Consume(s: Slots, inbox: seq<Event>): Slots
    decreases |inbox|
  {
    if s.halted || inbox == [] then s else Consume(Handle(s, inbox[0]), inbox[1..])
  }

  /** The consumer has halted exactly when both slots are filled. */
  ghost predicate Coherent(s: Slots) {
    s.halted <==> s.metadata.Some? && s.proc.Some?
  }

  predicate RunningMeta(e: Event) {
    e.Astmetad? && e.meta.Parsed? && e.meta.status == Running
  }

  predicate RunningProc(e: Event) {
    e.Astprocd? && e.proc.Parsed? && e.proc.status == Running
  }

  /** A message that neither handler stores: a decode failure or a non-running status. */
  predicate Ignored(e: Event) {
    !RunningMeta(e) && !RunningProc(e)
  }

  /** After either handler the halt has been asked for exactly when both slots are filled. */
  lemma HandleKeepsCoherent(s: Slots, e: Event)
    requires Coherent(s)
    ensures Coherent(Handle(s, e))
    ensures Handle(s, e).halted <==> Handle(s, e).metadata.Some? && Handle(s, e).proc.Some?
  {
  }

  /** A message neither handler stores changes nothing. */
  lemma IgnoredMessageInert(s: Slots, e: Event)
    requires Coherent(s) && Ignored(e)
    ensures Handle(s, e) == s
  {
  }

  /**
   * A decode failure or non-running status message behaves exactly as if it
   * had never arrived.
   */
  lemma {:induction false} IgnoredMessageInvisible(s: Slots, before: seq<Event>, e: Event, after: seq<Event>)
    requires Coherent(s) && Ignored(e)
    ensures Consume(s, before + [e] + after) == Consume(s, before + after)
    decreases |before|
  {
    if s.halted {
    } else if before == [] {
      assert before + [e] + after == [e] + after;
      assert before + after == after;
      assert ([e] + after)[1..] == after;
      IgnoredMessageInert(s, e);
    } else {
      HandleKeepsCoherent(s, before[0]);
      assert (before + [e] + after)[1..] == before[1..] + [e] + after;
      assert (before + after)[1..] == before[1..] + after;
      IgnoredMessageInvisible(Handle(s, before[0]), before[1..], e, after);
    }
  }

  ghost predicate HasRunningMeta(inbox: seq<Event>) {
    exists i :: 0 <= i < |inbox| && RunningMeta(inbox[i])
  }

  ghost predicate HasRunningProc(inbox: seq<Event>) {
    exists i :: 0 <= i < |inbox| && RunningProc(inbox[i])
  }

  /**
   * The consumer halts exactly when, counting what it already holds, a running
   * message has arrived on each of the two topics.
   */
  lemma {:induction false} ConsumeHaltsIff(s: Slots, inbox: seq<Event>)
    requires Coherent(s)
    ensures Coherent(Consume(s, inbox))
    ensures Consume(s, inbox).halted <==>
      (s.metadata.Some? || HasRunningMeta(inbox)) && (s.proc.Some? || HasRunningProc(inbox))
    decreases |inbox|
  {
    if !s.halted && inbox != [] {
      var rest := inbox[1..];
      HandleKeepsCoherent(s, inbox[0]);
      ConsumeHaltsIff(Handle(s, inbox[0]), rest);
      if HasRunningMeta(rest) {
        var i :| 0 <= i < |rest| && RunningMeta(rest[i]);
        assert inbox[i + 1] == rest[i];
      }
      if HasRunningProc(rest) {
        var i :| 0 <= i < |rest| && RunningProc(rest[i]);
        assert inbox[i + 1] == rest[i];
      }
      if HasRunningMeta(inbox) && !RunningMeta(inbox[0]) {
        var i :| 0 <= i < |inbox| && RunningMeta(inbox[i]);
        assert rest[i - 1] == inbox[i];
      }
      if HasRunningProc(inbox) && !RunningProc(inbox[0]) {
        var i :| 0 <= i < |inbox| && RunningProc(inbox[i]);
        assert rest[i - 1] == inbox[i];
      }
    }
  }

  /** What the slots end up holding came from a running message of the inbox, or was held already. */
  lemma {:induction false} ConsumeSlotsFromInbox(s: Slots, inbox: seq<Event>)
    ensures var r := Consume(s, inbox);
      && (r.metadata == s.metadata
          || (r.metadata.Some? && exists i :: 0 <= i < |inbox| && inbox[i] == Astmetad(Parsed(Running, r.metadata.value))))
      && (r.proc == s.proc
          || (r.proc.Some? && exists i :: 0 <= i < |inbox| && inbox[i] == Astprocd(Parsed(Running, r.proc.value))))
    decreases |inbox|
  {
    if !s.halted && inbox != [] {
      var rest := inbox[1..];
      var next := Handle(s, inbox[0]);
      ConsumeSlotsFromInbox(next, rest);
      var r := Consume(s, inbox);
      if r.metadata != next.metadata && r.metadata != s.metadata {
        var i :| 0 <= i < |rest| && rest[i] == Astmetad(Parsed(Running, r.metadata.value));
        assert inbox[i + 1] == rest[i];
      }
      if r.proc != next.proc && r.proc != s.proc {
        var i :| 0 <= i < |rest| && rest[i] == Astprocd(Parsed(Running, r.proc.value));
        assert inbox[i + 1] == rest[i];
      }
    }
  }

  /**
   * The result of `get_metadata` (lines 96-111): the defaults `Metadata.init`
   * gives and `/dev/null` unless the run halted, in which case the stored
   * metadata and the stored disk's mount path, when there is one.
   */
  function FetchedMetadata(defaults: Metadata, refused: bool, inbox: seq<Event>): (r: GetMetadataResult)
    ensures refused ==> r == GetMetadataResult(defaults, NullDevice)
    ensures r.metadata != defaults || r.usbPath != NullDevice ==> !refused && Consume(EmptySlots, inbox).halted
  {
    var s := Consume(EmptySlots, inbox);
    if refused || !s.halted then GetMetadataResult(defaults, NullDevice)
    else
      GetMetadataResult(
        if s.metadata.Some? then s.metadata.value else defaults,
        if s.proc.Some? && s.proc.value.diskInfo.Some? then s.proc.value.diskInfo.value.mountPath else NullDevice)
  }

  /**
   * Without a refused connection and a running message on each topic,
   * `get_metadata` gives all defaults, even if one of the two messages arrived.
   */
  lemma DefaultsUnlessBothRunning(defaults: Metadata, refused: bool, inbox: seq<Event>)
    requires refused || !HasRunningMeta(inbox) || !HasRunningProc(inbox)
    ensures FetchedMetadata(defaults, refused, inbox) == GetMetadataResult(defaults, NullDevice)
  {
    ConsumeHaltsIff(EmptySlots, inbox);
  }

  /**
   * When both arrive, the metadata is the body of a running astmetad message of
   * the inbox, and the USB path is `/dev/null` or the mount path of a running
   * astprocd message's disk.
   */
  lemma FetchedFromMessages(defaults: Metadata, inbox: seq<Event>)
    requires HasRunningMeta(inbox) && HasRunningProc(inbox)
    ensures var r := FetchedMetadata(defaults, false, inbox);
      && (exists i :: 0 <= i < |inbox| && inbox[i] == Astmetad(Parsed(Running, r.metadata)))
      && (r.usbPath == NullDevice
          || exists i :: 0 <= i < |inbox| && inbox[i].Astprocd? && inbox[i].proc.Parsed?
               && inbox[i].proc.status == Running && inbox[i].proc.body.diskInfo == Some(DiskInfo(r.usbPath)))
  {
    ConsumeHaltsIff(EmptySlots, inbox);
    ConsumeSlotsFromInbox(EmptySlots, inbox);
    var s := Consume(EmptySlots, inbox);
    var r := FetchedMetadata(defaults, false, inbox);
    var i :| 0 <= i < |inbox| && inbox[i] == Astmetad(Parsed(Running, s.metadata.value));
    assert r.metadata == s.metadata.value;
    if r.usbPath != NullDevice {
      var j :| 0 <= j < |inbox| && inbox[j] == Astprocd(Parsed(Running, s.proc.value));
      assert inbox[j].proc.body.diskInfo == Some(DiskInfo(r.usbPath));
    }
  }

  /** `GetMetadataConsumer`: the two slots its handlers fill, and its halt request. */
  class GetMetadataConsumer {
    var metadataMessage: Option<Metadata>
    var procMessage: Option<ProcessInfo>
    var haltRequested: bool

    function State(): Slots
      reads this
    {
      Slots(metadataMessage, procMessage, haltRequested)
    }

    constructor ()
      ensures State() == EmptySlots
    {
      metadataMessage := None;
      procMessage := None;
      haltRequested := false;
    }

    /** `halt(silent=True)`: asks the wait loop to stop; asking twice is the same as once. */
    method Halt()
      modifies this`haltRequested
      ensures haltRequested
      ensures State() == old(State()).(halted := true)
    {
      haltRequested := true;
    }

    /** `_handle_astmetad_message`: stores a running message, then halts once both slots are filled. */
    method HandleAstmetadMessage(m: Incoming<Metadata>)
      modifies this
      ensures m.Parsed? && m.status == Running ==> metadataMessage == Some(m.body)
      ensures !(m.Parsed? && m.status == Running) ==> metadataMessage == old(metadataMessage)
      ensures procMessage == old(procMessage)
      ensures haltRequested == (old(haltRequested) || (metadataMessage.Some? && procMessage.Some?))
      ensures State() == Handle(old(State()), Astmetad(m))
    {
      match m {
        case Parsed(status, body) =>
          if status == Running {
            metadataMessage := Some(body);
          }
        case DecodeError =>
      }
      if metadataMessage.Some? && procMessage.Some? {
        Halt();
      }
    }

    /** `_handle_astprocd_message`: the same for the process-manager slot. */
    method HandleAstprocdMessage(m: Incoming<ProcessInfo>)
      modifies this
      ensures m.Parsed? && m.status == Running ==> procMessage == Some(m.body)
      ensures !(m.Parsed? && m.status == Running) ==> procMessage == old(procMessage)
      ensures metadataMessage == old(metadataMessage)
      ensures haltRequested == (old(haltRequested) || (metadataMessage.Some? && procMessage.Some?))
      ensures State() == Handle(old(State()), Astprocd(m))
    {
      match m {
        case Parsed(status, body) =>
          if status == Running {
            procMessage := Some(body);
          }
        case DecodeError =>
      }
      if metadataMessage.Some? && procMessage.Some? {
        Halt();
      }
    }

    /** `run()`: connect, then dispatch the arriving messages until halted or out of time. */
    method Run(refused: bool, inbox: seq<Event>) returns (outcome: RunOutcome)
      modifies this
      ensures refused ==> outcome == ConnRefused && State() == old(State())
      ensures !refused ==> State() == Consume(old(State()), inbox)
      ensures !refused ==> outcome == (if State().halted then Halted else TimedOut)
    {
      if refused {
        return ConnRefused;
      }
      var i := 0;
      while i < |inbox| && !haltRequested
        invariant 0 <= i <= |inbox|
        invariant Consume(old(State()), inbox) == Consume(State(), inbox[i..])
        decreases |inbox| - i
      {
        assert inbox[i..][1..] == inbox[i + 1..];
        match inbox[i] {
          case Astmetad(m) => HandleAstmetadMessage(m);
          case Astprocd(p) => HandleAstprocdMessage(p);
        }
        i := i + 1;
      }
      outcome := if haltRequested then Halted else TimedOut;
    }
  }

  /**
   * `GetMetadataConsumer.get_metadata`: start from the defaults and `/dev/null`
   * and replace them from the stored messages only when the run halted.
   */
  method GetMetadata(defaults: Metadata, refused: bool, inbox: seq<Event>) returns (r: GetMetadataResult)
    ensures r == FetchedMetadata(defaults, refused, inbox)
    ensures refused ==> r == GetMetadataResult(defaults, NullDevice)
  {
    var gmc := new GetMetadataConsumer();
    var metadata := defaults;
    var path := NullDevice;
    var outcome := gmc.Run(refused, inbox);
    if outcome == Halted {
      if gmc.metadataMessage.Some? {
        metadata := gmc.metadataMessage.value;
      }
      if gmc.procMessage.Some? && gmc.procMessage.value.diskInfo.Some? {
        path := gmc.procMessage.value.diskInfo.value.mountPath;
      }
    }
    r := GetMetadataResult(metadata, path);
  }

  /** An `asyncio.Event` shared by the start-button waiters: once set it stays set. */
  class StartEvent {
    var isSet: bool

    constructor ()
      ensures !isSet
    {
      isSet := false;
    }

    method Set()
      modifies this
      ensures isSet
    {
      isSet := true;
    }
  }

  /** The first window in which a start broadcast arrived, if any. */
  function FirstBroadcast(windows: seq<bool>): (k: nat)
    ensures k <= |windows|
    ensures k < |windows| ==> windows[k]
    ensures forall j :: 0 <= j < k ==> !windows[j]
  {
    if windows == [] then 0 else if windows[0] then 0 else 1 + FirstBroadcast(windows[1..])
  }

  /** `WaitForStartButtonBroadcastConsumer`: sets the shared event when a start broadcast arrives. */
  class WaitForStartButtonBroadcastConsumer {
    const startEvent: StartEvent

    constructor (startEvent: StartEvent)
      ensures this.startEvent == startEvent
    {
      this.startEvent := startEvent;
    }

    /**
     * `main`: while the event is unset, wait up to 0.1 s for a broadcast;
     * `windows[i]` says whether one arrived in the i-th wait. A wait that times
     * out just loops. The loop is left only once the event is set; if the
     * windows run out first it is still waiting (`waited == |windows|`).
     */
    method AwaitBroadcast(windows: seq<bool>) returns (waited: nat)
      modifies startEvent
      ensures old(startEvent.isSet) ==> waited == 0 && startEvent.isSet
      ensures !old(startEvent.isSet) ==>
        && startEvent.isSet == (FirstBroadcast(windows) < |windows|)
        && waited == (if startEvent.isSet then FirstBroadcast(windows) + 1 else |windows|)
    {
      waited := 0;
      while !startEvent.isSet && waited < |windows|
        invariant 0 <= waited <= |windows|
        invariant old(startEvent.isSet) ==> waited == 0 && startEvent.isSet
        invariant !old(startEvent.isSet) ==> waited <= FirstBroadcast(windows) + 1
        invariant !old(startEvent.isSet) ==> (startEvent.isSet <==> waited > 0 && windows[waited - 1])
        invariant forall j :: 0 <= j < waited - 1 ==> !windows[j]
      {
        if windows[waited] {
          startEvent.Set();
        }
        waited := waited + 1;
      }
    }
  }
}
