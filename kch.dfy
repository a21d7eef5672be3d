/**
 * The KCH daemon backend (sr/robot3/kch.py): fetching the KCH's asset code
 * from the kchd status topic, and the 3x3 table of user LED channels plus the
 * start LED, sent to kchd as a manager request whenever a channel changes.
 */
module Kch {
  import opened Wrappers
  import Astoria

  /** The status value kchd sends while it is running. */
  const RunningStatus: string := "RUNNING"

  /** A payload on the kchd topic: JSON that did not decode, or its status and `kch.asset_code`. */
  datatype KchdMessage = DecodeError | Parsed(status: string, assetCode: string)

  /** The state of a kchd consumer: the stored asset code and whether it asked to halt. */
  datatype KchdState = KchdState(kchInfo: Option<string>, halted: bool)

  /**
   * One handler call. A parsed message always halts the consumer and is stored
   * only when running. After a decode failure the handler fails on the unbound
   * `message`, so nothing changes.
   */
  function HandleKchd(s: KchdState, m: KchdMessage): KchdState {
    match m
    case DecodeError => s
    case Parsed(status, assetCode) =>
      KchdState(if status == RunningStatus then Some(assetCode) else s.kchInfo, true)
  }

  /** The consumer's wait loop over the messages that arrive in time. */
  function ConsumeKchd(s: KchdState, inbox: seq<KchdMessage>): KchdState
    decreases |inbox|
  {
    if s.halted || inbox == [] then s else ConsumeKchd(HandleKchd(s, inbox[0]), inbox[1..])
  }

  /**
   * Reference answer of `get_kch`: decided by the first message that parses,
   * which gives its asset code if kchd is running and nothing otherwise.
   */
  function KchInfoFrom(inbox: seq<KchdMessage>): Option<string>
    decreases |inbox|
  {
    if inbox == [] then None
    else match inbox[0]
      case DecodeError => KchInfoFrom(inbox[1..])
      case Parsed(status, assetCode) => if status == RunningStatus then Some(assetCode) else None
  }

  /** The reference answer names an asset code exactly when the first parsed message is a running one with that code. */
  lemma {:induction false} KchInfoFromFirstParsed(inbox: seq<KchdMessage>, code: string)
    ensures KchInfoFrom(inbox) == Some(code) <==>
      exists i :: 0 <= i < |inbox| && inbox[i] == Parsed(RunningStatus, code)
        && forall j :: 0 <= j < i ==> inbox[j].DecodeError?
    decreases |inbox|
  {
    if inbox != [] {
      var rest := inbox[1..];
      KchInfoFromFirstParsed(rest, code);
      if inbox[0].DecodeError? {
        if i :| 0 <= i < |rest| && rest[i] == Parsed(RunningStatus, code) && forall j :: 0 <= j < i ==> rest[j].DecodeError? {
          assert inbox[i + 1] == rest[i];
          forall j | 0 <= j < i + 1 ensures inbox[j].DecodeError? {
            if j > 0 { assert inbox[j] == rest[j - 1]; }
          }
        }
        if i :| 0 <= i < |inbox| && inbox[i] == Parsed(RunningStatus, code) && forall j :: 0 <= j < i ==> inbox[j].DecodeError? {
          assert rest[i - 1] == inbox[i];
          forall j | 0 <= j < i - 1 ensures rest[j].DecodeError? {
            assert rest[j] == inbox[j + 1];
          }
        }
      } else {
        if i :| 0 <= i < |inbox| && inbox[i] == Parsed(RunningStatus, code) && forall j :: 0 <= j < i ==> inbox[j].DecodeError? {
          assert i == 0;
        }
      }
    }
  }

  /**
   * The consumer agrees with the reference: it halts exactly when some message
   * parses, and then holds the reference answer.
   */
  lemma {:induction false} ConsumeKchdMatchesReference(inbox: seq<KchdMessage>)
    ensures var r := ConsumeKchd(KchdState(None, false), inbox);
      && (r.halted <==> exists i :: 0 <= i < |inbox| && inbox[i].Parsed?)
      && (r.halted ==> r.kchInfo == KchInfoFrom(inbox))
      && (!r.halted ==> r.kchInfo == None && KchInfoFrom(inbox) == None)
    decreases |inbox|
  {
    if inbox != [] {
      var rest := inbox[1..];
      if inbox[0].DecodeError? {
        ConsumeKchdMatchesReference(rest);
        if i :| 0 <= i < |inbox| && inbox[i].Parsed? {
          assert rest[i - 1] == inbox[i];
        }
        if i :| 0 <= i < |rest| && rest[i].Parsed? {
          assert inbox[i + 1] == rest[i];
        }
      }
    }
  }

  /** `KCHDaemonConsumer`: the asset code its handler stores, and its halt request. */
  class KchDaemonConsumer {
    var kchInfo: Option<string>
    var haltRequested: bool

    function State(): KchdState
      reads this
    {
      KchdState(kchInfo, haltRequested)
    }

    constructor ()
      ensures State() == KchdState(None, false)
    {
      kchInfo := None;
      haltRequested := false;
    }

    /** `_handle_kchd_message`. */
    method HandleKchdMessage(m: KchdMessage)
      modifies this
      ensures m.Parsed? ==> haltRequested
      ensures m.Parsed? && m.status == RunningStatus ==> kchInfo == Some(m.assetCode)
      ensures !(m.Parsed? && m.status == RunningStatus) ==> kchInfo == old(kchInfo)
      ensures m.DecodeError? ==> haltRequested == old(haltRequested)
      ensures State() == HandleKchd(old(State()), m)
    {
      match m {
        case DecodeError =>
        case Parsed(status, assetCode) =>
          if status == RunningStatus {
            kchInfo := Some(assetCode);
          }
          haltRequested := true;
      }
    }

    /** `run()`: connect, then handle arriving messages until halted or out of time. */
    method Run(refused: bool, inbox: seq<KchdMessage>) returns (outcome: Astoria.RunOutcome)
      modifies this
      ensures refused ==> outcome == Astoria.ConnRefused && State() == old(State())
      ensures !refused ==> State() == ConsumeKchd(old(State()), inbox)
      ensures !refused ==> outcome == (if haltRequested then Astoria.Halted else Astoria.TimedOut)
    {
      if refused {
        return Astoria.ConnRefused;
      }
      var i := 0;
      while i < |inbox| && !haltRequested
        invariant 0 <= i <= |inbox|
        invariant ConsumeKchd(old(State()), inbox) == ConsumeKchd(State(), inbox[i..])
        decreases |inbox| - i
      {
        assert inbox[i..][1..] == inbox[i + 1..];
        HandleKchdMessage(inbox[i]);
        i := i + 1;
      }
      outcome := if haltRequested then Astoria.Halted else Astoria.TimedOut;
    }
  }

  /** `KCHDaemonConsumer.get_kch`: the stored asset code after a halted run, and `None` otherwise. */
  method GetKch(refused: bool, inbox: seq<KchdMessage>) returns (info: Option<string>)
    ensures info == if refused then None else KchInfoFrom(inbox)
  {
    var kchdc := new KchDaemonConsumer();
    var outcome := kchdc.Run(refused, inbox);
    ConsumeKchdMatchesReference(inbox);
    if outcome == Astoria.Halted {
      if kchdc.kchInfo.Some? {
        return kchdc.kchInfo;
      } else {
        return None;
      }
    }
    return None;
  }

  /** A KCH board, known by its asset code. */
  datatype KchBoard = KchBoard(serialNumber: string)

  /** The boards `discover` reports for the fetched asset code: one if it is truthy, none otherwise. */
  function DiscoveredBoards(info: Option<string>): (boards: set<KchBoard>)
    ensures boards == {} <==> info.None? || info.value == ""
    ensures forall b :: b in boards ==> info.Some? && b.serialNumber == info.value
    ensures |boards| <= 1
  {
    if info.Some? && info.value != "" then {KchBoard(info.value)} else {}
  }

  /** `SRKCHDaemonBackend.discover`. */
  method Discover(refused: bool, inbox: seq<KchdMessage>) returns (boards: set<KchBoard>)
    ensures boards == DiscoveredBoards(if refused then None else KchInfoFrom(inbox))
  {
    var info := GetKch(refused, inbox);
    boards := DiscoveredBoards(info);
  }

  datatype RGBColour = Red | Green | Blue

  /** `_channel_to_index`: red, green and blue are the three positions of an LED's list, in that order. */
  function ChannelToIndex(channel: RGBColour): (index: nat)
    ensures index < 3
  {
    match channel
    case Red => 0
    case Green => 1
    case Blue => 2
  }

  /** Distinct channels have distinct positions, so the three channels fill the three positions. */
  lemma ChannelToIndexInjective(c1: RGBColour, c2: RGBColour)
    ensures ChannelToIndex(c1) == ChannelToIndex(c2) ==> c1 == c2
  {
  }

  /** `_leds`: LED identifier -> the states of its red, green and blue channels. */
  type LedTable = map<int, seq<bool>>

  ghost predicate WellFormed(leds: LedTable) {
    leds.Keys == {0, 1, 2} && forall i :: i in leds ==> |leds[i]| == 3
  }

  /** The table of a freshly constructed backend: three LEDs, every channel off. */
  const InitialLeds: LedTable := map[0 := [false, false, false], 1 := [false, false, false], 2 := [false, false, false]]

  /** The `KeyError` raised for an identifier that is not a key of `_leds`. */
  datatype KeyError = KeyError(key: int)

  /** `get_rgb_led_channel_duty_cycle` on a table: fully on or fully off. */
  function DutyCycle(leds: LedTable, identifier: int, channel: RGBColour): (r: Result<real, KeyError>)
    requires WellFormed(leds)
    ensures r.Err? <==> !(0 <= identifier < 3)
    ensures r.Err? ==> r.error == KeyError(identifier)
    ensures r.Ok? ==> r.value == 0.0 || r.value == 1.0
  {
    if identifier !in leds then Err(KeyError(identifier))
    else Ok(if leds[identifier][ChannelToIndex(channel)] then 1.0 else 0.0)
  }

  /** The table after `set_rgb_led_channel_duty_cycle`: the channel is on exactly when the duty cycle is non-zero. */
  function SetChannel(leds: LedTable, identifier: int, channel: RGBColour, dutyCycle: real): (r: Result<LedTable, KeyError>)
    requires WellFormed(leds)
    ensures r.Err? <==> !(0 <= identifier < 3)
    ensures r.Err? ==> r.error == KeyError(identifier)
    ensures r.Ok? ==> WellFormed(r.value)
  {
    if identifier !in leds then Err(KeyError(identifier))
    else Ok(leds[identifier := leds[identifier][ChannelToIndex(channel) := dutyCycle != 0.0]])
  }

  /** Round trip: reading a channel back after setting it gives 1.0 for a non-zero duty cycle and 0 for zero. */
  lemma SetThenGet(leds: LedTable, identifier: int, channel: RGBColour, dutyCycle: real)
    requires WellFormed(leds) && 0 <= identifier < 3
    ensures DutyCycle(SetChannel(leds, identifier, channel, dutyCycle).value, identifier, channel)
      == Ok(if dutyCycle != 0.0 then 1.0 else 0.0)
  {
  }

  /** Setting a channel leaves the other eight channels as they were. */
  lemma SetLeavesOthers(leds: LedTable, identifier: int, channel: RGBColour, dutyCycle: real,
                        otherId: int, otherChannel: RGBColour)
    requires WellFormed(leds) && 0 <= identifier < 3
    requires otherId != identifier || otherChannel != channel
    ensures DutyCycle(SetChannel(leds, identifier, channel, dutyCycle).value, otherId, otherChannel)
      == DutyCycle(leds, otherId, otherChannel)
  {
    if otherId == identifier {
      ChannelToIndexInjective(channel, otherChannel);
    }
  }

  /** `KCHLEDUpdateManagerRequest`: the start LED and the lists of LEDs 0, 1 and 2. */
  datatype LedUpdateRequest = LedUpdateRequest(senderName: string, start: bool, a: seq<bool>, b: seq<bool>, c: seq<bool>)

  /** A manager request to a service's endpoint. */
  datatype ManagerRequest = ManagerRequest(service: string, endpoint: string, body: LedUpdateRequest)

  /**
   * The request `_set_leds` sends for a table: to kchd's `user_leds` endpoint,
   * carrying the start LED and the whole table, which can be read back from it unchanged.
   */
  function LedRequest(senderName: string, start: bool, leds: LedTable): (r: ManagerRequest)
    requires WellFormed(leds)
    ensures r.service == "kchd" && r.endpoint == "user_leds"
    ensures r.body.senderName == senderName && r.body.start == start
    ensures RequestTable(r.body) == leds
  {
    ManagerRequest("kchd", "user_leds", LedUpdateRequest(senderName, start, leds[0], leds[1], leds[2]))
  }

  /** The table a request describes. */
  function RequestTable(request: LedUpdateRequest): LedTable {
    map[0 := request.a, 1 := request.b, 2 := request.c]
  }

  /** `SRKCHDaemonBackend`: the LED table and start LED, and the requests sent to kchd. */
  class SRKCHDaemonBackend {
    var start: bool
    var leds: LedTable
    /** Every manager request sent to kchd, oldest first. */
    var requests: seq<ManagerRequest>

    ghost predicate Valid()
      reads this
    {
      WellFormed(leds)
    }

    constructor ()
      ensures Valid()
      ensures !start && leds == InitialLeds && requests == []
    {
      start := false;
      leds := InitialLeds;
      requests := [];
    }

    /**
     * `get_rgb_led_channel_duty_cycle`.
     */
    method GetRgbLedChannelDutyCycle(identifier: int, channel: RGBColour) returns (r: Result<real, KeyError>)
      requires Valid()
      ensures r == DutyCycle(leds, identifier, channel)
    {
      r := DutyCycle(leds, identifier, channel);
    }

    /**
     * `_set_leds`: waits up to a second for the control consumer to be ready
     * (`ready`), and sends nothing if it is not; otherwise sends the table.
     * `senderName` is the consumer's name, a fresh uuid on every read.
     */
    method SetLeds(ready: bool, senderName: string)
      requires Valid()
      modifies this`requests
      ensures requests == old(requests) + (if ready then [LedRequest(senderName, start, leds)] else [])
    {
      if !ready {
        return;
      }
      requests := requests + [LedRequest(senderName, start, leds)];
    }

    /** `set_rgb_led_channel_duty_cycle`: updates one channel in place, then sends the table. */
    method SetRgbLedChannelDutyCycle(identifier: int, channel: RGBColour, dutyCycle: real, ready: bool, senderName: string)
      returns (err: Option<KeyError>)
      requires Valid()
      modifies this`leds, this`requests
      ensures Valid()
      ensures !(0 <= identifier < 3) ==> err == Some(KeyError(identifier)) && leds == old(leds) && requests == old(requests)
      ensures 0 <= identifier < 3 ==>
        && err == None
        && leds == SetChannel(old(leds), identifier, channel, dutyCycle).value
        && requests == old(requests) + (if ready then [LedRequest(senderName, start, leds)] else [])
    {
      var updated := SetChannel(leds, identifier, channel, dutyCycle);
      if updated.Err? {
        return Some(updated.error);
      }
      leds := updated.value;
      SetLeds(ready, senderName);
      err := None;
    }
  }
}
