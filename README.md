# sr-robot3 core, modelled in Dafny

A model of the Student Robotics `sr.robot3` library, the j5-based API that
competitors' robot code uses. The model covers the parts of the library that
make decisions:

- **`game`**: the marker-size table. Markers 0–27 are the 200 mm arena
  boundary. Markers 28–99 are 100 mm tokens. Any other marker is not used
  in the game.
- **`vision`**: the custom Zoloto camera. It subtracts the marker offset
  from each raw marker id and keeps only the markers used in the game. It
  also chooses the calibration file from an ordered list of strategies.
- **`mqtt`**: the wrapper around the paho MQTT client. It keeps a topic ->
  callback subscription table. It prefixes topics when subscribing and
  publishing, connects once, and re-subscribes the whole table on every
  (re)connect. The paho client is modelled as the log of calls made to it.
- **`astoria`**: the consumers that ask the Astoria daemons for the robot
  metadata and the USB code path. A consumer halts once both the
  metadata-manager and the process-manager messages have arrived. When the
  broker refuses or does not answer in time, the defaults and `/dev/null`
  are used. Also here: the consumer that waits for a start-button
  broadcast.
- **`kch`**: the KCH daemon. This covers fetching the board's asset code,
  board discovery, and the backend that keeps the three RGB user LEDs and
  sends each change as a `user_leds` manager request.
- **`robot`**: the `Robot` class. It holds the ignored-Ruggeduino filter.
  It fetches the metadata and resets every camera's marker offset. On
  `wait_start` it blinks the run LED and the KCH start LED every sixth
  iteration until the button is pressed or the start broadcast has set the
  event. It then reloads the metadata and arms the game timeout.

Everything the library gets from outside is a parameter of the model:

- what the MQTT broker delivers within a timeout (a refused flag and the
  sequence of messages that arrive in time);
- paho's connect outcome;
- each calibration strategy's answer;
- the camera ids found;
- the serial ports Ruggeduino discovery offers, in order, each with the
  base backend's `is_arduino` answer;
- whether the KCH control consumer is ready;
- its client name;
- each evaluation of the start-button loop guard (button pressed, start
  event set).

The daemons' JSON is modelled after decoding: either an undecodable
payload, or a status and a body.

Files:

| file | module |
|---|---|
| `wrappers.dfy` | `Wrappers` (`Option`, `Result`) |
| `game.dfy` | `Game` |
| `vision.dfy` | `Vision` |
| `mqtt.dfy` | `Mqtt` |
| `astoria.dfy` | `Astoria` |
| `kch.dfy` | `Kch` |
| `robot.dfy` | `Robot` |

## Model

| member | source | states |
|---|---|---|
| Game.MarkerUsedInGame | sr/robot3/game.py:9-22 | a marker is used in the game exactly when its id is in 0..99 (the union of the two ranges) |
| Game.GetMarkerSize | sr/robot3/game.py:25-35 | ids 0..27 measure 200 mm, ids 28..99 measure 100 mm, every other id is the unused-marker error |
| Game.SizeDefinedIffUsed | sr/robot3/game.py:15-35 | a size exists exactly for the markers used in the game, and it is 100 or 200 mm |
| Game.LookupFindsAnyContains | sr/robot3/game.py:22-34 | the first-match lookup finds a size exactly when some range contains the id |
| Game.LookupCharacterised | sr/robot3/game.py:32-35 | for a table of disjoint ranges, the lookup fails iff no range holds the id, and otherwise returns the size of the one range that holds it |
| Game.LookupOrderIndependent | sr/robot3/game.py:9-12 | with disjoint ranges, the dictionary's iteration order does not change any marker's size |
| Game.MarkerSizesDisjoint | sr/robot3/game.py:9-12 | the two ranges of the size table do not overlap |
| Game.MarkerSizesOrderIrrelevant | sr/robot3/game.py:32-35 | iterating the real size table in either order gives every marker the same size |
| Vision.SRZolotoCamera.constructor | sr/robot3/vision/backend.py:44-65 | a new camera keeps its id and the marker offset it was given |
| Vision.Zip | sr/robot3/vision/backend.py:76 | pairing the raw ids with the raw corners stops at the shorter list and keeps positions |
| Vision.KeptMembership | sr/robot3/vision/backend.py:75-80 | a pair is reported iff it is some raw pair with the offset subtracted from its id, and that offset id is used in the game |
| Vision.KeptNoLonger | sr/robot3/vision/backend.py:75-80 | filtering never reports more markers than were detected |
| Vision.KeptPrefix | sr/robot3/vision/backend.py:76-80 | the markers reported from a prefix of the detections are a prefix of those reported from all of them (order is kept) |
| Vision.SRZolotoCamera.GetIdsAndCorners | sr/robot3/vision/backend.py:67-82 | the loop returns ids and corners of equal length, and each position is the corresponding kept offset pair |
| Vision.ReportedIdsSound | sr/robot3/vision/backend.py:77-79 | every reported id is used in the game and equals some raw id minus the camera's offset |
| Vision.SRZolotoCamera.GetMarkerSize | sr/robot3/vision/backend.py:84-91 | the camera's marker size is the game's size, defined exactly for markers used in the game |
| Vision.GetCalibrationFile | sr/robot3/vision/backend.py:109-120 | the first strategy that names a calibration wins, and the path is `calibrations/<name>.xml` beside the module; no path is returned iff every strategy declines, and then all were consulted |
| Vision.CalibrationPath | sr/robot3/vision/backend.py:115 | the path is the module directory, then `/calibrations/`, then the name, then `.xml`, so the name can be read back from it |
| Vision.CalibrationPathInjective | sr/robot3/vision/backend.py:115 | different calibration names beside the same module give different paths |
| Mqtt.SubscribeTopic | sr/robot3/mqtt.py:91-94 | the subscribed topic is prefixed with `<prefix>/` unless the caller overrides it or the client has no prefix |
| Mqtt.PublishTopic | sr/robot3/mqtt.py:132-133 | the published topic is prefixed only when auto-prefixing is asked for and the prefix is non-empty |
| Mqtt.EmptyPrefixAsymmetry | sr/robot3/mqtt.py:91-133 | with an empty prefix, subscribing uses `/<topic>` while publishing uses `<topic>` |
| Mqtt.ResubscribeOpsLayout | sr/robot3/mqtt.py:99-144 | re-subscribing n topics makes 2n client calls: the callback registration and then the QoS-1 subscribe, per topic |
| Mqtt.ResubscribeCoversTable | sr/robot3/mqtt.py:139-144 | after the walk, every table topic is subscribed and its callback registered, no other topic is, and no other kind of call is made |
| Mqtt.SubscribeUnsubscribeRestores | sr/robot3/mqtt.py:96-113 | subscribing a new topic and unsubscribing that full topic gives back the original table |
| Mqtt.UnsubscribeIgnoresPrefix | sr/robot3/mqtt.py:91-115 | unsubscribing the unprefixed topic after a prefixed subscribe leaves the subscription in place |
| Mqtt.MqttClient.constructor | sr/robot3/mqtt.py:36-49 | a new client keeps its name and topic prefix, tracks no subscription, is not connected and has made no call |
| Mqtt.MqttClient.Connect | sr/robot3/mqtt.py:51-67 | a connected client makes no call; otherwise it connects with keepalive 60, and starts the loop only when the connect succeeded |
| Mqtt.MqttClient.Subscribe | sr/robot3/mqtt.py:84-97 | the table maps the full topic to the callback, and the client registers the callback then subscribes at QoS 1 |
| Mqtt.MqttClient.SubscribeOne | sr/robot3/mqtt.py:99-106 | one callback registration followed by one subscribe at QoS 1 |
| Mqtt.MqttClient.Unsubscribe | sr/robot3/mqtt.py:108-115 | the topic leaves the table whether or not it was in it, and the callback is removed and the topic unsubscribed |
| Mqtt.MqttClient.Publish | sr/robot3/mqtt.py:117-137 | nothing is sent while disconnected; otherwise one QoS-1 publish of the payload with the retain flag to the (maybe prefixed) topic |
| Mqtt.MqttClient.OnConnect | sr/robot3/mqtt.py:139-144 | every (re)connect re-subscribes each table entry exactly once, in some order over the table's keys |
| Astoria.HandleKeepsCoherent | sr/robot3/astoria.py:55-85 | after any message, the consumer has asked to halt iff both the metadata and the process messages are held |
| Astoria.IgnoredMessageInert | sr/robot3/astoria.py:56-83 | an undecodable or not-running message changes nothing |
| Astoria.IgnoredMessageInvisible | sr/robot3/astoria.py:56-85 | removing an ignored message from anywhere in the inbox does not change the outcome |
| Astoria.ConsumeHaltsIff | sr/robot3/astoria.py:65-85 | processing an inbox ends halted iff a running metadata message and a running process message were both seen (or the slots already held them) |
| Astoria.ConsumeSlotsFromInbox | sr/robot3/astoria.py:58-79 | a filled slot holds the body of a running message from the inbox, or the value it already had |
| Astoria.FetchedMetadata | sr/robot3/astoria.py:96-111 | a refused connection gives the defaults and `/dev/null`; anything else than the defaults comes only from a run that halted |
| Astoria.DefaultsUnlessBothRunning | sr/robot3/astoria.py:96-111 | refused, or missing either running message, the result is the configured defaults and `/dev/null` |
| Astoria.FetchedFromMessages | sr/robot3/astoria.py:99-105 | with a running message on each topic, the metadata is the body of a running metadata message of the inbox, and the path is `/dev/null` or the mount path of a running process message's disk |
| Astoria.GetMetadataConsumer.constructor | sr/robot3/astoria.py:41-47 | a new consumer holds neither message and has not asked to halt |
| Astoria.GetMetadataConsumer.Halt | sr/robot3/astoria.py:65-66 | the consumer has asked to halt, and its two slots are untouched |
| Astoria.GetMetadataConsumer.HandleAstmetadMessage | sr/robot3/astoria.py:49-66 | only a running message is stored; the process slot is untouched; halt is requested once both slots are filled |
| Astoria.GetMetadataConsumer.HandleAstprocdMessage | sr/robot3/astoria.py:68-85 | only a running message is stored; the metadata slot is untouched; halt is requested once both slots are filled |
| Astoria.GetMetadataConsumer.Run | sr/robot3/astoria.py:87-100 | a refused connection changes nothing; otherwise the messages are handled in order until halted, and it reports halted or timed out |
| Astoria.GetMetadata | sr/robot3/astoria.py:91-111 | the result is the fetched metadata and path, and the defaults when the broker refuses |
| Astoria.FirstBroadcast | sr/robot3/astoria.py:146-153 | the index of the first polling window that receives the broadcast, with none before it |
| Astoria.WaitForStartButtonBroadcastConsumer.constructor | sr/robot3/astoria.py:119-126 | the consumer shares the start event it is given |
| Astoria.WaitForStartButtonBroadcastConsumer.AwaitBroadcast | sr/robot3/astoria.py:144-153 | an already-set event ends the wait at once; otherwise it waits until the first broadcast and sets the event, or keeps waiting |
| Kch.KchInfoFromFirstParsed | sr/robot3/kch.py:50-61 | the asset code is found iff the first decodable message is a running one carrying that code |
| Kch.ConsumeKchdMatchesReference | sr/robot3/kch.py:44-61 | handling the inbox message by message halts at the first decodable message and yields exactly the reference asset code |
| Kch.KchDaemonConsumer.constructor | sr/robot3/kch.py:29-33 | a new consumer holds no asset code and has not asked to halt |
| Kch.KchDaemonConsumer.HandleKchdMessage | sr/robot3/kch.py:44-61 | any decodable message requests a halt, only a running one stores its asset code, and an undecodable one changes nothing |
| Kch.KchDaemonConsumer.Run | sr/robot3/kch.py:63-73 | a refused connection changes nothing; otherwise the messages are handled until halted, and it reports halted or timed out |
| Kch.GetKch | sr/robot3/kch.py:67-83 | no asset code when the broker refuses or the wait times out, otherwise the code from the first decodable message |
| Kch.DiscoveredBoards | sr/robot3/kch.py:135-140 | no board for a missing or empty asset code, otherwise exactly one board whose serial is the code |
| Kch.Discover | sr/robot3/kch.py:128-140 | the boards found are those for the fetched asset code |
| Kch.ChannelToIndex | sr/robot3/kch.py:182-187 | each colour channel names one of the three positions |
| Kch.ChannelToIndexInjective | sr/robot3/kch.py:182-187 | distinct colours name distinct positions |
| Kch.DutyCycle | sr/robot3/kch.py:193-205 | an LED identifier outside 0..2 is a key error; otherwise the duty cycle is 1.0 or 0 |
| Kch.SetChannel | sr/robot3/kch.py:207-220 | an identifier outside 0..2 is a key error; otherwise the new table is again three LEDs of three channels |
| Kch.SetThenGet | sr/robot3/kch.py:205-220 | reading a channel after setting it gives 1.0 iff the duty cycle set was non-zero |
| Kch.SetLeavesOthers | sr/robot3/kch.py:205-220 | setting one channel of one LED leaves every other channel of every LED as it was |
| Kch.LedRequest | sr/robot3/kch.py:170-180 | the request goes to kchd's `user_leds` endpoint with the sender's name and the start flag, and the three LEDs' channel states can be read back from it unchanged |
| Kch.SRKCHDaemonBackend.constructor | sr/robot3/kch.py:142-147 | a new backend has the start LED off, all nine channels off, and has sent nothing |
| Kch.SRKCHDaemonBackend.GetRgbLedChannelDutyCycle | sr/robot3/kch.py:193-205 | the backend's answer is the duty cycle of its current table |
| Kch.SRKCHDaemonBackend.SetLeds | sr/robot3/kch.py:157-180 | if the control consumer is not ready nothing is sent; otherwise one `kchd`/`user_leds` request with the current state |
| Kch.SRKCHDaemonBackend.SetRgbLedChannelDutyCycle | sr/robot3/kch.py:207-221 | a bad identifier is a key error with nothing changed or sent; otherwise the table is updated and the update sent |
| Robot.IgnoredSerials | sr/robot3/robot.py:73-76 | no list means no ignored serials, otherwise the given list |
| Robot.FirstFire | sr/robot3/robot.py:356 | the first loop check at which the button is pressed or the start event is set |
| Robot.BlinkClosedForm | sr/robot3/robot.py:353-362 | after n iterations the LEDs were written ceil(n/6) times, alternating on, off, on, …, and `led_state` is the last value written |
| Robot.Robot.constructor | sr/robot3/robot.py:44-97 | the robot makes one camera per id with the fetched offset, records every ignored Ruggeduino port (serial to device, a later port winning) and keeps the accepted ones, and waits for the start signal exactly when auto start is off; the metadata is the boot fetch, or the reload once started, and the game timeout is armed only then; without auto start both LEDs get the blink pattern up to the first firing check, then on and off |
| Robot.Robot.InitCameras | sr/robot3/robot.py:99-123 | one camera per id found, each with the current marker offset |
| Robot.Robot.InitMetadata | sr/robot3/robot.py:169-176 | the metadata and code path are the fetched ones, and every existing camera now has the new marker offset |
| Robot.IgnoredRecordCharacterised | sr/robot3/robot.py:149-162 | a serial is in the ignored record exactly when some offered port with that serial is ignored, and its device is that of the last such port |
| Robot.AcceptedPortsCharacterised | sr/robot3/robot.py:157-167 | a port is accepted exactly when it was offered, is not ignored and the base backend accepts it |
| Robot.Robot.InitRuggeduinos | sr/robot3/robot.py:143-167 | the record starts empty and ends as the ignored record of the offered ports, and the accepted ports are those the filter lets through, in order |
| Robot.Robot.IsArduino | sr/robot3/robot.py:157-162 | a port whose serial is ignored is recorded with its device and rejected; any other port gets the base backend's answer and nothing is recorded |
| Robot.Robot.WaitForPhysicalStart | sr/robot3/robot.py:351-368 | the loop runs until the first firing check, writing the blink pattern to both LEDs; then it sets the event, turns the run LED on and the start LED off |
| Robot.Robot.WaitStart | sr/robot3/robot.py:333-386 | once started, the metadata is reloaded into the robot and the cameras, and the game timeout is armed exactly when the reloaded metadata has one |

## Left out

- The asyncio event loop, `asyncio.gather` and every `wait_for` timeout. A
  timeout is modelled as the inbox ending before a halt. The broadcast
  consumer and the physical-start loop run concurrently; the model gives
  the loop the event's value at each check instead of interleaving them.
- The paho client itself: network I/O, the `atexit` registration,
  `disconnect`, `establish` and `init_mqtt` (which only read Astoria's
  configuration and call the constructor and `connect`).
- Mqtt.MqttClient.Publish: the re-raise of paho's `ValueError` as a new
  `ValueError` (sr/robot3/mqtt.py:134-137) is not modelled, because it
  depends on paho's topic validation.
- Mqtt.MqttClient.OnConnect: the order of re-subscription is any order of
  the table's keys, not Python's dictionary insertion order.
- JSON decoding and pydantic validation. A payload is either undecodable
  or a decoded status and body. A validation error or a `null` payload
  (which would raise in the source) is not modelled.
- Kch.KchDaemonConsumer.HandleKchdMessage: any message that is not JSON
  makes the handler read an unbound `message` (sr/robot3/kch.py:60). This
  is because `message` is local to each call, so it is never bound after a
  decode error. The handler therefore raises inside the consumer. The model
  treats such a message as changing nothing and not halting.
- Kch.KchDaemonConsumer.HandleKchdMessage: a running message whose
  `asset_code` is JSON `null` stores `None` (sr/robot3/kch.py:55). A parsed
  message always carries a string asset code here, so this case is not
  modelled.
- Mqtt.MqttClient.Connect: paho's `connect` can raise errors other than the
  three caught at sr/robot3/mqtt.py:63, such as `socket.gaierror` or an
  `OSError` for an unreachable host. Those propagate out of `connect`.
  `ConnectResult` has no case for them, so the model does not capture that
  exception.
- Robot.Robot.WaitStart: `wait_start` runs the broadcast consumer and the
  button loop under `gather` with no `except` (sr/robot3/robot.py:370-375).
  So a refused broker connection in the broadcast consumer's `run()` raises
  out of `wait_start`, unlike the same error at sr/robot3/astoria.py:106 and
  sr/robot3/kch.py:78. The model always goes on, and does not capture that
  exception.
- The reconnect in `_set_leds` (sr/robot3/kch.py:163-169). It tests
  `is_connected` without calling it, so it depends on the broker client's
  internals; the model sends the request whenever the control consumer is
  ready.
- Duty cycles are `real`, not floating point; `bool(duty_cycle)` is
  modelled as "non-zero".
- The calibration strategies (sr/robot3/vision/strategy.py) and the parsing
  of calibration files are not part of this model. Each strategy's answer
  is a parameter.
- Vision.CalibrationPath: the path is the unnormalised string, whereas
  `pathlib` collapses `//` and `.` segments (sr/robot3/vision/backend.py:115).
  The fixed camera names contain neither, so no real path differs.
- `kill_after_delay` (sr/robot3/timeout.py) is not part of this model. The
  model records the delays it is called with.
- The KCH board class that `Robot.kch` returns is not part of this model.
  Its `start` LED is modelled as `Robot.KchStartLed`, a boolean that records its writes.
- Ruggeduino discovery itself (the port listing and the board objects made
  for accepted ports) is outside the model. The model takes the offered
  ports as a parameter and keeps the accepted ones.
- Robot.Robot.WaitForPhysicalStart: the start button is read once and
  discarded before the loop (sr/robot3/robot.py:355). `checks[0]` is the
  first guard evaluation after that read.
- The power board, motor, servo and Ruggeduino board groups, the piezo
  buzz, logging, environment variables and the board getters (`camera`,
  `kch`, `motor_board(s)`, `servo_board(s)`, `ruggeduino(s)`,
  `power_board`) are reads of j5 objects and are not modelled.
- `arena`, `mode`, `zone` and `print_wifi_details` read fields of Astoria's
  `Metadata` (sr/robot3/robot.py:284-331). `Metadata` is modelled only by
  the fields the core uses (`marker_offset`, `game_timeout`), so these
  accessors are not modelled. `usbkey` (sr/robot3/robot.py:306-313) returns
  the stored `codePath` field of the model, and has no member of its own.
