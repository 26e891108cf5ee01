# Smart waste bins, modelled in Dafny

A municipal smart-bin installation has three kinds of program talking over an
MQTT broker:

- **The bin** (`SmartBinSystem.py`) owns three emulators:
  - an ultrasonic fill-level sensor (`UltrasonicSensor.py`);
  - an emptying actuator (`BinActuator.py`);
  - a control panel with an emergency-empty button, a fill-rate knob and a power button (`ControlPanel.py`).

  On every reading it publishes the fill level and a status. It triggers emptying when the bin is full, and it publishes every actuator state change.
- **The data manager** (`app_manager.py`):
  - subscribes to the bins' topics;
  - stores readings, status events and actuator events in three SQLite tables;
  - raises high-fill and actuator-error alarms, stores them, and then publishes them on the alarm topic;
  - answers queries and acknowledgements.
- **The monitor** (`MonitorGUI.py`):
  - shows one panel per bin and a list of alarms;
  - follows the live messages;
  - every refresh rebuilds the alarm list and the bin levels from the database.

The Dafny modules follow the program's files:

| module | file | what it holds |
|---|---|---|
| `Config` | config.dfy | the topic and threshold constants of `mqtt_init.py` |
| `Strings`, `Numbers` | strings.dfy, numbers.dfy | `str.split`, `str.replace(p, "")`, `str.startswith`, `float()` on decimal text, `f"{x:.1f}"` with round-half-even, `bin_<n>` digits |
| `TopicFilter` | topic_filter.dfy | topic-filter matching per section 4.7 of MQTT Version 3.1.1, as the broker applies it to subscriptions |
| `AppManager` | app_manager.dfy | routing of a message (`Route`), the queries, acknowledgement, and the class `DataManager` over the three tables and an outbox of published alarms |
| `Actuator` | bin_actuator.dfy | the five-state machine as a transition function on snapshots, and the class `BinActuator` proved against it |
| `Sensor` | ultrasonic_sensor.dfy | the clamped rate, one measurement step, runs of steps, and the class `UltrasonicSensor` with its measurement loop |
| `Panel` | control_panel.dfy | the class `ControlPanel`: a callback registry and a two-label power toggle |
| `SmartBin` | smart_bin_system.dfy | the status, auto-empty and colour rules, the topics, the messages a reading or a state change publishes, and the class `SmartBinSystem` wiring the three emulators |
| `Monitor` | monitor_gui.dfy | routing in the monitor, the level bands, the bin-panel map and the alarm list, with the class `BinMonitor` |
| `Wiring` | wiring.dfy | what the manager and the monitor make of each message the bin publishes, through their subscriptions |

Publishing is an append to an outbox. A callback is modelled by returning what it would be called with, and the owner runs the matching handler. The tables are sequences of rows, and a row's AUTOINCREMENT id is its position plus one. Timestamps are an abstract clock that never goes backwards; `CURRENT_TIMESTAMP` has one-second resolution, so rows often share a timestamp. SQLite leaves open the order of such ties under `ORDER BY timestamp DESC`, and the order of `SELECT DISTINCT`. The model fixes both: among equal timestamps the row inserted later comes first, and distinct bins come in order of first appearance (see Left out).

In four places the code behaves otherwise than its names and its other topics suggest; the model follows the code:

- A topic with no bin level, such as `municipal/bins/status`, is stored under the bin id `bins`. The three-segment check counts the base topic's own two levels (`AppManager.TopicWithoutBinLevel`).
- The fill level is not kept at or above 0. With the rate at 0, noise can push it below zero (`Sensor.LevelCanGoNegative`).
- The bin publishes actuator states on `municipal/bins//<bin>/actuator_state`, with an empty third level. No subscription of the manager matches that topic; see Findings.
- Acknowledging a row in the monitor only removes it from the list. The next refresh brings the alarm back while it is unacknowledged in the database (`Monitor.BinMonitor.AcknowledgeSelected`).

The manager reads the level the bin publishes, which is rounded to one decimal. It therefore raises a high-fill alarm from 79.95 on (`Wiring.RoundedReachesThreshold`). A bin at 79.96 shows `Normal` and does not empty itself, yet the manager alarms (`Wiring.AlarmBeforeNeedsEmptying`). The other direction holds: every reading that makes the bin need emptying also makes the manager alarm (`Wiring.NeedsEmptyingAlarms`).

## Model

| member | source | states |
|---|---|---|
| Strings.Split | app_manager.py:184 | `split("/")` yields at least one piece and no piece contains the separator |
| Strings.JoinSplit | app_manager.py:184 | joining the pieces of a split with the separator gives the topic back |
| Strings.SplitJoin | app_manager.py:184 | splitting a join of separator-free pieces gives the pieces back |
| Strings.SplitAfter | app_manager.py:184 | a separator after a separator-free head cuts exactly there |
| Strings.RemoveAllLeading | MonitorGUI.py:234 | `replace(BASE_TOPIC, "")` removes a leading copy of the base topic |
| Strings.RemoveAllNoMatch | MonitorGUI.py:234 | a string with fewer occurrences of some character than the pattern is left unchanged by `replace` |
| Numbers.ShowNatRoundTrip | SmartBinSystem.py:34 | the decimal digits of a number read back as that number |
| Numbers.ShowNatFourDigits | SmartBinSystem.py:34 | a number in 1000..9999 has four digits |
| Numbers.Tenths | SmartBinSystem.py:169 | `:.1f` shows the level times ten rounded to within half a unit |
| Numbers.Rounded1 | SmartBinSystem.py:169 | the value `:.1f` shows is within 0.05 of the level |
| Numbers.FormatParse | app_manager.py:195 | `float` applied to the `:.1f` text of any level succeeds and yields the level rounded to one decimal |
| TopicFilter.MatchSameDepth | app_manager.py:162-165 | a subscription without `#` only matches topics with as many levels |
| TopicFilter.MatchExactly | app_manager.py:162-165 | a subscription of literal levels and `+` matches exactly the same-depth topics that agree on every literal level |
| AppManager.Route | app_manager.py:175-202 | a message is ignored iff its topic is neither under the base topic nor the alarm topic, has fewer than three levels, has an unknown kind, or is a fill level `float` rejects; otherwise the bin id is the second-to-last level, the kind the last, and the payload is parsed or kept raw per kind |
| AppManager.BaseSegments | app_manager.py:184 | a topic under the base topic splits into `municipal`, `bins`, then the levels of the rest |
| AppManager.AlarmTopicIgnored | app_manager.py:179-202 | the manager's own alarms, received through its alarm subscription, are dropped |
| AppManager.RouteFillLevel | app_manager.py:188-196 | a fill level on a bin's topic is stored under that bin with the parsed level |
| AppManager.RouteStatus | app_manager.py:188-200 | a status on a bin's topic is stored under that bin, as sent |
| AppManager.RouteActuatorState | app_manager.py:188-202 | an actuator state on a bin's topic is stored under that bin, as sent |
| AppManager.BaseKindTopic | app_manager.py:184-189 | `municipal/bins/<kind>` reads as bin `bins`, kind `<kind>` |
| AppManager.TopicWithoutBinLevel | app_manager.py:184-202 | a known kind directly under the base topic is stored, under the bin id `bins` |
| AppManager.StoredDatabaseValid | app_manager.py:100-127 | tables as the program leaves them are numbered from 1 with timestamps no later than the newest |
| AppManager.ActiveNewestFirst | app_manager.py:307-320 | the active alarms are exactly the unacknowledged rows |
| AppManager.ActiveNewestFirstOrdered | app_manager.py:317 | on well-formed tables the active alarms come with non-increasing timestamps, and ids decrease (the model's order of ties) |
| AppManager.BinNewestFirst | app_manager.py:294-297 | the readings listed are exactly that bin's readings |
| AppManager.BinNewestFirstOrdered | app_manager.py:297 | on a well-formed table the bin's readings come with non-increasing timestamps, and ids decrease (the model's order of ties) |
| AppManager.Limit | app_manager.py:298 | `LIMIT n` keeps the first `n` rows; a negative `n` keeps all |
| AppManager.BinData | app_manager.py:287-302 | at most `limit` pairs, each the level and time of the bin's readings newest first, and all of them when `limit` is negative or large |
| AppManager.LatestReading | MonitorGUI.py:411-421 | a bin has a latest reading iff it has a reading, and the latest is one of its readings |
| AppManager.LatestReadingIsNewest | MonitorGUI.py:411-416 | on a well-formed table no reading of the bin has a later timestamp than the latest one |
| AppManager.LatestIsFirstOfNewest | MonitorGUI.py:411-421 | the latest reading is the first of the bin's readings newest first |
| AppManager.BinDataNewest | app_manager.py:294-298 | on a well-formed table the listed times do not increase, and no reading of the bin that `LIMIT` cuts off is newer than a listed one |
| AppManager.DistinctBins | MonitorGUI.py:401-407 | every bin with a reading is listed, nothing else, and none twice |
| AppManager.Acknowledged | app_manager.py:325-334 | only the row with that id gets `acknowledged` set; every other row and field stays |
| AppManager.AcknowledgeIdempotent | app_manager.py:325-334 | acknowledging twice is acknowledging once |
| AppManager.AcknowledgeUnknownId | app_manager.py:325-334 | an id no row has changes nothing |
| AppManager.AcknowledgeCommutes | app_manager.py:325-334 | acknowledgements of two ids can be made in either order |
| AppManager.AcknowledgedNotActive | app_manager.py:325-334 | after acknowledging, the active alarms are the previous ones minus that id |
| AppManager.DataManager.constructor | app_manager.py:100-127 | an existing database is kept, a missing one starts as three empty tables; nothing published, not connected |
| AppManager.DataManager.OnConnect | app_manager.py:157-168 | on success marks connected and adds the four subscriptions; the tables are unchanged |
| AppManager.DataManager.OnDisconnect | app_manager.py:170-173 | marks disconnected and changes nothing else |
| AppManager.DataManager.CreateAlarm | app_manager.py:262-285 | the alarm row is stored unacknowledged, then published; a failed insert publishes nothing, a failed publish keeps the row; every published notice has its stored row |
| AppManager.DataManager.HandleFillLevel | app_manager.py:207-226 | one reading appended; one HIGH_FILL alarm iff the level is at least 80, with no deduplication; a failed reading insert writes and publishes nothing |
| AppManager.DataManager.HandleStatus | app_manager.py:228-240 | one STATUS_CHANGE event with the raw payload, never an alarm |
| AppManager.DataManager.HandleActuatorState | app_manager.py:242-260 | one ACTUATOR_STATE event; one ACTUATOR_ERROR alarm iff the payload is exactly `ERROR` |
| AppManager.DataManager.OnMessage | app_manager.py:175-205 | an ignored message changes no table and publishes nothing; otherwise the handler the route names runs with the routed bin id and value |
| AppManager.DataManager.GetBinData | app_manager.py:287-305 | the bin's readings newest first, at most `limit` of them, with no cut-off reading newer than a listed one; no rows when the query fails |
| AppManager.DataManager.AdvanceClock | app_manager.py:50-71 | time passing before the next insert: the clock moves forward, the tables stay well formed and nothing else changes |
| AppManager.DataManager.GetActiveAlarms | app_manager.py:307-323 | bin, type, message and time of each unacknowledged alarm newest first, or no rows when the query fails |
| AppManager.DataManager.AcknowledgeAlarm | app_manager.py:325-336 | the alarm table becomes the acknowledged one; nothing else changes; a failed update changes nothing |
| Actuator.ValuesDistinct | BinActuator.py:21-28 | the five published state values identify the state |
| Actuator.EmittedEndsInState | BinActuator.py:102-106 | the callback's last state is the state the actuator is left in; a trigger reports nothing |
| Actuator.CompletedSequence | BinActuator.py:79-96 | a completed sequence reports OPENING, EMPTYING, CLOSING, IDLE, in that order, and ends IDLE |
| Actuator.FailedSequence | BinActuator.py:98-100 | a failing sequence reports the steps it reached, then ERROR, and ends in ERROR |
| Actuator.AlwaysResting | BinActuator.py:79-100 | between inputs the actuator is IDLE or ERROR, never mid-sequence |
| Actuator.ErrorIsSticky | BinActuator.py:71-73 | in ERROR, with or without a queued emptying thread, triggers change nothing and report nothing until power on or off |
| Actuator.UnpoweredNeverStarts | BinActuator.py:67-69 | an unpowered actuator never starts a sequence however often triggered |
| Actuator.BinActuator.constructor | BinActuator.py:44-48 | a new actuator is IDLE and unpowered |
| Actuator.BinActuator.UpdateState | BinActuator.py:102-106 | the state becomes the new state and the callback receives exactly it |
| Actuator.BinActuator.GetState | BinActuator.py:108-110 | returns the current state |
| Actuator.BinActuator.PowerOn | BinActuator.py:51-55 | powered and IDLE, reporting IDLE |
| Actuator.BinActuator.PowerOff | BinActuator.py:57-63 | unpowered and IDLE, reporting IDLE |
| Actuator.BinActuator.TriggerEmpty | BinActuator.py:65-77 | starts a sequence iff powered and IDLE; otherwise nothing changes |
| Actuator.BinActuator.EmptyingSequence | BinActuator.py:79-100 | the states the callback receives and the final state are those of the sequence, failing or not |
| Sensor.ClampRate | UltrasonicSensor.py:57 | the rate ends in [0, 10], equal to the input when it is in range, at the nearer bound otherwise |
| Sensor.ClampRateIdempotent | UltrasonicSensor.py:57 | clamping a clamped rate changes nothing |
| Sensor.NextLevel | UltrasonicSensor.py:79-81 | the new level is at most 100 and is either 100 or level plus rate plus noise |
| Sensor.NextLevelBounds | UltrasonicSensor.py:75-81 | one step moves a level below 100 up by at most rate plus 0.2 and down by at most 0.2 |
| Sensor.LevelCanGoNegative | UltrasonicSensor.py:75-81 | with rate 0 an empty bin can read below 0 |
| Sensor.TraceBounded | UltrasonicSensor.py:72-84 | every reported level, and the level after any run, is at most 100 |
| Sensor.FullIsSilent | UltrasonicSensor.py:78 | at 100 the loop reports nothing and the level stays |
| Sensor.TraceNonDecreasing | UltrasonicSensor.py:72-84 | with rate at least 0.2 the reported levels never go down and never fall below the start |
| Sensor.UltrasonicSensor.constructor | UltrasonicSensor.py:34-38 | not running, level 0.0, rate 1.0 |
| Sensor.UltrasonicSensor.Start | UltrasonicSensor.py:40-46 | running afterwards; starts only when it was not running |
| Sensor.UltrasonicSensor.Stop | UltrasonicSensor.py:48-53 | not running; level and rate kept |
| Sensor.UltrasonicSensor.SetFillRate | UltrasonicSensor.py:55-58 | the rate becomes the clamped input |
| Sensor.UltrasonicSensor.GetCurrentLevel | UltrasonicSensor.py:60-62 | returns the current level |
| Sensor.UltrasonicSensor.SimulateEmptying | UltrasonicSensor.py:64-68 | the level becomes 0 and 0 is reported |
| Sensor.UltrasonicSensor.MeasurementStep | UltrasonicSensor.py:72-95 | below 100 the level steps and is reported, and a raising callback stops the sensor; at 100 or above nothing happens |
| Sensor.UltrasonicSensor.MeasurementLoop | UltrasonicSensor.py:70-95 | the levels reported and the final level are those of the run of steps |
| Panel.Toggled | ControlPanel.py:109-111 | the new label is one of the two labels and differs from the old |
| Panel.ToggleTwice | ControlPanel.py:107-111 | toggling twice restores the label |
| Panel.PressesParity | ControlPanel.py:69-72 | from `Power ON`, the button reads `Power OFF` exactly after an odd number of presses |
| Panel.ControlPanel.constructor | ControlPanel.py:33 | no callbacks, label `Power ON`, LED red |
| Panel.ControlPanel.RegisterCallback | ControlPanel.py:86-89 | the callback is stored under its event, replacing an earlier one |
| Panel.ControlPanel.EmergencyEmpty | ControlPanel.py:91-95 | the `empty` callback is invoked iff registered |
| Panel.ControlPanel.RateChange | ControlPanel.py:97-105 | a value `float` accepts goes to `rate_change` if registered; anything else invokes nothing |
| Panel.ControlPanel.PowerToggle | ControlPanel.py:107-120 | the label flips; the LED is green and the callback gets true exactly when it reads `Power OFF` |
| SmartBin.Classify | SmartBinSystem.py:173-184 | Needs Emptying iff level ≥ 80, Recently Emptied iff level ≤ 5, Normal iff in between |
| SmartBin.StatusTextsDistinct | SmartBinSystem.py:174-184 | the three status texts identify the status |
| SmartBin.AutoEmptyOnlyWhenFull | SmartBinSystem.py:175-182 | emptying is requested only when the status is Needs Emptying |
| SmartBin.StateColour | SmartBinSystem.py:215-227 | ERROR red, IDLE green, OPENING/EMPTYING/CLOSING blue |
| SmartBin.NoStateIsBlack | SmartBinSystem.py:216-227 | the default black never shows for a reported state |
| SmartBin.BinName | SmartBinSystem.py:34 | `bin_` followed by four digits |
| SmartBin.BinNameInjective | SmartBinSystem.py:34 | different numbers give different bin ids |
| SmartBin.BinNameOneLevel | SmartBinSystem.py:34 | a bin id contains no `/` |
| SmartBin.ReactionsSnoc | SmartBinSystem.py:210-238 | the messages of one more state change follow those of the earlier ones |
| SmartBin.ReactionsLength | SmartBinSystem.py:229-236 | each state change publishes one actuator message plus two more per return to IDLE |
| SmartBin.CompletedEmptyingMessages | SmartBinSystem.py:229-236 | a completed emptying publishes OPENING, EMPTYING, CLOSING, the reset reading `0.0` with Recently Emptied, then IDLE |
| SmartBin.SmartBinSystem.constructor | SmartBinSystem.py:28-48 | bin id `bin_<n>`; sensor, panel (callbacks registered) and actuator in their initial states |
| SmartBin.SmartBinSystem.OnConnect | SmartBinSystem.py:149-155 | a successful connection starts the sensor |
| SmartBin.SmartBinSystem.OnSensorData | SmartBinSystem.py:161-191 | publishes the level then the status; triggers the actuator iff the level is at least 80 and it is IDLE |
| SmartBin.SmartBinSystem.OnActuatorStateChange | SmartBinSystem.py:210-238 | shows the state in its colour; IDLE resets the sensor to 0, publishing that reading; publishes the state |
| SmartBin.SmartBinSystem.DeliverNext | SmartBinSystem.py:210-238 | one more state change appends its messages after those of the earlier ones, and an IDLE among them leaves the sensor at 0 |
| SmartBin.SmartBinSystem.DeliverStates | SmartBinSystem.py:210-238 | a series of state changes publishes their messages in order, and any IDLE leaves the sensor at 0 |
| SmartBin.SmartBinSystem.OnEmptyRequest | SmartBinSystem.py:193-195 | the actuator is triggered |
| SmartBin.SmartBinSystem.OnRateChange | SmartBinSystem.py:197-199 | the sensor's rate becomes the clamped value |
| SmartBin.SmartBinSystem.OnPowerChange | SmartBinSystem.py:201-208 | on starts the sensor and powers the actuator on, off stops and powers off; either way IDLE resets the sensor and is published |
| SmartBin.SmartBinSystem.RunEmptyingThread | SmartBinSystem.py:210-238 | the actuator's sequence runs; only the states whose callback completes publish their messages, and the sensor is reset only after a completed run; unless the `Error` update's display calls raise too, the display ends on the actuator's state |
| SmartBin.CompletedCallbacks | SmartBinSystem.py:210-238 | the callbacks that complete are the states the actuator reports without the failing step, and without `Error` when its display calls raise too; IDLE completes iff the run does not fail |
| SmartBin.SmartBinSystem.SensorTick | SmartBinSystem.py:136 | one sensor step publishes the new reading and may trigger emptying; at 100 nothing happens |
| SmartBin.SmartBinSystem.PressEmergencyEmpty | SmartBinSystem.py:142 | the panel's emergency button triggers the actuator |
| SmartBin.SmartBinSystem.TurnRateKnob | SmartBinSystem.py:143 | the knob sets the clamped rate, or leaves it when `float` rejects the text |
| SmartBin.SmartBinSystem.PressPower | SmartBinSystem.py:144 | the button flips; the system is on exactly when it reads `Power OFF` |
| SmartBin.SmartBinSystem.OnClosing | SmartBinSystem.py:240-243 | the sensor stops and the actuator powers off, reporting IDLE |
| Monitor.LevelBand | MonitorGUI.py:289-295 | red iff level ≥ 80, yellow iff 60 ≤ level < 80, green iff below 60 |
| Monitor.LevelBandMonotone | MonitorGUI.py:289-295 | the band never goes down as the level goes up |
| Monitor.ShowLevel | MonitorGUI.py:283-295 | the panel shows the level with one decimal and a `%`, the level as progress and its band; the status is kept |
| Monitor.StoredRows | MonitorGUI.py:383-394 | one row per alarm, in order, tagged with its id |
| Monitor.MonitorRoute | MonitorGUI.py:226-245 | the alarm topic goes only to alarm handling; otherwise a parsable `fill_level` or any `status` updates the bin named by the first level after removing the base topic; anything else changes nothing |
| Monitor.ApplyLatestDomain | MonitorGUI.py:409-423 | a refresh creates panels exactly for the listed bins with readings |
| Monitor.ApplyLatestOthers | MonitorGUI.py:409-423 | a refresh leaves unlisted bins' panels as they were |
| Monitor.ApplyLatestShowsLatest | MonitorGUI.py:409-423 | each listed bin shows the level of `LatestReading`, whose newness `AppManager.LatestReadingIsNewest` proves |
| Monitor.RefreshShowsLatest | MonitorGUI.py:399-423 | after a full refresh, every bin with readings shows the level of `LatestReading`, the others are untouched |
| Monitor.RefreshShowsNewest | MonitorGUI.py:399-423 | on a well-formed table a full refresh shows each bin the level of one of its readings that no other reading of it is newer than |
| Monitor.BinMonitor.constructor | MonitorGUI.py:36 | no bins and no alarms |
| Monitor.BinMonitor.OnConnect | MonitorGUI.py:192-210 | on success subscribes to the fill-level, status and alarm topics |
| Monitor.BinMonitor.UpdateBinLevel | MonitorGUI.py:278-295 | the bin's panel, created on first sight, shows the level; no other bin changes |
| Monitor.BinMonitor.UpdateBinStatus | MonitorGUI.py:297-302 | the bin's panel, created on first sight, shows the status; no other bin changes |
| Monitor.BinMonitor.HandleAlarm | MonitorGUI.py:253-267 | the alarm goes on top of the list |
| Monitor.BinMonitor.OnMessage | MonitorGUI.py:218-251 | the panels and the list change as the route says and no other way |
| Monitor.BinMonitor.AcknowledgeSelected | MonitorGUI.py:344-354 | no selection changes nothing; otherwise only the selected row leaves the list |
| Monitor.BinMonitor.Refresh | MonitorGUI.py:360-433 | the list becomes exactly the unacknowledged alarms newest first (kept on a failed query), and the listed bins show their latest levels up to a failing query (newest by `Monitor.RefreshShowsNewest`) |
| Monitor.BinMonitor.ReloadAlarms | MonitorGUI.py:383-394 | the list is cleared, then holds one row per alarm in order: exactly `StoredRows` of them |
| Monitor.BinMonitor.ShowLatestLevels | MonitorGUI.py:409-421 | the loop over the listed bins leaves the panels as `ApplyLatest` says; the list is kept |
| Wiring.FillReachesManager | SmartBinSystem.py:168-171 | a reading reaches the manager through its `+/fill_level` subscription and is stored under the bin id with the rounded level |
| Wiring.StatusReachesManager | SmartBinSystem.py:186-188 | a status reaches the manager through its `+/status` subscription and is stored as sent under the bin id |
| Wiring.ActuatorTopicRoutesToBin | SmartBinSystem.py:235 | the extra `/` still leaves the bin id second to last, so the manager's routing would find the bin |
| Wiring.ActuatorTopicNotSubscribed | SmartBinSystem.py:235 | no subscription of the manager matches the actuator topic |
| Wiring.IntendedActuatorTopic | SmartBinSystem.py:235 | the topic without the extra `/` has the four levels of the other bin topics |
| Wiring.IntendedActuatorTopicDelivered | app_manager.py:164 | on that topic the state reaches the manager and is stored under the bin id |
| Wiring.MonitorBinIdOfBinTopic | MonitorGUI.py:234 | the monitor reads `b` as the bin id of `municipal/bins/b/kind` |
| Wiring.FillReachesMonitor | MonitorGUI.py:199-240 | a reading reaches the monitor and shows the rounded level on the bin's panel |
| Wiring.StatusReachesMonitor | MonitorGUI.py:199-245 | a status reaches the monitor and shows on the bin's panel as sent |
| Wiring.AlarmsReachMonitor | MonitorGUI.py:202 | the alarm topic matches the monitor's alarm subscription |
| Wiring.RoundedReachesThreshold | app_manager.py:220 | the manager alarms on a published level iff the sensor's level is at least 79.95 |
| Wiring.NeedsEmptyingAlarms | app_manager.py:220 | every reading the bin classes as Needs Emptying makes the manager store a level of at least 80 |
| Wiring.AlarmBeforeNeedsEmptying | SmartBinSystem.py:175 | at 79.96 the bin shows Normal while the manager reads 80.0 |

## Left out

- MQTT transport: client setup, connecting, the network loop, the actual `publish` and `subscribe` calls, and broker address resolution. A publish is an append to an outbox, and the subscriptions are a list of filters.
- SQLite: the SQL text, `init_database`, the unused `setup_database`, and the table-presence check. An existing database either has its three tables or starts empty (`AppManager.DataManager.constructor`). A failing statement is a parameter of the operation.
- SmartBin.SmartBinSystem.RunEmptyingThread: a raising callback is taken to raise at its first display call (SmartBinSystem.py:213). One that raises at the colour call (SmartBinSystem.py:227) has already shown the new state text; the model does not capture that text, which a later completed update overwrites. The sleeps between the steps do not raise and are not a failure point of the composition.
- Threads, sleeps and join timeouts. The emptying sequence runs as a whole when its thread is run, and no other step interleaves with it. A started thread is counted in `pending`. Because of this, the race in `trigger_empty`, where the state stays IDLE until the thread runs, can start more than one sequence.
- Actuator.BinActuator.PowerOff: waiting for the emptying thread to end is not modelled.
- Tk: widgets, styles, layout, the status bar, message boxes and scheduling. An update scheduled with `after(0, ...)` is applied at once, and the periodic refresh is a method the caller invokes.
- JSON: the monitor receives the alarm object the payload decodes to, or `None` when decoding fails. The text encoding is not modelled.
- Randomness: the noise of `random.uniform(-0.2, 0.2)` and the bin number of `random.randint(1000, 9999)` are parameters with range preconditions.
- Floating point: levels are exact reals. `float()` covers optional surrounding ASCII whitespace, one sign, and digits with an optional decimal point. Exponents, `inf`, `nan`, underscores and Unicode whitespace are rejected by the model.
- Numbers.Format1: formats exact reals; the binary rounding of a Python float before `:.1f` is not modelled.
- AppManager.DataManager.OnMessage: a payload that is not valid UTF-8 (`decode` raising) is not modelled; payloads are text.
- AppManager.ActiveNewestFirst, AppManager.ActiveNewestFirstOrdered: SQLite leaves open the order of alarms with equal timestamps; the model puts the later-inserted row first, so the decreasing ids are a property of the model, not of the program.
- AppManager.BinNewestFirst, AppManager.BinNewestFirstOrdered, AppManager.BinData: the same holds for a bin's readings with equal timestamps, which `get_bin_data` may list, and cut off by `LIMIT`, in any order.
- AppManager.LatestReading: among a bin's readings in the same second, which one `LIMIT 1` returns is left open by SQLite; the model picks the one inserted last. What `AppManager.LatestReadingIsNewest` proves of the pick, that no reading of the bin is newer, is shared by every row the database could return.
- AppManager.DistinctBins: SQLite leaves the order of `SELECT DISTINCT` open; the model lists bins in order of first appearance. Only which bins are listed, once each, is a property of the program.
- Timestamps: `CURRENT_TIMESTAMP` in the tables and `datetime.now()` in the notices are both the one abstract clock. Its ISO text is not modelled.
- Logging and the `logger` calls.
- The monitor's `_on_disconnect`, and the status-bar texts it sets.
- The knob's own range and starting value (`ttk.Scale` from 0 to 10, starting at 1.0) are constants of `Panel` and are not tied to what Tk passes.

## Findings

| source | as written | input that shows it | evidently intended | confidence | as-written member | corrected member |
|---|---|---|---|---|---|---|
| SmartBinSystem.py:235 | the actuator topic is `BASE_TOPIC + "/" + bin_id + "/actuator_state"`; `BASE_TOPIC` already ends in `/`, so the topic has five levels and no subscription of the manager (app_manager.py:162-165) matches it | any actuator state of any bin, e.g. `ERROR` from `bin_1000` on `municipal/bins//bin_1000/actuator_state`: the manager stores no event and raises no ACTUATOR_ERROR alarm | `municipal/bins/<bin>/actuator_state`, as the other bin topics and the `+/actuator_state` subscription expect | high; not executed | Wiring.ActuatorTopicNotSubscribed | Wiring.IntendedActuatorTopicDelivered |

The bin model (`SmartBin.ActuatorTopic`) keeps the topic as written, because it models the code. The corrected topic is `Wiring.IntendedActuatorTopic`. `Wiring.IntendedActuatorTopicDelivered` proves that the state then reaches the manager and is routed to `AppManager.DataManager.HandleActuatorState` for the right bin.
