# CamAutoLight in Dafny

CamAutoLight switches Elgato Key Lights on while a webcam is in use and off again once it
stops. This project models its core and proves properties of the model:

- **The macOS monitor** (`CameraMonitorService`, module `MacMonitor`). It classifies each
  power-log line by its markers. An "on" line cancels the pending off-timer and turns the
  lights on at once. An "off" line arms a fresh 3000 ms off-timer and makes it the current
  handle. The handle it had before is overwritten and not cancelled. `CheckInitialCameraState`
  applies the same markers to a log snapshot.
- **The Windows monitor** (`WindowsCameraMonitorService`, module `WindowsMonitor`). It has
  the process-name classifier `IsCameraInUse` and edge detection on `_lastCameraState`
  (`CheckCameraStateChange`). It has `HandleCameraOn`/`HandleCameraOff`. The off-timer checks
  the process list again when it runs. The model also covers the start-up check and `Dispose`.
- **Configuration** (`ConfigManager`, module `Config`). `LoadConfig` splits the address
  string on ',' and reads the two integers with default -1. `ValidateConfig` runs its three
  checks in source order.
- **The light client** (`ElgatoLightService`, module `Lights`). It sends one request per
  configured address, in list order. The model covers the URL and the two JSON bodies.

Shared pieces:
- `Timers` holds the cancellable timers on an explicit millisecond clock. A timer's id is its
  index in an append-only table, and a handle is an `Option` of such an id.
- `Traces` holds commands, transitions and replaying a run of events.
- `Text` holds substring search, .NET white space, split/join and decimal integers.
- `Wrappers` holds `Option` and `Outcome`.

Each monitor is a pure step function `Step(state, event) -> (state, commands)`. A run of
events replays it. Time moves only through explicit `Advance` events. An `Advance` step
runs every pending timer whose deadline falls within it. Each of them is marked run, and
its "turn off" is stamped, with the time at the end of that step, which may be later than
the deadline. Process lists and log lines are inputs of the events.

## Model

| member | source | states |
|---|---|---|
| MacMonitor.ProcessLogEvent | CamAutoLight/Services/CameraMonitorService.cs:81-123 | a null or blank line changes nothing. A command is issued exactly when the line carries the on marker, and it is "turn on". An "on" line marks the handle's timer cancelled (its deadline and run time unchanged), clears the handle and leaves every other timer as it was. An "off" line (with no on marker) appends one uncancelled timer due 3000 ms later and makes it the handle. Any other line changes nothing |
| MacMonitor.AdvanceClock | CamAutoLight/Services/CameraMonitorService.cs:108-121 | moving the clock runs exactly the pending timers whose deadline has come. Each of them is marked run at the new time, every other timer is unchanged, and there is one "turn off" per timer run |
| MacMonitor.LineInvariant | CamAutoLight/Services/CameraMonitorService.cs:81-123 | a log line keeps the monitor invariant, never undoes a cancellation or a run, and runs no timer |
| MacMonitor.AdvanceInvariant | CamAutoLight/Services/CameraMonitorService.cs:108-121 | moving the clock keeps the invariant, and the "turn off" commands issued equal the timers newly run |
| MacMonitor.StepInvariant | CamAutoLight/Services/CameraMonitorService.cs:81-123 | any event keeps the invariant, only extends the timer table, and moves the clock by its own advance |
| MacMonitor.RunInvariant | CamAutoLight/Services/CameraMonitorService.cs:81-123 | over any run: the invariant holds at the end, the clock has moved by the elapsed time, and each "turn off" in the trace is one timer that ran |
| MacMonitor.CancelledTimerNeverFires | CamAutoLight/Services/CameraMonitorService.cs:108-121 | a timer cancelled before it ran never runs later in any run, so its "turn off" is never sent |
| MacMonitor.UncancelledTimerFires | CamAutoLight/Services/CameraMonitorService.cs:108-121 | a pending timer whose deadline falls within a run has, by the end of the run, either run or been cancelled. If it ran, it ran no earlier than its deadline and no later than the end of the run |
| MacScenarios.QuietRun | CamAutoLight/Services/CameraMonitorService.cs:88-98 | with no "off" line and no deadline reached, no "turn off" is issued and no timer is added. The handle still names the only pending timer |
| MacScenarios.OffFromQuiet | CamAutoLight/Services/CameraMonitorService.cs:100-108 | from a state with nothing pending, an "off" line makes the newly appended timer the handle. That timer is pending and due 3000 ms later, and it is the only pending timer |
| MacScenarios.OnSilences | CamAutoLight/Services/CameraMonitorService.cs:88-97 | an "on" line cancels the only pending timer, leaves nothing pending and issues no "turn off" |
| MacScenarios.FlapSuppressed | CamAutoLight/Services/CameraMonitorService.cs:88-122 | from a state with nothing pending: off, less than 3000 ms, then on, with no other "off" line anywhere, never turns the lights off |
| MacScenarios.OffOrphansPendingTimer | CamAutoLight/Services/CameraMonitorService.cs:105 | a second "off" line moves the handle away from the pending timer, and a later "on" line leaves that timer pending |
| MacScenarios.OrphanedTimerTurnsLightsOff | CamAutoLight/Services/CameraMonitorService.cs:88-122 | from any state with nothing pending: off, off, on at the same instant, then 3000 ms. The lights go on at once, and then the orphaned first timer turns them off 3000 ms later |
| MacScenarios.LoneOffFiresOnce | CamAutoLight/Services/CameraMonitorService.cs:100-121 | a lone "off" line gives no command before 3000 ms and exactly one "turn off" once 3000 ms have passed |
| MacScenarios.RepeatedOffKeepsFirstDeadline | CamAutoLight/Services/CameraMonitorService.cs:100-121 | off at 0 and again at 1000 turn the lights off at 3000 and again at 4000. The second "off" line does not push the first deadline back |
| MacScenarios.InitialCheckAgreesWithLiveHandler | CamAutoLight/Services/CameraMonitorService.cs:19-47 | the start-up check answers "on" exactly when the live handler would turn the lights on for the same text. It answers "off" exactly when the handler would arm a timer, and nothing exactly when the handler ignores the text |
| WindowsMonitor.AnyCameraApp | CamAutoLight/Services/WindowsCameraMonitorService.cs:123-146 | true exactly when some running process has one of the eleven listed names |
| WindowsMonitor.AnyCameraLike | CamAutoLight/Services/WindowsCameraMonitorService.cs:149-164 | true exactly when some running process has a name containing "camera", "webcam" or "cam", ignoring case |
| WindowsMonitor.IsCameraInUse | CamAutoLight/Services/WindowsCameraMonitorService.cs:118-173 | a process enumeration that throws gives "not in use", and so does an empty process list. A listed application gives "in use" |
| WindowsMonitor.CameraLikeIsCam | CamAutoLight/Services/WindowsCameraMonitorService.cs:151-155 | the three-way name test is equivalent to the test for "cam" alone |
| WindowsMonitor.InUseIffAppOrCam | CamAutoLight/Services/WindowsCameraMonitorService.cs:118-173 | the camera is in use exactly when some process is a listed application or has "cam" in its name in any case |
| WindowsMonitor.CheckCameraStateChange | CamAutoLight/Services/WindowsCameraMonitorService.cs:90-116 | a poll that agrees with `_lastCameraState` changes nothing. A change records the new reading and leaves the clock and disposal alone. A change to "in use" turns the lights on, marks the handle's timer cancelled (its deadline and run time unchanged), clears the handle and leaves every other timer as it was. A change to "not in use" issues nothing yet, appends exactly one uncancelled timer due 3000 ms later and makes it the handle |
| WindowsMonitor.HandleCameraOn | CamAutoLight/Services/WindowsCameraMonitorService.cs:175-182 | turns the lights on at once, marks the handle's timer cancelled (its deadline and run time unchanged), clears the handle and leaves every other timer, the clock, the last reading and disposal as they were |
| WindowsMonitor.HandleCameraOff | CamAutoLight/Services/WindowsCameraMonitorService.cs:184-206 | issues nothing yet, appends exactly one uncancelled timer due 3000 ms later, makes it the handle and leaves the clock, the last reading and disposal as they were |
| WindowsMonitor.AdvanceClock | CamAutoLight/Services/WindowsCameraMonitorService.cs:192-205 | moving the clock runs exactly the pending timers whose deadline has come, marking them run at the new time. Every other timer, the handle, the last reading and disposal are unchanged. When the camera is in use at that moment nothing is issued. Otherwise there is one "turn off" per timer that runs, at the new time |
| WindowsMonitor.DisposeMonitor | CamAutoLight/Services/WindowsCameraMonitorService.cs:208-215 | `Dispose` issues nothing, marks the monitor disposed, marks the handle's timer cancelled (its deadline and run time unchanged) and leaves every other timer, the handle, the clock and the last reading as they were |
| WindowsMonitor.CheckInitialCameraState | CamAutoLight/Services/WindowsCameraMonitorService.cs:28-51 | the start-up check issues exactly one command and leaves the state alone, `_lastCameraState` included. The command is "turn on" exactly when the camera is in use |
| WindowsScenarios.HandleOnInvariant | CamAutoLight/Services/WindowsCameraMonitorService.cs:175-182 | `HandleCameraOn`, with "in use" recorded, keeps the invariant, so no timer is left pending. It runs no timer and issues no "turn off" |
| WindowsScenarios.HandleOffInvariant | CamAutoLight/Services/WindowsCameraMonitorService.cs:184-206 | `HandleCameraOff`, with "not in use" recorded, keeps the invariant, so only the new handle's timer can be pending. It runs no timer |
| WindowsScenarios.PollInvariant | CamAutoLight/Services/WindowsCameraMonitorService.cs:90-116 | a poll keeps the invariant, only extends the timer table, leaves the clock alone and runs nothing |
| WindowsScenarios.AdvanceInvariant | CamAutoLight/Services/WindowsCameraMonitorService.cs:192-205 | moving the clock keeps the invariant, and every "turn off" issued is a timer that ran |
| WindowsScenarios.DisposeInvariant | CamAutoLight/Services/WindowsCameraMonitorService.cs:208-215 | `Dispose` keeps the invariant, which for a disposed monitor means nothing is pending. It issues nothing and runs no timer |
| WindowsScenarios.RunInvariant | CamAutoLight/Services/WindowsCameraMonitorService.cs:90-116 | over any run: the invariant holds, the clock moves by the elapsed time, and "turn off" commands never outnumber the timers that ran |
| WindowsScenarios.AtMostOneLiveTimer | CamAutoLight/Services/WindowsCameraMonitorService.cs:175-206 | under the invariant at most one off-timer is pending |
| WindowsScenarios.AtMostOneLiveTimerOnRuns | CamAutoLight/Services/WindowsCameraMonitorService.cs:90-116 | after any run from start-up, at most one off-timer is pending |
| WindowsScenarios.OffHandledOnlyWhenQuiet | CamAutoLight/Services/WindowsCameraMonitorService.cs:96-109 | a poll reaches `HandleCameraOff` only when no timer is pending, and afterwards exactly the new one is |
| WindowsScenarios.AtMostOneOffPerAdvance | CamAutoLight/Services/WindowsCameraMonitorService.cs:192-205 | one clock step issues at most one "turn off", and none while the camera is in use when the timer runs |
| WindowsScenarios.FlapSuppressed | CamAutoLight/Services/WindowsCameraMonitorService.cs:90-206 | the camera goes out of use, then any run of polls that find it out of use and clock steps totalling less than 3000 ms, then a poll that finds it in use: no "turn off" is issued and nothing is left pending |
| WindowsScenarios.OffArmsFreshTimer | CamAutoLight/Services/WindowsCameraMonitorService.cs:96-109 | the poll that sees the camera go out of use issues nothing and keeps the invariant. It appends an uncancelled timer due 3000 ms later and makes it the handle, and every pending timer is due more than the given wait ahead |
| WindowsScenarios.QuietWait | CamAutoLight/Services/WindowsCameraMonitorService.cs:90-116 | while polls find the camera out of use and no pending deadline is reached, nothing is issued and the invariant holds |
| WindowsScenarios.QuietStep | CamAutoLight/Services/WindowsCameraMonitorService.cs:90-116 | one such poll or clock step issues nothing, keeps the timers and the invariant, and moves the clock by its own advance |
| WindowsScenarios.DisposedIsSilent | CamAutoLight/Services/WindowsCameraMonitorService.cs:208-215 | once disposed, the monitor issues no command in any run |
| WindowsScenarios.DisposeSilences | CamAutoLight/Services/WindowsCameraMonitorService.cs:208-215 | `Dispose` followed by any events issues no command |
| WindowsScenarios.StartupThenFirstPoll | CamAutoLight/Services/WindowsCameraMonitorService.cs:28-51 | the start-up check does not set `_lastCameraState` (line 88). With the camera in use, the first poll turns the lights on a second time. Otherwise the start-up check turns them off and the first poll does nothing |
| Config.LoadConfig | CamAutoLight/Config/ConfigManager.cs:16-28 | a null or blank address string leaves the list as it was. Otherwise the old list is kept as a prefix and the appended addresses are comma-free and join back with ',' to the string. A missing integer reads as -1 |
| Config.ValidateConfig | CamAutoLight/Config/ConfigManager.cs:30-49 | passes exactly when the configuration is valid. Each error is reported exactly when its check fails and the earlier checks pass, in source order |
| Config.MissingSettingFails | CamAutoLight/Config/ConfigManager.cs:26-27 | a missing brightness or temperature always makes validation fail |
| Config.BlankAddressesFailFirst | CamAutoLight/Config/ConfigManager.cs:20-35 | on first load, a null or blank address string gives the "no addresses" error, whatever the integers |
| Config.LoadRecoversJoinedList | CamAutoLight/Config/ConfigManager.cs:20-24 | a non-empty list of comma-free addresses whose joined string is not blank loads back as exactly that list (a blank string is skipped, so `[""]` and `[" "]` load as nothing) |
| Config.LoneCommaGivesTwoEmptyAddresses | CamAutoLight/Config/ConfigManager.cs:21-23 | the string "," loads as two empty addresses (nothing trimmed, empty pieces kept) and passes the address check |
| Config.LoadedAddressCount | CamAutoLight/Config/ConfigManager.cs:21-23 | a non-blank string adds one more address than it has commas |
| Lights.HostOfUrl | CamAutoLight/Services/ElgatoLightService.cs:41 | the light's address is recovered from the request URL |
| Lights.DeliveryTargetsItsLight | CamAutoLight/Services/ElgatoLightService.cs:41-45 | every PUT goes to the URL of its own light |
| Lights.OnBodyPieces | CamAutoLight/Services/ElgatoLightService.cs:37 | the "on" body is the brightness piece, the temperature piece and the closing piece, joined with ',' |
| Lights.ParseOnBodyRoundTrip | CamAutoLight/Services/ElgatoLightService.cs:36-38 | the "on" body reads back as exactly the brightness and temperature it was built from |
| Lights.OffBodyIsNotOn | CamAutoLight/Services/ElgatoLightService.cs:38 | the "off" body never reads as an "on" body |
| Lights.BodiesDistinguishSettings | CamAutoLight/Services/ElgatoLightService.cs:36-38 | different settings give different "on" bodies, and no "on" body equals the "off" body |
| Lights.FanOut | CamAutoLight/Services/ElgatoLightService.cs:18-32 | one request per address, in list order, each carrying that address and the given settings |
| Lights.Requests | CamAutoLight/Services/ElgatoLightService.cs:18-32 | one request per configured address, in list order. Each is the request `SendCommand` makes of that address: "turn on" requests carry the configured brightness and temperature and turn on, "turn off" requests carry 0 and 0 and do not turn on |
| Lights.RequestBodies | CamAutoLight/Services/ElgatoLightService.cs:18-38 | every "turn on" request carries the "on" body of the configured settings, and every "turn off" request carries the "off" body |
| Lights.SendCommand | CamAutoLight/Services/ElgatoLightService.cs:18-57 | one delivery per configured address, in list order, each with the command's request for that address. Each records whether the network accepted it, and a failure never stops the loop |
| Lights.Dispatch | CamAutoLight/Services/ElgatoLightService.cs:18-32 | a trace of commands stands for one request per command per address |
| Lights.DispatchOne | CamAutoLight/Services/ElgatoLightService.cs:18-32 | a single command stands for exactly the requests it lists |
| Lights.DispatchAppend | CamAutoLight/Services/ElgatoLightService.cs:18-32 | the requests of two traces one after the other are the requests of their concatenation |
| Lights.DispatchSplit | CamAutoLight/Services/ElgatoLightService.cs:18-32 | each command of a trace contributes exactly its own requests, in place, after one request per address for each earlier command |
| Lights.ValidSettingsGiveValidOnBodies | CamAutoLight/Config/ConfigManager.cs:30-49 | a configuration that passes validation reaches at least one light, and every "on" body sent reads back as the configured brightness (1 to 100) and temperature (143 to 344) |
| Text.Contains | CamAutoLight/Services/CameraMonitorService.cs:88 | `Contains` is true exactly when the marker occurs at some position of the line |
| Text.SplitJoin | CamAutoLight/Config/ConfigManager.cs:23 | splitting the join of comma-free pieces gives the pieces back |
| Text.ParseIntToString | CamAutoLight/Services/ElgatoLightService.cs:37 | an integer rendered in decimal reads back as itself |

## Left out

- Process I/O is not modelled: running `log stream` and `log show` (`MonitorLogStream`,
  `RunLogCommand`) and enumerating processes. Log lines, the start-up snapshot and process
  name lists are inputs instead.
- `Process.GetProcessesByName` is modelled as exact name equality, and a process list that
  cannot be read is `None`. A failing enumeration is caught inside `IsCameraInUse`, so
  `CheckCameraStateChange` and `CheckInitialCameraState` never reach their own `catch`
  blocks. Those blocks are not modelled separately.
- Case-insensitive "cam" matching folds ASCII letters only. Culture-specific case rules are
  out of scope.
- Threads are not modelled. Polls, log lines and timer continuations run in the order the
  events give, one at a time. `Task.Delay`, the 2-second polling timer and the 1-second
  keep-alive loop are not modelled as clocks of their own. Polls may come at any time.
- A timer runs in the first `Advance` step that reaches its deadline, and its "turn off" is
  stamped with the time at the end of that step. A continuation that races with the line or
  poll that cancels it is not modelled.
- `HttpClient` is reduced to a `Request -> bool` parameter of `SendCommand`. Status codes,
  timeouts and the blocking `.Result` are not modelled. The UTF-8 encoding and the content
  type of the body are not modelled either.
- Logging is left out: every `_logger` call, and the error stream of the `log` process.
- Reading the `.env` file (`DotNetEnv`) is reduced to its results, passed to `LoadConfig`: the
  raw `ip_addresses` string and the two integers, each as `Option`. A present integer that
  does not parse is not modelled.
- `Program.cs`, `CameraMonitorServiceFactory` and the interfaces are wiring only and are not
  modelled.
- C#'s 32-bit `int` is modelled as an unbounded integer. The range checks in `ValidateConfig`
  keep valid values small, so wrap-around never matters there.
- The light service copies the address list reference and the two integers when it is
  constructed. The model takes a snapshot of all three.
- Lights.Requests: "off" requests carry brightness 0 and temperature 0, as the source passes
  them. The body ignores both.
- MacMonitor.CheckInitialCameraState has no contract of its own. It is stated through
  MacScenarios.InitialCheckAgreesWithLiveHandler.
- WindowsScenarios.RunInvariant bounds the "turn off" commands by the timers that ran
  (`<=`), not `==`. A timer that runs while the camera is in use sends nothing.
- On macOS a repeated "off" line arms a second timer and orphans the first
  (MacScenarios.OrphanedTimerTurnsLightsOff), so more than one timer can be pending there.
  On Windows at most one can (WindowsScenarios.AtMostOneLiveTimerOnRuns). The Windows
  start-up check always issues a command, and a process enumeration that fails counts as
  "not in use".
- WindowsMonitor.DisposeMonitor: a second `Dispose` is a no-op in the model. In the source
  it cancels token sources it has already disposed, which throws `ObjectDisposedException`;
  that exception is not modelled.
