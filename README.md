# Big Blue Bluetooth hand controller — controller core in Dafny

The Android hand controller drives a rover over a Bluetooth serial link. Its
one screen (`MainActivity`) holds three pieces of state: whether the socket is
connected, whether a spiral search is running, and the spiral speed (1, 2 or 3).
Four direction buttons, a spiral button, a speed button and a connect button
change that state, and may write one ASCII line to the socket:
`<DIR>,START`, `<DIR>,STOP`, `SPIRAL,START,<n>`, `SPIRAL,STOP` or
`SPIRAL,SPEED,<n>`, each ended by a newline.

The project has three modules:

- `Wire` (`wire.dfy`): the commands, their exact wire text (`Encode`), and a
  reference parser (`Decode`) used to prove that the text format is
  unambiguous. The app itself never parses; `Decode` is what any reader of the
  format has to do, and the rover firmware is not part of this model.
- `Controller` (`controller.dfy`): the screen's state as a value
  (`connected`, `spiralActive`, `speed`, and `log`, the lines written so far),
  one function per listener body or helper of the activity, an `Event` type
  with `Step`/`Run` to replay sessions, an independent table `Emitted` of which
  command each event writes, and the lemmas about them.
- `Activity` (`activity.dfy`): the class `MainActivity` with those four
  fields, whose methods update them in place as the Kotlin listeners do, and
  call each other as the Kotlin methods do (`OnDestroy` calls
  `StopSpiralSearch` then `DisconnectBluetooth`, and so on). Each method
  ensures that the new fields are the matching `Controller` function of the
  old ones and keeps the speed in 1..3 (`Valid()`), so every lemma about `Controller` holds of the class.

The connection attempt that runs on a background thread is abstracted as two
external events: `OnConnected` (the socket connected, lines 193-200) and
`OnConnectFailed` (the I/O exception path, lines 202-208, which calls
`disconnectBluetooth`). The outcomes that change nothing (permissions missing,
adapter absent or disabled, device not paired) need no event.

Four behaviours of the code are easy to miss:

- There is no per-direction "pressed" state. An up or cancel event sends
  `<DIR>,STOP` whenever no spiral runs, even with no press before it
  (`SessionStopWithoutStart`).
- `disconnectBluetooth` does not clear the spiral flag, so a spiral "survives"
  a disconnect. After reconnecting, the first direction press only stops it
  (`SessionSpiralSurvivesDisconnect`).
- `onDestroy` calls `stopSpiralSearch` unconditionally, so with the link up it
  writes `SPIRAL,STOP` even when no spiral runs (`SessionDestroy`).
- There is no spiral trajectory, timer or pulse: the app only sends
  `SPIRAL,START/STOP/SPEED` and leaves the pattern to the rover.

## Model

| member | source | states |
|---|---|---|
| Wire.NatToDecimal | AndroidApp/app/src/main/java/com/example/bigbluebluetoothhandcontroller/MainActivity.kt:85 | the speed as the string template renders it: a non-empty canonical numeral, one digit exactly for values below 10, a leading '0' only for zero |
| Wire.IntToDecimal | AndroidApp/app/src/main/java/com/example/bigbluebluetoothhandcontroller/MainActivity.kt:261 | an Int rendered as one token with no comma and no newline, so it cannot break the line format |
| Wire.ParseIntOfDecimal | AndroidApp/app/src/main/java/com/example/bigbluebluetoothhandcontroller/MainActivity.kt:261 | the rendered numeral of every Int reads back as that Int |
| Wire.DecimalOfParseInt | AndroidApp/app/src/main/java/com/example/bigbluebluetoothhandcontroller/MainActivity.kt:85 | every numeral the reference parser accepts is the one the app would write: numerals are unambiguous |
| Wire.Encode | AndroidApp/app/src/main/java/com/example/bigbluebluetoothhandcontroller/MainActivity.kt:97-118 | the line written for a command (`<DIR>,START`, `<DIR>,STOP` here; `SPIRAL,SPEED,n` at line 85, `SPIRAL,START,n` at 261, `SPIRAL,STOP` at 267) ends in exactly one newline, which occurs nowhere else |
| Wire.EncodeAscii | AndroidApp/app/src/main/java/com/example/bigbluebluetoothhandcontroller/MainActivity.kt:225 | every character of every command's line is 7-bit ASCII, so `toByteArray()` (UTF-8) writes exactly one byte per character |
| Wire.DecodeEncode | AndroidApp/app/src/main/java/com/example/bigbluebluetoothhandcontroller/MainActivity.kt:111 | every command's line parses back to that command |
| Wire.DecodeIsInverse | AndroidApp/app/src/main/java/com/example/bigbluebluetoothhandcontroller/MainActivity.kt:116 | a line parses to command c if and only if it is c's encoding |
| Wire.EncodeInjective | AndroidApp/app/src/main/java/com/example/bigbluebluetoothhandcontroller/MainActivity.kt:267 | two different commands never produce the same line |
| Controller.SendCommand | AndroidApp/app/src/main/java/com/example/bigbluebluetoothhandcontroller/MainActivity.kt:218-232 | with the link up exactly the given line is appended; without it the state is unchanged; the flags and speed never change |
| Controller.NextSpeed | AndroidApp/app/src/main/java/com/example/bigbluebluetoothhandcontroller/MainActivity.kt:82 | the speed step stays in 1..3 for non-negative speeds and is the cycle 1→2→3→1 (`speed % 3 + 1`) |
| Controller.CycleSpeed | AndroidApp/app/src/main/java/com/example/bigbluebluetoothhandcontroller/MainActivity.kt:81-87 | speed advances by NextSpeed; `SPIRAL,SPEED,<new speed>` is appended exactly when a spiral runs and the link is up; link and spiral flags unchanged |
| Controller.DisconnectBluetooth | AndroidApp/app/src/main/java/com/example/bigbluebluetoothhandcontroller/MainActivity.kt:234-244 | the link ends down; spiral flag, speed and log are untouched |
| Controller.ToggleConnection | AndroidApp/app/src/main/java/com/example/bigbluebluetoothhandcontroller/MainActivity.kt:89-95 | the connect button always leaves the link down (closing it if open, only requesting an attempt if not) and writes nothing |
| Controller.OnConnected | AndroidApp/app/src/main/java/com/example/bigbluebluetoothhandcontroller/MainActivity.kt:193-200 | a successful attempt brings the link up and changes nothing else |
| Controller.StartSpiralSearch | AndroidApp/app/src/main/java/com/example/bigbluebluetoothhandcontroller/MainActivity.kt:256-262 | a complete no-op without a link; with one, the spiral becomes active and `SPIRAL,START,<current speed>` is appended |
| Controller.StopSpiralSearch | AndroidApp/app/src/main/java/com/example/bigbluebluetoothhandcontroller/MainActivity.kt:264-268 | the spiral always ends inactive; `SPIRAL,STOP` is appended if and only if the link is up |
| Controller.ToggleSpiral | AndroidApp/app/src/main/java/com/example/bigbluebluetoothhandcontroller/MainActivity.kt:124-130 | the spiral ends active if and only if it was off and the link is up; the line written is START with the speed, STOP, or nothing accordingly |
| Controller.TouchDirection | AndroidApp/app/src/main/java/com/example/bigbluebluetoothhandcontroller/MainActivity.kt:104-121 | a press during a spiral clears the spiral and writes at most `SPIRAL,STOP`, never a direction START; a press otherwise writes at most `<DIR>,START` and the spiral stays off; an up or cancel writes `<DIR>,STOP` (link up) exactly when no spiral runs, whatever came before; other motions change nothing |
| Controller.OnDestroy | AndroidApp/app/src/main/java/com/example/bigbluebluetoothhandcontroller/MainActivity.kt:270-274 | teardown ends with the spiral off and the link down; `SPIRAL,STOP` is written if the link was up, whether or not a spiral ran |
| Controller.StepLog | AndroidApp/app/src/main/java/com/example/bigbluebluetoothhandcontroller/MainActivity.kt:80-131 | each event appends exactly the line of the command given by the independent table Emitted, and that table names a command only when the link is up |
| Controller.RunLog | AndroidApp/app/src/main/java/com/example/bigbluebluetoothhandcontroller/MainActivity.kt:80-131 | the log after any sequence of events is the old log followed by the encodings of the commands the table gives, in order |
| Controller.RunWritesOnlyCommands | AndroidApp/app/src/main/java/com/example/bigbluebluetoothhandcontroller/MainActivity.kt:225 | any sequence of events only extends the log, and every line it adds parses as a protocol command |
| Controller.StepPreservesValid | AndroidApp/app/src/main/java/com/example/bigbluebluetoothhandcontroller/MainActivity.kt:82 | no event takes the speed out of 1..3 |
| Controller.RunPreservesValid | AndroidApp/app/src/main/java/com/example/bigbluebluetoothhandcontroller/MainActivity.kt:82 | no sequence of events takes the speed out of 1..3 |
| Controller.ReachableValid | AndroidApp/app/src/main/java/com/example/bigbluebluetoothhandcontroller/MainActivity.kt:32 | every state reachable from the initial one (speed 1) has speed in 1..3 |
| Controller.DisconnectedIsSilent | AndroidApp/app/src/main/java/com/example/bigbluebluetoothhandcontroller/MainActivity.kt:220-223 | from a disconnected state, events without a successful connection write nothing and leave the link down |
| Controller.SpiralStartsOnlyWhenConnected | AndroidApp/app/src/main/java/com/example/bigbluebluetoothhandcontroller/MainActivity.kt:257-261 | a step that switches the spiral on is the spiral button with the link up, and it writes `SPIRAL,START,<speed>` |
| Controller.DisconnectIdempotent | AndroidApp/app/src/main/java/com/example/bigbluebluetoothhandcontroller/MainActivity.kt:234-244 | closing the link twice yields the same state as closing it once |
| Controller.SpeedAfterPresses | AndroidApp/app/src/main/java/com/example/bigbluebluetoothhandcontroller/MainActivity.kt:81-87 | after n speed presses the speed is `(speed - 1 + n) % 3 + 1` and the link and spiral flags are unchanged |
| Controller.ThreePressesRestoreSpeed | AndroidApp/app/src/main/java/com/example/bigbluebluetoothhandcontroller/MainActivity.kt:82 | three speed presses return the speed to its starting value |
| Controller.WireTexts | AndroidApp/app/src/main/java/com/example/bigbluebluetoothhandcontroller/MainActivity.kt:98-116 | the literal lines for NORTH/EAST START and STOP, `SPIRAL,START,1`, `SPIRAL,SPEED,2` and `SPIRAL,STOP` |
| Controller.SessionDirection | AndroidApp/app/src/main/java/com/example/bigbluebluetoothhandcontroller/MainActivity.kt:107-118 | connect, press North, release North writes `NORTH,START` then `NORTH,STOP` |
| Controller.SessionSpiral | AndroidApp/app/src/main/java/com/example/bigbluebluetoothhandcontroller/MainActivity.kt:81-130 | connect, spiral on, speed press, spiral off writes `SPIRAL,START,1`, `SPIRAL,SPEED,2`, `SPIRAL,STOP` |
| Controller.SessionPreempt | AndroidApp/app/src/main/java/com/example/bigbluebluetoothhandcontroller/MainActivity.kt:107-118 | with a spiral running, pressing then releasing North writes `SPIRAL,STOP` then `NORTH,STOP`, and no `NORTH,START` |
| Controller.SessionStopWithoutStart | AndroidApp/app/src/main/java/com/example/bigbluebluetoothhandcontroller/MainActivity.kt:114-118 | an up and a cancel with no press before them each write `EAST,STOP` |
| Controller.SessionSpiralSurvivesDisconnect | AndroidApp/app/src/main/java/com/example/bigbluebluetoothhandcontroller/MainActivity.kt:236-242 | disconnecting leaves the spiral flag set, so the first press after reconnecting writes `SPIRAL,STOP` instead of a direction START |
| Controller.SessionDestroy | AndroidApp/app/src/main/java/com/example/bigbluebluetoothhandcontroller/MainActivity.kt:270-274 | teardown with the link up and no spiral still writes `SPIRAL,STOP`, and ends disconnected |
| Activity.MainActivity.constructor | AndroidApp/app/src/main/java/com/example/bigbluebluetoothhandcontroller/MainActivity.kt:29-32 | the screen starts disconnected, spiral off, speed 1, nothing written |
| Activity.MainActivity.SendCommand | AndroidApp/app/src/main/java/com/example/bigbluebluetoothhandcontroller/MainActivity.kt:218-232 | fields updated as Controller.SendCommand: line appended only with the link up, nothing else changes |
| Activity.MainActivity.CycleSpeed | AndroidApp/app/src/main/java/com/example/bigbluebluetoothhandcontroller/MainActivity.kt:81-87 | fields updated as Controller.CycleSpeed; keeps the speed in 1..3 |
| Activity.MainActivity.ToggleConnection | AndroidApp/app/src/main/java/com/example/bigbluebluetoothhandcontroller/MainActivity.kt:89-95 | fields updated as Controller.ToggleConnection; the link ends down |
| Activity.MainActivity.OnConnected | AndroidApp/app/src/main/java/com/example/bigbluebluetoothhandcontroller/MainActivity.kt:175-200 | fields updated as Controller.OnConnected |
| Activity.MainActivity.OnConnectFailed | AndroidApp/app/src/main/java/com/example/bigbluebluetoothhandcontroller/MainActivity.kt:202-209 | a failed attempt updates the fields as Controller.DisconnectBluetooth; the link ends down |
| Activity.MainActivity.TouchDirection | AndroidApp/app/src/main/java/com/example/bigbluebluetoothhandcontroller/MainActivity.kt:104-121 | fields updated as Controller.TouchDirection |
| Activity.MainActivity.ToggleSpiral | AndroidApp/app/src/main/java/com/example/bigbluebluetoothhandcontroller/MainActivity.kt:124-130 | fields updated as Controller.ToggleSpiral |
| Activity.MainActivity.DisconnectBluetooth | AndroidApp/app/src/main/java/com/example/bigbluebluetoothhandcontroller/MainActivity.kt:234-244 | the link ends down; spiral flag, speed and log unchanged |
| Activity.MainActivity.StartSpiralSearch | AndroidApp/app/src/main/java/com/example/bigbluebluetoothhandcontroller/MainActivity.kt:256-262 | fields updated as Controller.StartSpiralSearch; without a link the object is unchanged |
| Activity.MainActivity.StopSpiralSearch | AndroidApp/app/src/main/java/com/example/bigbluebluetoothhandcontroller/MainActivity.kt:264-268 | fields updated as Controller.StopSpiralSearch; the spiral ends inactive |
| Activity.MainActivity.OnDestroy | AndroidApp/app/src/main/java/com/example/bigbluebluetoothhandcontroller/MainActivity.kt:270-274 | fields updated as Controller.OnDestroy; ends with the spiral off and the link down |

## Left out

- Permission checks and the permission launcher: Android calls. Their only effect on the modelled state is to start or not start a connection attempt.
- Adapter lookup, the enable request, the bonded-device search by name, RFCOMM socket creation and the background thread: I/O and concurrency. Their outcome reaches the model only as `OnConnected` or `OnConnectFailed`.
- Races between the connect thread and the UI thread: for example, a send between `connect()` and the assignment of `outputStream` (lines 194-195) is silently skipped by `?.`. The model treats `connected` as one flag that also covers the stream.
- The link dropping on its own, so that `isConnected` becomes false without `disconnectBluetooth`: there is no event for it in the app, and none in the model.
- Controller.SendCommand: exceptions from `write`/`flush` (lines 228-231) are swallowed, so with the link up a line may in reality be lost. The model always records it as written, and no state changes either way.
- Exceptions from `close` (lines 237-238): swallowed. The `finally` block always clears the socket, which `DisconnectBluetooth` models.
- Haptic feedback, Toasts, logging, button labels and `updateConnectionStatus` (enabling the buttons only while connected): UI side effects. The model does not assume that disabled buttons deliver no events. It proves instead that a disconnected controller writes nothing (`DisconnectedIsSilent`).
- `onCreate` and the listener wiring in `setupButtons`: UI set-up. The four direction buttons share one listener body, which is `TouchDirection` with its direction parameter.
- `SPIRAL_STEP_SIZE`, `SPIRAL_GROWTH` and the device UUID and name constants: the first two are unused, and the last two only matter to the connect I/O.
- Kotlin's 32-bit `Int` for the speed: the speed provably stays in 1..3, so wrap-around can never happen, and the model uses unbounded integers.
