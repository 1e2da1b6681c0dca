# Vehicle backup poller — Dafny model

The program polls a Geotab telemetry backend. It lists every device, then sends one batched call
that asks for each device's position and odometer reading. It joins the answers into one
`VehicleBackup` record per device and appends each record as a CSV line to that device's file. It
repeats this every 10 seconds until the operator presses a key or an error ends the loop.

The model covers three pure or nearly pure pieces and the control flow around them:

- `vehicle_backup.dfy` (module `VehicleBackupRecord`): the `VehicleBackup` record, its
  initialiser defaults and `ToCsv`. Rendering an Id, a double or a DateTime depends on the culture,
  so `Formats` holds those three renderings as function parameters. The lemmas state the structure
  of the line: field order, separators, comma count and empty text for null fields.
- `backup_cycle.dfy` (module `BackupCycle`): the batched request list (two calls per device),
  the reduction of each batched answer to its first sample, and the join of devices with samples
  by device identifier, with first-match and default rules.
- `poll_loop.dfy` (module `PollLoop`): the argument-count guard, the login check and the poll
  loop with its catch ladder. The loop is a method over a script of cycles. Each cycle says
  whether cancellation was seen, how the cycle ended, and whether cancellation cut the following
  delay short. The method returns the trace of fetches and delays and the reason the loop
  stopped. It is proved equal to the specification function `Run`, and the lemmas about `Run`
  state the policy.
- `wrappers.dfy` (module `Wrappers`): `Option`, which stands for C# nullable values.

Points about the code as written, which the model follows:

- The join is keyed by device identifier: each device takes the first sample that names it,
  wherever that sample sits in the answer. A device with no samples still gets a record with
  latitude, longitude and odometer 0.
- Program.cs does not compile against VehicleBackup.cs as given, at two places:
  - Program.cs:107 assigns `Name`, but `VehicleBackup` declares no such property. The model
    drops the name, so the CSV line has no name field.
  - Program.cs:112 assigns the nullable `statusInfo?.DateTime` to `Timestamp`, which
    VehicleBackup.cs:10 declares as a non-nullable `DateTime`.
- The timestamp is the matched position sample's own `DateTime`. Making
  `Timestamp` nullable and rendering null as an empty field, like the other nullable properties,
  is a modelling choice that repairs Program.cs:112. Another repair, `?? DateTime.Now`, would put
  the clock reading in the line instead.
- A failed file append is not isolated. `Parallel.ForEachAsync` rethrows the fault, the catch-all
  handler takes it, and the loop stops. The model treats it as the outcome `OtherException`.
- The separator before the timestamp is a comma and a space. The other four are a bare comma.

## Model

| member | source | states |
|---|---|---|
| `VehicleBackupRecord.NewVehicleBackup` | VehicleBackup.cs:5-10 | a record fresh from its initialisers has the empty string as Vin, null Id, Latitude, Longitude and Odometer, and the clock reading as Timestamp; whatever the renderings, its line is `,,,,, ` then that reading |
| `VehicleBackupRecord.ToCsv` | VehicleBackup.cs:11 | the line is the six renderings plus six separator characters; it starts with the Id and a comma and ends with a comma, a space and the Timestamp; the full field structure is stated by `CsvHasSixFields` and `CsvCommaCount` |
| `VehicleBackupRecord.CsvHasSixFields` | VehicleBackup.cs:11 | when no rendered property contains a comma, splitting the line at commas gives exactly six fields: Id, Vin, Latitude, Longitude, Odometer, then a space and the Timestamp; no other field (no name) is present |
| `VehicleBackupRecord.CsvCommaCount` | VehicleBackup.cs:11 | the line has five separator commas plus those inside the rendered properties, so exactly five when none contains a comma |
| `VehicleBackupRecord.NullFieldsRenderEmpty` | VehicleBackup.cs:5-11 | null Id, Vin, Latitude, Longitude and Odometer render as empty fields: the line is `,,,,, ` then the rendered timestamp, or empty text for a null one |
| `BackupCycle.BatchCalls` | Program.cs:90 | the batch has 2·n calls for n devices; call 2i asks for device i's coordinates and call 2i+1 for its odometer |
| `BackupCycle.FirstOrNull` | Program.cs:95-96 | `FirstOrDefault()` is null exactly for an empty list, otherwise the list's first element |
| `BackupCycle.FirstStatusInfos` | Program.cs:95 | the reduced position list has at most one entry per batch answer |
| `BackupCycle.FirstStatusData` | Program.cs:96 | the reduced odometer list has at most one entry per batch answer |
| `BackupCycle.FirstWhere` | Program.cs:101-102 | `FirstOrDefault(p)` is null exactly when no element satisfies p; otherwise it is the element at the first index that satisfies p |
| `BackupCycle.StatusInfoFor` | Program.cs:101 | the position sample joined to an id is null exactly when no entry names that id, and otherwise is the first entry that does |
| `BackupCycle.StatusDataFor` | Program.cs:102 | the odometer sample joined to an id is null exactly when no entry names that id, and otherwise is the first entry that does |
| `BackupCycle.BackupOf` | Program.cs:98-113 | a device's record carries its Id; its VIN when it is a GoDevice, null otherwise; latitude, longitude and timestamp of the first matching position entry (0, 0, null without one; 0 for a null coordinate); the floor of the first matching odometer reading (0 without one) |
| `BackupCycle.Join` | Program.cs:98-114 | exactly one record per device, in device order, record i built for device i, even when it has no samples |
| `BackupCycle.BackupVehicleData` | Program.cs:87-114 | a null device list ends the cycle with no batch and no records; otherwise the batch sent is exactly `BatchCalls` of the device list (coordinates then odometer per device, 2·n calls), and there are n records, record i being `BackupOf` device i over the first-sample reductions of the backend's answer to that batch, so it carries device i's id |
| `BackupCycle.StatusInfosFollowBatch` | Program.cs:90-95 | when the backend answers one typed result per call, in call order, the reduced position list has one entry per device, entry i being the first sample of the answer to device i's coordinates call |
| `BackupCycle.StatusDataFollowBatch` | Program.cs:90-96 | the same for the odometer list and device i's odometer call |
| `BackupCycle.UnmatchedInfoIgnored` | Program.cs:95-101 | inserting a position entry that names none of the devices (including the null left by an empty answer) anywhere in the list changes no record |
| `BackupCycle.UnmatchedDataIgnored` | Program.cs:96-102 | inserting an odometer entry that names none of the devices anywhere in the list changes no record |
| `BackupCycle.KeyedJoinAgreesWithPositional` | Program.cs:101-110 | with distinct device ids and every sample tagged with the device it was requested for (or none), device i's record takes latitude and longitude from position entry i alone, 0 when entry i does not match |
| `BackupCycle.KeyedOdometerAgreesWithPositional` | Program.cs:102-111 | under the same tagging, device i's record holds the floor of odometer entry i's reading, or 0 when entry i does not match |
| `BackupCycle.SingleDeviceWithoutOdometer` | Program.cs:98-114 | one GoDevice "V1" with a fix at (45, -75) and an empty odometer answer (reduced to a single null entry, Program.cs:96) gives the record (id, "V1", 45, -75, 0) |
| `PollLoop.Policy` | Program.cs:56-80 | the catch ladder goes round again exactly after a completed cycle, a JSON/transport fault or a rate-limit error, waiting 60 000 ms after the rate-limit error and 10 000 ms otherwise; every other outcome returns |
| `PollLoop.Run` | Program.cs:49-81 | the reference definition of the loop: at most two actions per scripted cycle, and a run that exhausts the script fetched and delayed after every cycle; its full shape (fetches at the even positions, delays at the odd ones) is stated by `FetchSchedule`, `DelayBeforeNextFetch` and `HaltingOutcomeEndsLoop` |
| `PollLoop.FetchSchedule` | Program.cs:49-81 | cycle j is fetched exactly when cancellation was not seen before it and every earlier cycle ended in a retried outcome without cancellation in its delay; its fetch is action 2j, and a delay of the policy's length follows it exactly when its outcome is retried |
| `PollLoop.CancellationStopsFetching` | Program.cs:49-54 | once the loop condition sees cancellation before cycle k, no cycle from k on is fetched; if cancellation cuts cycle k's delay short, no later cycle is fetched |
| `PollLoop.DelayBeforeNextFetch` | Program.cs:53-70 | between two consecutive fetches there is exactly one delay: 60 000 ms after a rate-limit error, 10 000 ms after a completed cycle or a JSON/transport fault; no other outcome is followed by a fetch |
| `PollLoop.HaltingOutcomeEndsLoop` | Program.cs:56-80 | an InvalidApiOperation, TaskCanceled or any other exception ends the loop right after that cycle's fetch, with no delay, and the loop reports that outcome |
| `PollLoop.StopIndex` | Program.cs:49-81 | the cycle the loop leaves at: every earlier cycle went round again (no cancellation, a retried outcome, an uncancelled delay) and this one does not, or the script's length when all of them do |
| `PollLoop.StopCauses` | Program.cs:49-81 | the stop cause is decided by the cycle the loop leaves at: cancellation seen by the loop condition stops before that cycle's fetch; a retried outcome whose delay is cut short stops after fetch and delay, caught (Program.cs:72) exactly when the cycle completed so the delay was the try block's (Program.cs:54) and escaping from a handler's delay (Program.cs:64, 69) otherwise; a halting outcome stops after the fetch with that outcome; the script runs out only when every cycle went round again |
| `PollLoop.RunCycle` | Program.cs:51-80 | one pass of the loop body: a halting outcome gives one fetch and returns with that outcome; a retried outcome gives a fetch and the policy's delay, then goes round again, or stops with a cancelled delay (caught only after a completed cycle) when cancellation cuts that delay short |
| `PollLoop.RunLoop` | Program.cs:49-81 | the while loop, whose body is one `RunCycle`, produces exactly the trace and stop cause of the specification `Run` |
| `PollLoop.RunProgram` | Program.cs:6-35 | an argument count other than four gives the usage result and nothing else (no authentication, no loop); with four arguments a failed login stops before the loop, and a successful one runs the loop |

## Left out

- Geotab SDK calls (`CallAsync`, `MultiCallAsync`, `AuthenticateAsync`) are foreign library calls. The device list is an input, the batched call is the function parameter `multiCall`, and the login result is the boolean `loggedIn`.
- The request payloads built by `GetCoordinates` and `GetOdometer` (Program.cs:158-208): each call is modelled only as a tag (Coordinates or Odometer) and a device id. `GetCoordinates` asks only for Latitude and Longitude (Program.cs:171-179) and `GetOdometer` only for Data (Program.cs:197-204). If the backend applies those selectors strictly, the samples carry no `Device` and no `DateTime`, nothing matches at Program.cs:101-102, and every record holds 0, 0, 0 and an empty timestamp. The model admits such samples as `deviceId == None`; whether any sample matches depends on backend behaviour that is not modelled here.
- The exception handling inside `ApiAuthentication` (Program.cs:132-156) only logs. Its one observable effect is the null login result checked at Program.cs:31-35, which `loggedIn` stands for.
- Directory creation and the `StreamWriter` appends (Program.cs:116-129) are file-system I/O. A failed append is represented only as the cycle outcome `OtherException`.
- `Parallel.ForEachAsync`, `Task.Run`, `Task.WhenAny`, `Console.ReadKey` and the `CancellationTokenSource` race (Program.cs:37-47, 82-84, 122) are concurrency and process lifecycle. Cancellation is a pair of booleans per scripted cycle.
- Culture-dependent text for doubles, Ids and `DateTime`, and the `DateTime.Now` default, are not modelled. Rendering is the `Formats` parameter, and the clock reading is the `now` parameter of `NewVehicleBackup`.
- Doubles are modelled as reals, so NaN, infinities and rounding are not captured. `Math.Floor` is `real.Floor`.
- The device `Name` that Program.cs:107 reads is kept in `Device` but goes nowhere, because `VehicleBackup` has no such property.
- Device ids and the elements of the device list are modelled as non-null (`Id` is a `nat`). In C#, `d?.Device?.Id == device.Id` also holds when both sides are null, so a device with a null Id would match the null entry left by an empty answer, or any sample with no device. A null element of the device list would throw at `device.Id` in `GetCoordinates` (Program.cs:168), reached from the batch construction at Program.cs:90, before the batch is sent (Program.cs:93) and before the join; the catch-all handler (Program.cs:76-80) would then end the loop.
- All console output.
- `BackupCycle.FirstStatusInfos`: its own contract only bounds the length. The alignment with the device list is stated by `StatusInfosFollowBatch`, under the assumption that the backend returns one typed answer per call in call order.
- `BackupCycle.FirstStatusData`: its own contract only bounds the length. The alignment is stated by `StatusDataFollowBatch`, under the same assumption.
