/** One backup cycle's pure part: the batched request list built from the device list, the reduction
    of each batched answer to its first sample, and the join of devices with samples by identifier. */
module BackupCycle {
  import opened Wrappers
  import opened VehicleBackupRecord

  /** A device as the backend lists it. Only a GoDevice carries a vehicle identification number. */
  datatype DeviceKind = GoDevice(vin: Option<string>) | OtherDevice
  datatype Device = Device(id: Id, name: string, kind: DeviceKind)

  /** A position sample. `deviceId` is `Device?.Id`: None when the sample names no device or the
      device has no identifier. */
  datatype DeviceStatusInfo = DeviceStatusInfo(
    deviceId: Option<Id>, latitude: Option<real>, longitude: Option<real>, dateTime: Option<DateTime>)

  /** An odometer sample. */
  datatype StatusData = StatusData(deviceId: Option<Id>, data: Option<real>)

  /** One request of the batch, as a tag and the device it asks about. */
  datatype CallKind = Coordinates | Odometer
  datatype Call = Call(kind: CallKind, device: Id)

  /** One answer of the batch: a list of position samples, a list of odometer samples, or anything
      else (which the extraction ignores). */
  datatype CallResult =
    | StatusInfoList(infos: seq<DeviceStatusInfo>)
    | StatusDataList(data: seq<StatusData>)
    | OtherResult

  /** What a cycle hands to the writers: nothing when the device list was null, otherwise the batch
      that was sent and one record per device. */
  datatype CycleResult = NoDevices | Joined(calls: seq<Call>, records: seq<VehicleBackup>)

  /** Two requests per device, in device order: its coordinates, then its odometer. */
  function BatchCalls(devices: seq<Device>): (calls: seq<Call>)
    ensures |calls| == 2 * |devices|
    ensures forall i :: 0 <= i < |devices| ==>
      calls[2 * i] == Call(Coordinates, devices[i].id) && calls[2 * i + 1] == Call(Odometer, devices[i].id)
  {
    if devices == [] then []
    else
      var rest := BatchCalls(devices[1..]);
      assert forall i :: 1 <= i < |devices| ==> devices[i] == devices[1..][i - 1];
      [Call(Coordinates, devices[0].id), Call(Odometer, devices[0].id)] + rest
  }

  /** `FirstOrDefault()` on a list: its first element, or null when it is empty. */
  function FirstOrNull<T>(s: seq<T>): (r: Option<T>)
    ensures r.None? <==> s == []
    ensures r.Some? ==> r.value == s[0]
  {
    if s == [] then None else Some(s[0])
  }

  /** `OfType<IList<DeviceStatusInfo>>().Select(FirstOrDefault)`: the first sample of every
      position answer, in answer order, other answers skipped. */
  function FirstStatusInfos(results: seq<CallResult>): (r: seq<Option<DeviceStatusInfo>>)
    ensures |r| <= |results|
  {
    if results == [] then []
    else
      (match results[0]
       case StatusInfoList(infos) => [FirstOrNull(infos)]
       case _ => [])
      + FirstStatusInfos(results[1..])
  }

  /** The same reduction for odometer answers. */
  function FirstStatusData(results: seq<CallResult>): (r: seq<Option<StatusData>>)
    ensures |r| <= |results|
  {
    if results == [] then []
    else
      (match results[0]
       case StatusDataList(data) => [FirstOrNull(data)]
       case _ => [])
      + FirstStatusData(results[1..])
  }

  /** `FirstOrDefault(p)` with a predicate: the first element that satisfies it, or null. */
  function FirstWhere<T>(s: seq<T>, p: T -> bool): (r: Option<T>)
    ensures r.None? <==> forall k :: 0 <= k < |s| ==> !p(s[k])
    ensures r.Some? ==> exists k :: 0 <= k < |s| && s[k] == r.value && p(s[k]) && forall j :: 0 <= j < k ==> !p(s[j])
  {
    if s == [] then None
    else if p(s[0]) then Some(s[0])
    else
      var r := FirstWhere(s[1..], p);
      assert forall k :: 1 <= k < |s| ==> s[k] == s[1..][k - 1];
      r
  }

  /** `d?.Device?.Id == device.Id`: an entry matches a device when it is non-null and names the
      device's identifier. A null entry, or one that names no device, matches nothing. */
  predicate InfoFor(e: Option<DeviceStatusInfo>, id: Id) {
    e.Some? && e.value.deviceId == Some(id)
  }

  predicate DataFor(e: Option<StatusData>, id: Id) {
    e.Some? && e.value.deviceId == Some(id)
  }

  /** Entry k is the first position entry that matches the identifier. */
  ghost predicate FirstInfoAt(infos: seq<Option<DeviceStatusInfo>>, id: Id, k: int) {
    0 <= k < |infos| && InfoFor(infos[k], id) && forall j :: 0 <= j < k ==> !InfoFor(infos[j], id)
  }

  ghost predicate FirstDataAt(datas: seq<Option<StatusData>>, id: Id, k: int) {
    0 <= k < |datas| && DataFor(datas[k], id) && forall j :: 0 <= j < k ==> !DataFor(datas[j], id)
  }

  /** `o` holds a whole number that is the floor of `x`. */
  ghost predicate IsFloorOf(o: Option<real>, x: real) {
    o.Some? && o.value == o.value.Floor as real && o.value <= x < o.value + 1.0
  }

  /** The position sample joined to an identifier: the first matching entry, or null. */
  function StatusInfoFor(infos: seq<Option<DeviceStatusInfo>>, id: Id): (r: Option<DeviceStatusInfo>)
    ensures r.None? <==> forall k :: 0 <= k < |infos| ==> !InfoFor(infos[k], id)
    ensures forall k :: FirstInfoAt(infos, id, k) ==> r == infos[k]
  {
    match FirstWhere(infos, (e: Option<DeviceStatusInfo>) => InfoFor(e, id))
    case Some(e) => e
    case None => None
  }

  function StatusDataFor(datas: seq<Option<StatusData>>, id: Id): (r: Option<StatusData>)
    ensures r.None? <==> forall k :: 0 <= k < |datas| ==> !DataFor(datas[k], id)
    ensures forall k :: FirstDataAt(datas, id, k) ==> r == datas[k]
  {
    match FirstWhere(datas, (e: Option<StatusData>) => DataFor(e, id))
    case Some(e) => e
    case None => None
  }

  /** The record built for one device: its identifier; its VIN when it is a GoDevice and null
      otherwise; latitude, longitude and timestamp of the first matching position entry (0, 0 and
      null without one, and 0 for a coordinate the sample leaves null); the floor of the first
      matching odometer reading (0 without one). */
  function BackupOf(d: Device, infos: seq<Option<DeviceStatusInfo>>, datas: seq<Option<StatusData>>): (r: VehicleBackup)
    ensures r.id == Some(d.id)
    ensures d.kind.GoDevice? ==> r.vin == d.kind.vin
    ensures d.kind.OtherDevice? ==> r.vin.None?
    ensures (forall k :: 0 <= k < |infos| ==> !InfoFor(infos[k], d.id)) ==>
      r.latitude == Some(0.0) && r.longitude == Some(0.0) && r.timestamp.None?
    ensures forall k :: FirstInfoAt(infos, d.id, k) ==>
      r.latitude == Some(infos[k].value.latitude.GetOr(0.0))
      && r.longitude == Some(infos[k].value.longitude.GetOr(0.0))
      && r.timestamp == infos[k].value.dateTime
    ensures (forall k :: 0 <= k < |datas| ==> !DataFor(datas[k], d.id)) ==> r.odometer == Some(0.0)
    ensures forall k :: FirstDataAt(datas, d.id, k) ==> IsFloorOf(r.odometer, datas[k].value.data.GetOr(0.0))
  {
    var statusInfo := StatusInfoFor(infos, d.id);
    var statusData := StatusDataFor(datas, d.id);
    var reading := match statusData case Some(s) => s.data.GetOr(0.0) case None => 0.0;
    VehicleBackup(
      Some(d.id),
      match d.kind case GoDevice(vin) => vin case OtherDevice => None,
      Some(match statusInfo case Some(s) => s.latitude.GetOr(0.0) case None => 0.0),
      Some(match statusInfo case Some(s) => s.longitude.GetOr(0.0) case None => 0.0),
      Some(reading.Floor as real),
      match statusInfo case Some(s) => s.dateTime case None => None)
  }

  /** `devices.Select(...)`: one record per device, in device order, record i built for device i. */
  function Join(devices: seq<Device>, infos: seq<Option<DeviceStatusInfo>>, datas: seq<Option<StatusData>>): (records: seq<VehicleBackup>)
    ensures |records| == |devices|
    ensures forall i :: 0 <= i < |devices| ==> records[i] == BackupOf(devices[i], infos, datas)
  {
    if devices == [] then []
    else
      var rest := Join(devices[1..], infos, datas);
      var records := [BackupOf(devices[0], infos, datas)] + rest;
      assert forall i :: 1 <= i < |devices| ==> records[i] == rest[i - 1] && devices[i] == devices[1..][i - 1];
      records
  }

  /** One cycle after the device list has been fetched: a null list ends the cycle with no batch
      and nothing to write; otherwise the batch goes out and its answers are joined. The backend's
      batched call is the parameter `multiCall`. */
  function BackupVehicleData(devices: Option<seq<Device>>, multiCall: seq<Call> -> seq<CallResult>): (r: CycleResult)
    ensures devices.None? <==> r.NoDevices?
    ensures r.Joined? ==> |r.calls| == 2 * |devices.value| && |r.records| == |devices.value|
    ensures r.Joined? ==> forall i :: 0 <= i < |devices.value| ==> r.records[i].id == Some(devices.value[i].id)
    ensures r.Joined? ==> r.calls == BatchCalls(devices.value)
    ensures r.Joined? ==> forall i :: 0 <= i < |devices.value| ==>
      r.records[i] == BackupOf(devices.value[i], FirstStatusInfos(multiCall(r.calls)), FirstStatusData(multiCall(r.calls)))
  {
    match devices
    case None => NoDevices
    case Some(list) =>
      var calls := BatchCalls(list);
      var results := multiCall(calls);
      Joined(calls, Join(list, FirstStatusInfos(results), FirstStatusData(results)))
  }

  /** The backend answers a batch as it promises: one answer per request, in request order, a
      position list for a coordinates request and an odometer list for an odometer request. */
  ghost predicate Answers(calls: seq<Call>, results: seq<CallResult>) {
    && |results| == |calls|
    && (forall i :: 0 <= i < |calls| && calls[i].kind == Coordinates ==> results[i].StatusInfoList?)
    && (forall i :: 0 <= i < |calls| && calls[i].kind == Odometer ==> results[i].StatusDataList?)
  }

  /** Dropping the first device's two requests and answers keeps the batch honoured. */
  lemma {:induction false} AnswersTail(devices: seq<Device>, results: seq<CallResult>)
    requires devices != [] && Answers(BatchCalls(devices), results)
    ensures results[0].StatusInfoList? && results[1].StatusDataList?
    ensures Answers(BatchCalls(devices[1..]), results[2..])
  {
    var calls := BatchCalls(devices);
    assert calls[0].kind == Coordinates && calls[1].kind == Odometer;
    var tail := BatchCalls(devices[1..]);
    assert tail == calls[2..];
    forall i | 0 <= i < |tail|
      ensures tail[i].kind == Coordinates ==> results[2..][i].StatusInfoList?
      ensures tail[i].kind == Odometer ==> results[2..][i].StatusDataList?
    {
      assert tail[i] == calls[i + 2] && results[2..][i] == results[i + 2];
    }
  }

  /** When the backend honours the batch, the reduced position list lines up with the device list:
      entry i is the first sample (or null) of the answer to device i's coordinates request. */
  lemma {:induction false} StatusInfosFollowBatch(devices: seq<Device>, results: seq<CallResult>)
    requires Answers(BatchCalls(devices), results)
    ensures |FirstStatusInfos(results)| == |devices|
    ensures forall i :: 0 <= i < |devices| ==>
      results[2 * i].StatusInfoList? && FirstStatusInfos(results)[i] == FirstOrNull(results[2 * i].infos)
  {
    if devices != [] {
      AnswersTail(devices, results);
      var rest := results[2..];
      StatusInfosFollowBatch(devices[1..], rest);
      assert results[1..][1..] == rest;
      assert FirstStatusInfos(results[1..]) == FirstStatusInfos(rest);
      assert FirstStatusInfos(results) == [FirstOrNull(results[0].infos)] + FirstStatusInfos(rest);
      forall i | 1 <= i < |devices|
        ensures results[2 * i] == rest[2 * (i - 1)]
      {
      }
    }
  }

  /** The same for the odometer list and the odometer requests. */
  lemma {:induction false} StatusDataFollowBatch(devices: seq<Device>, results: seq<CallResult>)
    requires Answers(BatchCalls(devices), results)
    ensures |FirstStatusData(results)| == |devices|
    ensures forall i :: 0 <= i < |devices| ==>
      results[2 * i + 1].StatusDataList? && FirstStatusData(results)[i] == FirstOrNull(results[2 * i + 1].data)
  {
    if devices != [] {
      AnswersTail(devices, results);
      var rest := results[2..];
      StatusDataFollowBatch(devices[1..], rest);
      assert results[1..][1..] == rest;
      var tail := FirstStatusData(rest);
      assert FirstStatusData(results[1..]) == [FirstOrNull(results[1].data)] + tail;
      assert FirstStatusData(results) == [] + FirstStatusData(results[1..]);
      forall i | 1 <= i < |devices|
        ensures results[2 * i + 1].StatusDataList? && FirstStatusData(results)[i] == FirstOrNull(results[2 * i + 1].data)
      {
        assert results[2 * i + 1] == rest[2 * (i - 1) + 1];
        assert FirstStatusData(results)[i] == tail[i - 1];
      }
    }
  }

  /** Splicing an entry that matches none of the devices into the position list (for instance the
      null that an empty answer leaves) changes no record. */
  lemma {:induction false} UnmatchedInfoIgnored(devices: seq<Device>, a: seq<Option<DeviceStatusInfo>>,
                                                x: Option<DeviceStatusInfo>, b: seq<Option<DeviceStatusInfo>>,
                                                datas: seq<Option<StatusData>>)
    requires forall i :: 0 <= i < |devices| ==> !InfoFor(x, devices[i].id)
    ensures Join(devices, a + [x] + b, datas) == Join(devices, a + b, datas)
  {
    forall i | 0 <= i < |devices|
      ensures BackupOf(devices[i], a + [x] + b, datas) == BackupOf(devices[i], a + b, datas)
    {
      FirstWhereSkips(a, x, b, (e: Option<DeviceStatusInfo>) => InfoFor(e, devices[i].id));
    }
  }

  /** The same for the odometer list. */
  lemma {:induction false} UnmatchedDataIgnored(devices: seq<Device>, infos: seq<Option<DeviceStatusInfo>>,
                                                a: seq<Option<StatusData>>, x: Option<StatusData>, b: seq<Option<StatusData>>)
    requires forall i :: 0 <= i < |devices| ==> !DataFor(x, devices[i].id)
    ensures Join(devices, infos, a + [x] + b) == Join(devices, infos, a + b)
  {
    forall i | 0 <= i < |devices|
      ensures BackupOf(devices[i], infos, a + [x] + b) == BackupOf(devices[i], infos, a + b)
    {
      FirstWhereSkips(a, x, b, (e: Option<StatusData>) => DataFor(e, devices[i].id));
    }
  }

  /** An element that fails the predicate never changes what `FirstWhere` finds. */
  lemma {:induction false} FirstWhereSkips<T>(a: seq<T>, x: T, b: seq<T>, p: T -> bool)
    requires !p(x)
    ensures FirstWhere(a + [x] + b, p) == FirstWhere(a + b, p)
  {
    if a == [] {
      assert a + [x] + b == [x] + b && ([x] + b)[1..] == b && a + b == b;
    } else {
      assert (a + [x] + b)[0] == a[0] && (a + b)[0] == a[0];
      assert (a + [x] + b)[1..] == a[1..] + [x] + b;
      assert (a + b)[1..] == a[1..] + b;
      FirstWhereSkips(a[1..], x, b, p);
    }
  }

  /** Distinct identifiers, and every entry tagged with the device it was requested for, or with none. */
  ghost predicate TaggedByPosition(devices: seq<Device>, infos: seq<Option<DeviceStatusInfo>>, datas: seq<Option<StatusData>>) {
    && (forall m, n :: 0 <= m < n < |devices| ==> devices[m].id != devices[n].id)
    && |infos| == |devices| && |datas| == |devices|
    && (forall k :: 0 <= k < |infos| && infos[k].Some? ==> infos[k].value.deviceId.None? || infos[k].value.deviceId == Some(devices[k].id))
    && (forall k :: 0 <= k < |datas| && datas[k].Some? ==> datas[k].value.deviceId.None? || datas[k].value.deviceId == Some(devices[k].id))
  }

  /** With distinct device identifiers and a backend that tags every sample with the device it was
      asked about (or with none), joining by identifier gives what pairing by position would:
      device i's record takes its coordinates from entry i alone. */
  lemma {:induction false} KeyedJoinAgreesWithPositional(devices: seq<Device>, infos: seq<Option<DeviceStatusInfo>>,
                                                         datas: seq<Option<StatusData>>, i: int)
    requires TaggedByPosition(devices, infos, datas) && 0 <= i < |devices|
    ensures var r := BackupOf(devices[i], infos, datas);
      && r.latitude == Some(if InfoFor(infos[i], devices[i].id) then infos[i].value.latitude.GetOr(0.0) else 0.0)
      && r.longitude == Some(if InfoFor(infos[i], devices[i].id) then infos[i].value.longitude.GetOr(0.0) else 0.0)
  {
    var id := devices[i].id;
    forall k | 0 <= k < |infos| && k != i ensures !InfoFor(infos[k], id) {
      if k < i { assert devices[k].id != id; } else { assert devices[i].id != devices[k].id; }
    }
    if InfoFor(infos[i], id) {
      assert FirstInfoAt(infos, id, i);
    }
  }

  /** The same for the odometer: device i's record holds the floor of entry i's reading, or 0. */
  lemma {:induction false} KeyedOdometerAgreesWithPositional(devices: seq<Device>, infos: seq<Option<DeviceStatusInfo>>,
                                                             datas: seq<Option<StatusData>>, i: int)
    requires TaggedByPosition(devices, infos, datas) && 0 <= i < |devices|
    ensures var r := BackupOf(devices[i], infos, datas);
      if DataFor(datas[i], devices[i].id) then IsFloorOf(r.odometer, datas[i].value.data.GetOr(0.0))
      else r.odometer == Some(0.0)
  {
    var id := devices[i].id;
    forall k | 0 <= k < |datas| && k != i ensures !DataFor(datas[k], id) {
      if k < i { assert devices[k].id != id; } else { assert devices[i].id != devices[k].id; }
    }
    if DataFor(datas[i], id) {
      assert FirstDataAt(datas, id, i);
    }
  }

  /** A worked case: one GoDevice "V1" with a fix at (45, -75) and an empty odometer answer,
      which the reduction turns into a single null entry. */
  lemma {:induction false} SingleDeviceWithoutOdometer(id: Id, stamp: Option<DateTime>)
    ensures Join([Device(id, "d1", GoDevice(Some("V1")))],
                 [Some(DeviceStatusInfo(Some(id), Some(45.0), Some(-75.0), stamp))], [None])
            == [VehicleBackup(Some(id), Some("V1"), Some(45.0), Some(-75.0), Some(0.0), stamp)]
  {
    assert FirstInfoAt([Some(DeviceStatusInfo(Some(id), Some(45.0), Some(-75.0), stamp))], id, 0);
  }
}
