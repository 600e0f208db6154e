/**
 * The device report route (server/routes/device.py): build an entry from the report and
 * replace the first listed entry with the same id, or append it when there is none.
 */
module DeviceRoute {
  import opened Wrappers
  import opened Models
  import opened DataStore

  datatype ReportResponse = ReportResponse(success: bool, message: string)

  /** The entry `report_device_status` builds: the report's id and display name, and the
      single clock reading `now` as the time last seen. */
  function EntryFor(status: DeviceStatus, now: int): DeviceInfo {
    DeviceInfo(status.deviceId, status.deviceName, now, status.batteryPercent, status.batteryStatus, status.activeApp)
  }

  /** The index of the first entry with id `id`. */
  function FirstIndexOf(list: seq<DeviceInfo>, id: string): (r: Option<nat>)
    ensures r.Some? ==> r.value < |list| && list[r.value].id == id
    ensures r.Some? ==> forall j :: 0 <= j < r.value ==> list[j].id != id
    ensures r.None? ==> forall j :: 0 <= j < |list| ==> list[j].id != id
  {
    if |list| == 0 then None
    else if list[0].id == id then Some(0)
    else match FirstIndexOf(list[1..], id)
      case None => None
      case Some(k) => Some(k + 1)
  }

  /** The device list after a report: first match replaced, or the entry appended. */
  function Upserted(list: seq<DeviceInfo>, entry: DeviceInfo): seq<DeviceInfo> {
    match FirstIndexOf(list, entry.id)
    case Some(i) => list[i := entry]
    case None => list + [entry]
  }

  /** No two entries share an id. */
  predicate UniqueIds(list: seq<DeviceInfo>) {
    forall i, j :: 0 <= i < j < |list| ==> list[i].id != list[j].id
  }

  /** `report_device_status`: the `for ... else` loop over the device list. */
  method ReportDeviceStatus(data: Data, status: DeviceStatus, now: int) returns (resp: ReportResponse)
    modifies data`deviceList
    ensures data.deviceList == Upserted(old(data.deviceList), EntryFor(status, now))
    ensures resp == ReportResponse(true, "Device status updated")
  {
    var entry := EntryFor(status, now);
    var found := false;
    var i := 0;
    while i < |data.deviceList|
      invariant 0 <= i <= |data.deviceList|
      invariant data.deviceList == old(data.deviceList)
      invariant forall j :: 0 <= j < i ==> data.deviceList[j].id != status.deviceId
    {
      if data.deviceList[i].id == status.deviceId {
        assert FirstIndexOf(data.deviceList, entry.id) == Some(i);
        data.deviceList := data.deviceList[i := entry];
        found := true;
        break;
      }
      i := i + 1;
    }
    if !found {
      data.deviceList := data.deviceList + [entry];
    }
    resp := ReportResponse(true, "Device status updated");
  }

  /** A report for a listed id replaces the first entry with that id, keeps the length, and
      leaves every other index alone — later entries with the same id included. */
  lemma UpsertReplacesFirstMatch(list: seq<DeviceInfo>, entry: DeviceInfo, i: nat)
    requires i < |list| && list[i].id == entry.id
    requires forall j :: 0 <= j < i ==> list[j].id != entry.id
    ensures |Upserted(list, entry)| == |list|
    ensures Upserted(list, entry)[i] == entry
    ensures forall k :: 0 <= k < |list| && k != i ==> Upserted(list, entry)[k] == list[k]
  {
    var r := FirstIndexOf(list, entry.id);
    assert r.Some? && r.value == i;
  }

  /** A report for an unlisted id appends it at the end and keeps every earlier entry. */
  lemma UpsertAppendsNew(list: seq<DeviceInfo>, entry: DeviceInfo)
    requires forall j :: 0 <= j < |list| ==> list[j].id != entry.id
    ensures Upserted(list, entry) == list + [entry]
  {
  }

  /** Reports keep ids unique, and afterwards the reported id belongs to the new entry only. */
  lemma UpsertKeepsIdsUnique(list: seq<DeviceInfo>, entry: DeviceInfo)
    requires UniqueIds(list)
    ensures UniqueIds(Upserted(list, entry))
    ensures forall k :: 0 <= k < |Upserted(list, entry)| && Upserted(list, entry)[k].id == entry.id ==>
      Upserted(list, entry)[k] == entry
  {
    var r := Upserted(list, entry);
    match FirstIndexOf(list, entry.id)
    case Some(i) =>
      forall k | 0 <= k < |r| && k != i
        ensures r[k].id != entry.id
      {
        assert r[k] == list[k];
        assert list[i].id == entry.id;
      }
    case None =>
  }

  /** Reporting the same id twice is the same as reporting only the second time. */
  lemma UpsertTwice(list: seq<DeviceInfo>, first: DeviceInfo, second: DeviceInfo)
    requires first.id == second.id
    ensures Upserted(Upserted(list, first), second) == Upserted(list, second)
  {
    var once := Upserted(list, first);
    match FirstIndexOf(list, first.id)
    case Some(i) =>
      UpsertReplacesFirstMatch(once, second, i);
      assert Upserted(once, second) == list[i := second];
    case None =>
      UpsertReplacesFirstMatch(once, second, |list|);
      assert Upserted(once, second) == list + [second];
  }
}
