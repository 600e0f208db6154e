/** The configuration schema of the status list (server/config/schema.py) and Python list indexing. */
module Config {
  import opened Wrappers

  /** One configured status. The schema's defaults for a missing colour, icon or description
      are "#000000", "💤" and "". */
  datatype StatusItem = StatusItem(id: int, name: string, color: string, icon: string, description: string)

  /** `config.status`: the default selector (absent when the object has no `default`
      attribute) and the ordered status list. */
  datatype StatusConfig = StatusConfig(default: Option<int>, statusList: seq<StatusItem>)

  /** Python's `s[i]`: a valid index counts from the front when non-negative and from the
      back when negative; any other index raises IndexError (`None`). */
  function PyIndex<T>(s: seq<T>, i: int): (r: Option<T>)
    ensures r.Some? <==> -|s| <= i < |s|
    ensures r.Some? ==> r.value == s[i % |s|]
  {
    if 0 <= i < |s| then Some(s[i])
    else if -|s| <= i < 0 then Some(s[|s| + i])
    else None
  }
}

/** The request and response records of the server (server/models/api.py and
    server/models/device_status.py). Timestamps are integers. */
module Models {
  import opened Wrappers

  /** `BatteryStatus`, whose wire values are "True", "False" and "Unknown". */
  datatype BatteryStatus = Charging | Discharging | UnknownBattery

  /** `IsActive`, whose wire values are "Using", "Inactive", "Locked", "Shutdown" and "Unknown". */
  datatype IsActive = Active | Inactive | Locked | Shutdown | UnknownActivity

  datatype AppInfo = AppInfo(name: string, title: Option<string>, pid: Option<int>)

  /** A device report as the client posts it (the open `custom` map is not modelled). */
  datatype DeviceStatus = DeviceStatus(
    deviceId: string,
    deviceName: string,
    isActive: IsActive,
    timestamp: int,
    batteryPercent: Option<int>,
    batteryStatus: Option<BatteryStatus>,
    activeApp: Option<AppInfo>)

  /** One entry of the server's device list. */
  datatype DeviceInfo = DeviceInfo(
    id: string,
    name: string,
    lastSeen: int,
    batteryPercent: Option<int>,
    batteryStatus: Option<BatteryStatus>,
    activeApp: Option<AppInfo>)

  datatype StatusInfo = StatusInfo(id: int, name: string, color: string, icon: string, description: string)

  datatype QueryResponse = QueryResponse(
    success: bool,
    time: int,
    status: StatusInfo,
    device: seq<DeviceInfo>,
    lastUpdated: int)

  datatype SetResponse = SetResponse(success: bool, message: string, newStatus: StatusInfo)
}
