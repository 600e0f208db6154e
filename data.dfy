/**
 * The server's in-memory state object (server/data.py): the global status selector, the
 * time of the last status change, the `switch_count` metric, the device list and the set
 * of registered listeners.
 */
module DataStore {
  import opened Wrappers
  import opened Config
  import opened Models

  /** A registered callback, identified by value (Python compares callables by identity). */
  type ListenerId = nat

  /** The change-detection snapshot handed to every listener. */
  datatype Snapshot = Snapshot(statusId: int, lastUpdated: int, deviceCount: nat)

  /** `getattr(config.status, "default", 0)`. */
  function InitialStatusId(config: StatusConfig): int {
    config.default.GetOr(0)
  }

  /** The entry `update_device` stores: both id and name are the reporting device's id. */
  function EntryFromReport(report: DeviceStatus, now: int): DeviceInfo {
    DeviceInfo(report.deviceId, report.deviceId, now, report.batteryPercent, report.batteryStatus, report.activeApp)
  }

  class Data {
    var statusId: int
    var deviceList: seq<DeviceInfo>
    var lastUpdated: int
    /** `metrics_resp["switch_count"]`. */
    var switchCount: nat
    var listeners: set<ListenerId>

    /** `Data(config)`, with `now` the clock reading taken at construction. */
    constructor (config: StatusConfig, now: int)
      ensures statusId == InitialStatusId(config)
      ensures deviceList == [] && lastUpdated == now && switchCount == 0 && listeners == {}
    {
      statusId := InitialStatusId(config);
      deviceList := [];
      lastUpdated := now;
      switchCount := 0;
      listeners := {};
    }

    /** `add_listener`: set insertion, so adding a registered listener again changes nothing. */
    method AddListener(callback: ListenerId)
      modifies this`listeners
      ensures listeners == old(listeners) + {callback}
    {
      listeners := listeners + {callback};
    }

    /** `remove_listener`: `discard`, which is a no-op for an absent listener and never fails. */
    method RemoveListener(callback: ListenerId)
      modifies this`listeners
      ensures listeners == old(listeners) - {callback}
    {
      listeners := listeners - {callback};
    }

    /** The snapshot of `broadcast_status_update`. */
    function StatusSnapshot(): Snapshot
      reads this
    {
      Snapshot(statusId, lastUpdated, |deviceList|)
    }

    /** `broadcast_status_update`: every registered listener is called with the same
        snapshot of the current state; a listener that raises (`fails`) is skipped over, and
        the rest still receive it (`delivered`); nothing in the state changes. */
    method BroadcastStatusUpdate(fails: ListenerId -> bool)
      returns (received: map<ListenerId, Snapshot>, delivered: set<ListenerId>)
      ensures received.Keys == listeners
      ensures forall l :: l in received ==> received[l] == Snapshot(statusId, lastUpdated, |deviceList|)
      ensures delivered == set l | l in listeners && !fails(l)
    {
      var snapshot := StatusSnapshot();
      var pending := listeners;
      received, delivered := map[], {};
      while pending != {}
        invariant pending <= listeners
        invariant received.Keys == listeners - pending
        invariant forall l :: l in received ==> received[l] == snapshot
        invariant delivered == set l | l in listeners - pending && !fails(l)
        decreases pending
      {
        var l :| l in pending;
        received := received[l := snapshot];
        if !fails(l) {
          delivered := delivered + {l};
        }
        pending := pending - {l};
      }
    }

    /** `set_status(new_id, config)`: a selector that indexes the configured list from the
        front is taken, stamped with `now`, and counted; anything else is refused without
        any change. A success also starts the broadcast task, which is run here as the next
        sequential step: every listener is handed the snapshot of the new state, and the ones
        that raise (`fails`) are skipped over. A refusal broadcasts nothing. */
    method SetStatus(newId: int, config: StatusConfig, now: int, fails: ListenerId -> bool)
      returns (ok: bool, received: map<ListenerId, Snapshot>, delivered: set<ListenerId>)
      modifies this`statusId, this`lastUpdated, this`switchCount
      ensures ok <==> 0 <= newId < |config.statusList|
      ensures ok ==> statusId == newId && lastUpdated == now && switchCount == old(switchCount) + 1
      ensures !ok ==> statusId == old(statusId) && lastUpdated == old(lastUpdated) && switchCount == old(switchCount)
      ensures ok ==> received.Keys == listeners
      ensures ok ==> forall l :: l in received ==> received[l] == Snapshot(newId, now, |deviceList|)
      ensures ok ==> delivered == set l | l in listeners && !fails(l)
      ensures !ok ==> received == map[] && delivered == {}
    {
      if 0 <= newId < |config.statusList| {
        statusId := newId;
        lastUpdated := now;
        switchCount := switchCount + 1;
        received, delivered := BroadcastStatusUpdate(fails);
        return true, received, delivered;
      }
      return false, map[], {};
    }

    /** `update_device(report)`: always appends one new entry at the end, even when an entry
        with the same id is already listed. */
    method UpdateDevice(report: DeviceStatus, now: int)
      modifies this`deviceList
      ensures deviceList == old(deviceList) + [EntryFromReport(report, now)]
    {
      deviceList := deviceList + [EntryFromReport(report, now)];
    }
  }

  /** Adding a listener twice has the effect of adding it once, and removing an absent one
      changes nothing. */
  method ListenerSetSemantics(d: Data, l: ListenerId)
    modifies d`listeners
    ensures d.listeners == old(d.listeners) - {l}
  {
    d.AddListener(l);
    var once := d.listeners;
    d.AddListener(l);
    assert d.listeners == once;
    d.RemoveListener(l);
    var removed := d.listeners;
    d.RemoveListener(l);
    assert d.listeners == removed;
  }
}
