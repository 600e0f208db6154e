/**
 * The FastAPI status routes (server/routes/status.py): resolving the selector against the
 * configured list, the query and set responses, and the status event generator.
 */
module StatusRoute {
  import opened Wrappers
  import opened Text
  import opened Config
  import opened Models
  import opened DataStore
  import opened Sse

  /** The response status when the selector does not index the configured list. */
  const UnknownStatus := StatusInfo(-1, "[未知]", "#888", "❓", "")

  /** The `new_status` of a refused set request. */
  const NoStatus := StatusInfo(-1, "", "", "", "")

  function InfoOf(item: StatusItem): StatusInfo {
    StatusInfo(item.id, item.name, item.color, item.icon, item.description)
  }

  /** `config.status.status_list[status_id]`, with an `IndexError` caught as the unknown status. */
  function ResolveStatus(list: seq<StatusItem>, id: int): (r: StatusInfo)
    ensures 0 <= id < |list| ==> r == InfoOf(list[id])
    ensures -|list| <= id < 0 ==> r == InfoOf(list[|list| + id])
    ensures (id < -|list| || |list| <= id) ==> r == UnknownStatus
  {
    match PyIndex(list, id)
    case Some(item) => InfoOf(item)
    case None => UnknownStatus
  }

  /** `query_status`, with `now` the clock reading. It only reads the state. */
  function QueryStatus(data: Data, config: StatusConfig, now: int): (r: QueryResponse)
    reads data
    ensures r.success && r.time == now
    ensures r.status == ResolveStatus(config.statusList, data.statusId)
    ensures r.device == data.deviceList && r.lastUpdated == data.lastUpdated
  {
    QueryResponse(true, now, ResolveStatus(config.statusList, data.statusId), data.deviceList, data.lastUpdated)
  }

  /** The message of a refused set request. */
  function InvalidMessage(status: int): string {
    "Invalid status ID: " + IntToString(status)
  }

  /** The number in a refused request's message reads back as the requested id. */
  lemma InvalidMessageNamesId(status: int)
    ensures StartsWith(InvalidMessage(status), "Invalid status ID: ")
    ensures ParseInt(InvalidMessage(status)[|"Invalid status ID: "|..]) == Some(status)
  {
    assert InvalidMessage(status)[|"Invalid status ID: "|..] == IntToString(status);
    ParseIntString(status);
  }

  /** `set_status`: the query parameter is validated `ge=0` before the handler runs. The
      store decides, and the response either carries the configured item or is the refusal.
      A query made after a success reports exactly the status that was returned, and the
      broadcast the store starts hands every listener the snapshot of the new status
      (`received`); a refusal broadcasts nothing. */
  method SetStatusRoute(data: Data, config: StatusConfig, status: int, now: int, fails: ListenerId -> bool)
    returns (resp: SetResponse, received: map<ListenerId, Snapshot>)
    requires status >= 0
    modifies data`statusId, data`lastUpdated, data`switchCount
    ensures resp.success <==> status < |config.statusList|
    ensures resp.success ==>
      resp == SetResponse(true, "Status updated successfully", InfoOf(config.statusList[status]))
    ensures resp.success ==> QueryStatus(data, config, now).status == resp.newStatus
    ensures !resp.success ==> resp == SetResponse(false, InvalidMessage(status), NoStatus)
    ensures resp.success ==>
      data.statusId == status && data.lastUpdated == now && data.switchCount == old(data.switchCount) + 1
    ensures !resp.success ==>
      data.statusId == old(data.statusId) && data.lastUpdated == old(data.lastUpdated) && data.switchCount == old(data.switchCount)
    ensures resp.success ==> received.Keys == data.listeners
    ensures resp.success ==> forall l :: l in received ==> received[l] == Snapshot(status, now, |data.deviceList|)
    ensures !resp.success ==> received == map[]
  {
    var ok, delivered;
    ok, received, delivered := data.SetStatus(status, config, now, fails);
    if ok {
      var item := config.statusList[status];
      resp := SetResponse(true, "Status updated successfully", InfoOf(item));
    } else {
      resp := SetResponse(false, InvalidMessage(status), NoStatus);
    }
  }

  /** `status_event_generator`, run until the client goes away. A fresh listener is registered
      first; the first frame carries the snapshot at that moment; then each payload the
      listener queued (`queued`, in arrival order) is sent as one more frame; when the stream
      is cancelled the listener is removed, so the listener set is as before. `encode` is
      `json.dumps`. */
  method StatusEventGenerator(data: Data, listener: ListenerId, encode: Snapshot -> string, queued: seq<Snapshot>)
    returns (frames: seq<string>, ghost registeredAtFirst: bool)
    requires listener !in data.listeners
    modifies data`listeners
    ensures frames == Frames(DataBodies([encode(data.StatusSnapshot())] + EncodeAll(encode, queued)))
    ensures registeredAtFirst
    ensures data.listeners == old(data.listeners)
  {
    data.AddListener(listener);
    registeredAtFirst := listener in data.listeners;
    var initial := data.StatusSnapshot();
    frames := [Frame(DataBody(encode(initial)))];
    var k := 0;
    while k < |queued|
      invariant 0 <= k <= |queued|
      invariant data.listeners == old(data.listeners) + {listener}
      invariant frames == Frames(DataBodies([encode(initial)] + EncodeAll(encode, queued[..k])))
    {
      assert queued[..k + 1] == queued[..k] + [queued[k]];
      EncodeAllAppend(encode, queued[..k], queued[k]);
      frames := frames + [Frame(DataBody(encode(queued[k])))];
      k := k + 1;
    }
    assert queued[..k] == queued;
    data.RemoveListener(listener);
    assert old(data.listeners) + {listener} - {listener} == old(data.listeners);
  }

  function EncodeAll(encode: Snapshot -> string, snapshots: seq<Snapshot>): (r: seq<string>)
    ensures |r| == |snapshots|
    ensures forall i :: 0 <= i < |snapshots| ==> r[i] == encode(snapshots[i])
  {
    seq(|snapshots|, i requires 0 <= i < |snapshots| => encode(snapshots[i]))
  }

  lemma EncodeAllAppend(encode: Snapshot -> string, snapshots: seq<Snapshot>, s: Snapshot)
    ensures EncodeAll(encode, snapshots + [s]) == EncodeAll(encode, snapshots) + [encode(s)]
  {
  }
}
