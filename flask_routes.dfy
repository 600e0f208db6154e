/**
 * The Flask routes of server/routes.py: the query response, the poll-driven event stream
 * with its frames, and the request validation of the event, set, device-remove and
 * private-mode routes. Plugin events never intercept and pass their values through.
 */
module FlaskRoutes {
  import opened Wrappers
  import opened Text
  import opened Config
  import opened Models
  import opened DataStore
  import opened Sse

  // ----- query() -----

  /** The `status` of a query: the configured item's fields, or the unknown-status dict. */
  datatype StatusDict =
    | Configured(item: StatusItem)
    | Unknown(id: int, name: string, desc: string, color: string)

  /** `d.metrics_resp`. */
  datatype Metrics = Metrics(switchCount: nat)

  /** The query dict; `meta` and `metrics` are keys that may be absent. The site metadata is
      opaque (`M`). */
  datatype FlaskQueryResponse<M> = FlaskQueryResponse(
    success: bool,
    time: int,
    status: StatusDict,
    device: seq<DeviceInfo>,
    lastUpdated: int,
    meta: Option<M>,
    metrics: Option<Metrics>)

  function UnknownDict(st: int): StatusDict {
    Unknown(-1, "[未知]", "未知的标识符 " + IntToString(st) + "，可能是配置问题。", "error")
  }

  function ResolveDict(list: seq<StatusItem>, st: int): (r: StatusDict)
    ensures r.Configured? <==> -|list| <= st < |list|
    ensures r.Configured? ==> r.item == list[if st < 0 then |list| + st else st]
    ensures r.Unknown? ==> r == UnknownDict(st)
  {
    match PyIndex(list, st)
    case Some(item) => Configured(item)
    case None => UnknownDict(st)
  }

  /** The fields of `d` that `query()` reads, at one moment. */
  datatype Observed = Observed(statusId: int, deviceList: seq<DeviceInfo>, lastUpdated: int, switchCount: nat)

  function Observe(d: Data): Observed
    reads d
  {
    Observed(d.statusId, d.deviceList, d.lastUpdated, d.switchCount)
  }

  /** The dict `query()` builds from what it observes. `inRequest` is the truth of
      `flask.request`: false when the query runs on the event stream, after the request
      context is gone. `wantMeta` and `wantMetrics` are the `tobool` readings of the `meta`
      and `metrics` arguments (missing ones read as false). */
  function View<M>(o: Observed, c: StatusConfig, now: int, inRequest: bool, wantMeta: bool, wantMetrics: bool, meta: M)
    : (r: FlaskQueryResponse<M>)
    ensures r.success && r.time == now
    ensures r.status == ResolveDict(c.statusList, o.statusId)
    ensures r.device == o.deviceList && r.lastUpdated == o.lastUpdated
    ensures r.meta.Some? <==> inRequest && wantMeta
    ensures r.meta.Some? ==> r.meta.value == meta
    ensures r.metrics.Some? <==> inRequest && wantMetrics
    ensures r.metrics.Some? ==> r.metrics.value.switchCount == o.switchCount
  {
    FlaskQueryResponse(
      true, now, ResolveDict(c.statusList, o.statusId), o.deviceList, o.lastUpdated,
      if inRequest && wantMeta then Some(meta) else None,
      if inRequest && wantMetrics then Some(Metrics(o.switchCount)) else None)
  }

  /** `query()` on the live state object. */
  function Query<M>(d: Data, c: StatusConfig, now: int, inRequest: bool, wantMeta: bool, wantMetrics: bool, meta: M)
    : (r: FlaskQueryResponse<M>)
    reads d
    ensures r.success && r.time == now
    ensures r.status == ResolveDict(c.statusList, d.statusId)
    ensures r.device == d.deviceList && r.lastUpdated == d.lastUpdated
    ensures r.meta.Some? <==> inRequest && wantMeta
    ensures r.meta.Some? ==> r.meta.value == meta
    ensures r.metrics.Some? <==> inRequest && wantMetrics
    ensures r.metrics.Some? ==> r.metrics.value.switchCount == d.switchCount
  {
    View(Observe(d), c, now, inRequest, wantMeta, wantMetrics, meta)
  }

  /** The description of the unknown status names the selector, which reads back from it. */
  lemma UnknownDictNamesSelector(st: int)
    ensures UnknownDict(st).desc[|"未知的标识符 "|..|UnknownDict(st).desc| - |"，可能是配置问题。"|] == IntToString(st)
    ensures ParseInt(UnknownDict(st).desc[|"未知的标识符 "|..|UnknownDict(st).desc| - |"，可能是配置问题。"|]) == Some(st)
  {
    ParseIntString(st);
  }

  // ----- _event_stream -----

  datatype Event = Update(id: int, payload: string) | Heartbeat(id: int)

  /** The generator's locals: the `last_updated` it has sent (none yet at first), when it last
      sent or reset the heartbeat, and the last event id. */
  datatype StreamState = StreamState(lastUpdated: Option<int>, lastHeartbeat: int, eventId: int)

  /** One poll: the clock, what `d` holds at that moment (`current_updated` is its
      `last_updated`), and the `datetime.now()` reading that `query()` stamps its dict with. */
  datatype TickInput = TickInput(currentTime: int, observed: Observed, queryTime: int)

  /** What a stream uses besides its polls: the configuration, `json.dumps`, and the site
      metadata, which the stream never attaches. */
  datatype StreamContext<!M> = StreamContext(config: StatusConfig, encode: FlaskQueryResponse<M> -> string, meta: M)

  /** The dict an update carries: `query()` run outside a request, so the `meta` and
      `metrics` arguments are never read. */
  function StreamView<M>(cx: StreamContext<M>, input: TickInput): FlaskQueryResponse<M> {
    View(input.observed, cx.config, input.queryTime, false, false, false, cx.meta)
  }

  /** An update carries the poll view of the same state, without `meta` and `metrics`: the
      one a request gets that asks for neither. Outside a request, asking changes nothing. */
  lemma StreamViewIsPollView<M>(cx: StreamContext<M>, input: TickInput, wantMeta: bool, wantMetrics: bool)
    ensures StreamView(cx, input).meta.None? && StreamView(cx, input).metrics.None?
    ensures StreamView(cx, input) == View(input.observed, cx.config, input.queryTime, true, false, false, cx.meta)
    ensures StreamView(cx, input) == View(input.observed, cx.config, input.queryTime, false, wantMeta, wantMetrics, cx.meta)
    ensures StreamView(cx, input).status == ResolveDict(cx.config.statusList, input.observed.statusId)
    ensures StreamView(cx, input).device == input.observed.deviceList
  {
  }

  const HeartbeatInterval := 30

  /** The state right after the header is accepted, with `now` the clock reading. */
  function InitialStream(lastEventId: int, now: int): StreamState {
    StreamState(None, now, lastEventId)
  }

  /** One iteration of the `while True` loop: at most one event. */
  function Tick<M>(cx: StreamContext<M>, st: StreamState, input: TickInput): (StreamState, Option<Event>) {
    if st.lastUpdated != Some(input.observed.lastUpdated) then
      (StreamState(Some(input.observed.lastUpdated), input.currentTime, st.eventId + 1),
       Some(Update(st.eventId + 1, cx.encode(StreamView(cx, input)))))
    else if input.currentTime - st.lastHeartbeat >= HeartbeatInterval then
      (StreamState(st.lastUpdated, input.currentTime, st.eventId + 1), Some(Heartbeat(st.eventId + 1)))
    else
      (st, None)
  }

  /** The events of a run of polls, and the final state. */
  function Run<M>(cx: StreamContext<M>, st: StreamState, inputs: seq<TickInput>): (StreamState, seq<Event>)
    decreases |inputs|
  {
    if |inputs| == 0 then (st, [])
    else
      var (next, e) := Tick(cx, st, inputs[0]);
      var (last, rest) := Run(cx, next, inputs[1..]);
      (last, (if e.Some? then [e.value] else []) + rest)
  }

  function EventId(e: Event): int {
    match e
    case Update(id, _) => id
    case Heartbeat(id) => id
  }

  /** The first poll of a stream always sends an update. */
  lemma FirstTickIsUpdate<M>(cx: StreamContext<M>, lastEventId: int, now: int, input: TickInput)
    ensures Tick(cx, InitialStream(lastEventId, now), input).1 == Some(Update(lastEventId + 1, cx.encode(StreamView(cx, input))))
  {
  }

  /** A poll sends at most one event. An event carries the next id and becomes the state's
      id; without one the state is unchanged. A changed `last_updated` always gives an update,
      which resets the heartbeat; a heartbeat needs an unchanged `last_updated` and at least
      30 seconds since the last reset, and resets it in turn. */
  lemma TickCases<M>(cx: StreamContext<M>, st: StreamState, input: TickInput)
    ensures var (next, e) := Tick(cx, st, input);
      && (e.Some? ==> EventId(e.value) == st.eventId + 1 && next.eventId == st.eventId + 1
                      && next.lastHeartbeat == input.currentTime
                      && next.lastUpdated == Some(input.observed.lastUpdated))
      && (e.None? ==> next == st)
      && (st.lastUpdated != Some(input.observed.lastUpdated) <==> e.Some? && e.value.Update?)
      && (e.Some? && e.value.Heartbeat? <==>
            st.lastUpdated == Some(input.observed.lastUpdated) && input.currentTime - st.lastHeartbeat >= HeartbeatInterval)
      && (e.Some? && e.value.Update? ==> e.value.payload == cx.encode(StreamView(cx, input)))
  {
  }

  /** Event ids run consecutively from the starting id, and the final state holds the last. */
  lemma {:induction false} RunIdsConsecutive<M>(cx: StreamContext<M>, st: StreamState, inputs: seq<TickInput>)
    ensures var (last, events) := Run(cx, st, inputs);
      && last.eventId == st.eventId + |events|
      && (forall k :: 0 <= k < |events| ==> EventId(events[k]) == st.eventId + k + 1)
    decreases |inputs|
  {
    if |inputs| > 0 {
      var (next, e) := Tick(cx, st, inputs[0]);
      TickCases(cx, st, inputs[0]);
      RunIdsConsecutive(cx, next, inputs[1..]);
    }
  }

  /** A run has no more events than polls. */
  lemma {:induction false} RunAtMostOnePerTick<M>(cx: StreamContext<M>, st: StreamState, inputs: seq<TickInput>)
    ensures |Run(cx, st, inputs).1| <= |inputs|
    decreases |inputs|
  {
    if |inputs| > 0 {
      RunAtMostOnePerTick(cx, Tick(cx, st, inputs[0]).0, inputs[1..]);
    }
  }

  /** A stream that has sent the current `last_updated` and sees no change to it afterwards
      sends only heartbeats. */
  lemma {:induction false} SteadyStreamOnlyHeartbeats<M>(cx: StreamContext<M>, st: StreamState, inputs: seq<TickInput>, u: int)
    requires st.lastUpdated == Some(u)
    requires forall k :: 0 <= k < |inputs| ==> inputs[k].observed.lastUpdated == u
    ensures forall k :: 0 <= k < |Run(cx, st, inputs).1| ==> Run(cx, st, inputs).1[k].Heartbeat?
    decreases |inputs|
  {
    if |inputs| > 0 {
      var (next, e) := Tick(cx, st, inputs[0]);
      SteadyStreamOnlyHeartbeats(cx, next, inputs[1..], u);
    }
  }

  const IdField := "id: "
  const UpdateLine := "event: update"
  const HeartbeatLine := "event: heartbeat"
  const EmptyDataLine := "data:"

  /** The event and data lines of an event's frame. */
  function EventTail(e: Event): string {
    match e
    case Update(_, p) => UpdateLine + "\n" + DataBody(p)
    case Heartbeat(_) => HeartbeatLine + "\n" + EmptyDataLine
  }

  /** The body of an event's frame, before the closing blank line: the id line, then the
      event and data lines. */
  function EventBody(e: Event): string {
    IdField + IntToString(EventId(e)) + "\n" + EventTail(e)
  }

  /** The text `yield`ed for an event. */
  function EventFrame(e: Event): string {
    Frame(EventBody(e))
  }

  /** The first line and the rest, when there is a line break. */
  function SplitLine(s: string): Option<(string, string)> {
    match IndexOf(s, "\n")
    case None => None
    case Some(i) => Some((s[..i], s[i + 1..]))
  }

  /** A client's reading of one frame. */
  function ParseEventFrame(f: string): Option<Event> {
    if !EndsWith(f, Blank) then None else ParseEventBody(f[..|f| - 2])
  }

  function ParseEventBody(body: string): Option<Event> {
    match SplitLine(body)
    case None => None
    case Some((idLine, tail)) =>
      if !StartsWith(idLine, IdField) then None
      else
        match ParseInt(idLine[4..])
        case None => None
        case Some(n) => ParseEventLines(n, tail)
  }

  /** The event and data lines, for an event with id `n`. */
  function ParseEventLines(n: int, tail: string): Option<Event> {
    match SplitLine(tail)
    case None => None
    case Some((kindLine, dataLine)) =>
      if kindLine == HeartbeatLine && dataLine == EmptyDataLine then Some(Heartbeat(n))
      else if kindLine == UpdateLine && StartsWith(dataLine, "data: ") then Some(Update(n, dataLine[6..]))
      else None
  }

  lemma NewlineFreeConcat(a: string, b: string)
    requires NewlineFree(a) && NewlineFree(b)
    ensures NewlineFree(a + b)
  {
    forall k | 0 <= k < |a + b|
      ensures (a + b)[k] != '\n'
    {
      if k >= |a| { assert (a + b)[k] == b[k - |a|]; }
    }
  }

  lemma FixedLinesNewlineFree()
    ensures NewlineFree(IdField) && NewlineFree(UpdateLine) && NewlineFree(HeartbeatLine)
    ensures NewlineFree(EmptyDataLine) && NewlineFree("data: ")
  {
  }

  /** A newline-free first line is split off exactly. */
  lemma SplitLineRoundTrip(a: string, b: string)
    requires NewlineFree(a)
    ensures SplitLine(a + "\n" + b) == Some((a, b))
  {
    var s := a + "\n" + b;
    forall j | 0 <= j < |a|
      ensures !OccursAt(s, "\n", j)
    {
      assert s[j..j + 1][0] == a[j];
    }
    assert s[|a|..|a| + 1] == "\n";
    IndexOfFirst(s, "\n", |a|);
    assert s[..|a|] == a;
    assert s[|a| + 1..] == b;
  }

  lemma IdLineNewlineFree(id: int)
    ensures NewlineFree(IdField + IntToString(id))
  {
    IntToStringHasNoNewline(id);
    FixedLinesNewlineFree();
    NewlineFreeConcat(IdField, IntToString(id));
  }

  lemma ParseIdLine(id: int, tail: string)
    ensures ParseEventBody(IdField + IntToString(id) + "\n" + tail) == ParseEventLines(id, tail)
  {
    var idLine := IdField + IntToString(id);
    IdLineNewlineFree(id);
    SplitLineRoundTrip(idLine, tail);
    assert idLine[4..] == IntToString(id);
    ParseIntString(id);
  }

  lemma ParseEventLinesRoundTrip(e: Event)
    ensures ParseEventLines(EventId(e), EventTail(e)) == Some(e)
  {
    FixedLinesNewlineFree();
    match e
    case Update(_, p) =>
      SplitLineRoundTrip(UpdateLine, DataBody(p));
      assert DataBody(p)[6..] == p;
    case Heartbeat(_) =>
      SplitLineRoundTrip(HeartbeatLine, EmptyDataLine);
  }

  /** Every frame reads back as the event it was made from. */
  lemma ParseEventFrameRoundTrip(e: Event)
    ensures ParseEventFrame(EventFrame(e)) == Some(e)
  {
    var f := EventFrame(e);
    assert f[..|f| - 2] == EventBody(e);
    ParseIdLine(EventId(e), EventTail(e));
    ParseEventLinesRoundTrip(e);
  }

  /** The body of an event with a newline-free payload (`json.dumps` writes none) has no
      blank line, so the frames of a stream can be told apart. */
  lemma EventBodyNoBlankLine(e: Event)
    requires e.Update? ==> NewlineFree(e.payload)
    ensures NoBlankLine(EventBody(e))
  {
    var idLine := IdField + IntToString(EventId(e));
    IdLineNewlineFree(EventId(e));
    FixedLinesNewlineFree();
    match e
    case Update(_, p) =>
      NewlineFreeConcat("data: ", p);
      JoinLinesNoBlank(UpdateLine, DataBody(p));
      JoinLinesNoBlank(idLine, EventTail(e));
    case Heartbeat(_) =>
      JoinLinesNoBlank(HeartbeatLine, EmptyDataLine);
      JoinLinesNoBlank(idLine, EventTail(e));
  }

  function EventBodies(events: seq<Event>): (r: seq<string>)
    ensures |r| == |events|
    ensures forall i :: 0 <= i < |events| ==> r[i] == EventBody(events[i])
  {
    seq(|events|, i requires 0 <= i < |events| => EventBody(events[i]))
  }

  /** A client that cuts the stream at blank lines gets each event's body in order. */
  lemma EventStreamSplit(events: seq<Event>)
    requires forall i :: 0 <= i < |events| && events[i].Update? ==> NewlineFree(events[i].payload)
    ensures Split(Concat(Frames(EventBodies(events))), Blank) == EventBodies(events) + [""]
  {
    forall i | 0 <= i < |events|
      ensures NoBlankLine(EventBodies(events)[i])
    {
      EventBodyNoBlankLine(events[i]);
    }
    StreamSplit(EventBodies(events));
  }

  /** `_event_stream` over a finite run of polls (the real loop runs until the client goes
      away, sleeping a second between polls). An update's data is `json.dumps(query())`,
      with `query()` outside a request. */
  method EventStream<M>(cx: StreamContext<M>, lastEventId: int, now: int, inputs: seq<TickInput>)
    returns (frames: seq<string>, last: StreamState)
    ensures last == Run(cx, InitialStream(lastEventId, now), inputs).0
    ensures frames == Frames(EventBodies(Run(cx, InitialStream(lastEventId, now), inputs).1))
  {
    var lastUpdated: Option<int> := None;
    var lastHeartbeat := now;
    var eventId := lastEventId;
    frames := [];
    var k := 0;
    while k < |inputs|
      invariant 0 <= k <= |inputs|
      invariant StreamState(lastUpdated, lastHeartbeat, eventId) == Run(cx, InitialStream(lastEventId, now), inputs[..k]).0
      invariant frames == Frames(EventBodies(EventsBefore(cx, InitialStream(lastEventId, now), inputs, k)))
    {
      ghost var before := StreamState(lastUpdated, lastHeartbeat, eventId);
      ghost var framesBefore := frames;
      var input := inputs[k];
      if lastUpdated != Some(input.observed.lastUpdated) {
        lastUpdated := Some(input.observed.lastUpdated);
        lastHeartbeat := input.currentTime;
        var updateData := cx.encode(View(input.observed, cx.config, input.queryTime, false, false, false, cx.meta));
        eventId := eventId + 1;
        frames := frames + [EventFrame(Update(eventId, updateData))];
      } else if input.currentTime - lastHeartbeat >= HeartbeatInterval {
        eventId := eventId + 1;
        frames := frames + [EventFrame(Heartbeat(eventId))];
        lastHeartbeat := input.currentTime;
      }
      ghost var step := Tick(cx, before, input);
      assert StreamState(lastUpdated, lastHeartbeat, eventId) == step.0;
      assert frames == framesBefore + (if step.1.Some? then [EventFrame(step.1.value)] else []);
      EventsBeforeStep(cx, InitialStream(lastEventId, now), inputs, k, before);
      FramesAppend(EventsBefore(cx, InitialStream(lastEventId, now), inputs, k), step.1);
      k := k + 1;
    }
    assert inputs[..k] == inputs;
    last := StreamState(lastUpdated, lastHeartbeat, eventId);
  }

  lemma FramesAppend(events: seq<Event>, e: Option<Event>)
    ensures Frames(EventBodies(events + (if e.Some? then [e.value] else [])))
      == Frames(EventBodies(events)) + (if e.Some? then [EventFrame(e.value)] else [])
  {
    var all := events + (if e.Some? then [e.value] else []);
    assert EventBodies(all) == EventBodies(events) + (if e.Some? then [EventBody(e.value)] else []);
  }

  /** The events sent during the first `k` polls. */
  function EventsBefore<M>(cx: StreamContext<M>, st: StreamState, inputs: seq<TickInput>, k: nat): seq<Event>
    requires k <= |inputs|
  {
    Run(cx, st, inputs[..k]).1
  }

  /** Running a prefix and then the rest is running the whole. */
  lemma {:induction false} RunAppend<M>(cx: StreamContext<M>, st: StreamState, a: seq<TickInput>, b: seq<TickInput>)
    ensures Run(cx, st, a + b).0 == Run(cx, Run(cx, st, a).0, b).0
    ensures Run(cx, st, a + b).1 == Run(cx, st, a).1 + Run(cx, Run(cx, st, a).0, b).1
    decreases |a|
  {
    if |a| > 0 {
      assert (a + b)[1..] == a[1..] + b;
      RunAppend(cx, Tick(cx, st, a[0]).0, a[1..], b);
    } else {
      assert a + b == b;
    }
  }

  lemma EventsBeforeStep<M>(cx: StreamContext<M>, st: StreamState, inputs: seq<TickInput>, k: nat, mid: StreamState)
    requires k < |inputs|
    requires mid == Run(cx, st, inputs[..k]).0
    ensures Run(cx, st, inputs[..k + 1]).0 == Tick(cx, mid, inputs[k]).0
    ensures EventsBefore(cx, st, inputs, k + 1)
      == EventsBefore(cx, st, inputs, k) + (if Tick(cx, mid, inputs[k]).1.Some? then [Tick(cx, mid, inputs[k]).1.value] else [])
  {
    assert inputs[..k + 1] == inputs[..k] + [inputs[k]];
    RunAppend(cx, st, inputs[..k], [inputs[k]]);
  }

  // ----- request validation -----

  const BadLastEventId := ApiError(400, "Invaild Last-Event-ID header, it must be int!")
  const BadStatusArg := ApiError(400, "argument 'status' must be int")
  const MissingDeviceId := ApiError(400, "Missing device id!")
  const BadPrivateArg := ApiError(400, "'private' arg must be boolean")

  /** `events()`: the `Last-Event-ID` header, "0" when absent, must be an integer. */
  function ParseLastEventId(header: Option<string>): (r: Result<int>)
    ensures r.Err? ==> r.error == BadLastEventId
    ensures header.None? ==> r == Ok(0)
    ensures header.Some? ==> (r.Ok? <==> ParseInt(header.value).Some?)
    ensures header.Some? && r.Ok? ==> ParseInt(header.value) == Some(r.value)
  {
    match header
    case None => Ok(0)
    case Some(h) =>
      match ParseInt(h)
      case Some(n) => Ok(n)
      case None => Err(BadLastEventId)
  }

  /** An absent header reads as the text "0", which is the id 0. */
  lemma DefaultLastEventId()
    ensures ParseInt("0") == Some(0)
  {
    ParseIntString(0);
  }

  /** A header holding the id a client last saw resumes after exactly that id. */
  lemma LastEventIdRoundTrip(n: int)
    ensures ParseLastEventId(Some(IntToString(n))) == Ok(n)
  {
    ParseIntString(n);
  }

  /** Flask's `set_status`. A missing argument escapes to the text "None", which is not an
      integer either. A request for the current status changes nothing and echoes the request;
      otherwise the store takes the id of the status `d.get_status` resolves the request to
      (`resolve`), and so does the response. `last_updated` and the switch counter are not
      touched on this route. */
  method FlaskSetStatus(d: Data, statusArg: Option<string>, resolve: int -> int) returns (r: Result<int>)
    modifies d`statusId
    ensures ParseInt(statusArg.GetOr("None")).None? ==> r == Err(BadStatusArg) && d.statusId == old(d.statusId)
    ensures ParseInt(statusArg.GetOr("None")) == Some(old(d.statusId)) ==>
      r == Ok(old(d.statusId)) && d.statusId == old(d.statusId)
    ensures ParseInt(statusArg.GetOr("None")).Some? && ParseInt(statusArg.GetOr("None")).value != old(d.statusId) ==>
      r == Ok(resolve(ParseInt(statusArg.GetOr("None")).value)) && d.statusId == r.value
  {
    var parsed := ParseInt(statusArg.GetOr("None"));
    if parsed.None? {
      return Err(BadStatusArg);
    }
    var status := parsed.value;
    if status != d.statusId {
      status := resolve(status);
      d.statusId := status;
    }
    return Ok(status);
  }

  /** The text "None" that a missing argument becomes is refused. */
  lemma MissingStatusRefused()
    ensures ParseInt("None").None?
  {
    NoneIsTrimmed();
    StripUnchanged("None");
    LetterLedNotInt("None");
  }

  lemma NoneIsTrimmed()
    ensures "None"[0] == 'N' && "None"[3] == 'e'
  {
  }

  /** A text that starts with neither a sign nor a digit is not an integer. */
  lemma LetterLedNotInt(t: string)
    requires |t| > 0 && t[0] != '-' && t[0] != '+' && !IsDigit(t[0])
    ensures ParseStripped(t).None?
  {
  }

  /** `device_remove`'s validation: the `id` argument must be present and non-empty. */
  function DeviceRemoveId(arg: Option<string>): (r: Result<string>)
    ensures r.Ok? <==> arg.Some? && arg.value != ""
    ensures r.Ok? ==> r.value == arg.value
    ensures r.Err? ==> r.error == MissingDeviceId
  {
    match arg
    case Some(id) => if id == "" then Err(MissingDeviceId) else Ok(id)
    case None => Err(MissingDeviceId)
  }

  /** `device_private_mode`: the `tobool` reading of `private` must be a boolean; the new mode
      is the requested one, whether or not it differed from the current mode. */
  function DevicePrivateMode(private: Option<bool>): (r: Result<bool>)
    ensures r.Err? <==> private.None?
    ensures r.Err? ==> r.error == BadPrivateArg
    ensures r.Ok? ==> r.value == private.value
  {
    match private
    case None => Err(BadPrivateArg)
    case Some(p) => Ok(p)
  }
}
