# f_sleepy: a Dafny model of the status server and the Windows agent

f_sleepy publishes "what am I doing right now". A server holds one global status: which
entry of a configured status list is selected, when the selection last changed, and how
often it changed. It also holds a list of device reports. Its HTTP routes let clients query
the status, set it, report devices and follow changes over Server-Sent Events. A Windows
agent polls the foreground window, the mouse, the battery and the media session. It reports
to the server only when what it would show has changed.

This project models that core in Dafny and proves properties of the model.

- `wrappers.dfy`: `Option`, `Result` and the API error record.
- `text.dfy`: the Python string operations the core relies on. These are `str.split`
  (a leftmost cut at each separator), `str.join`, `strip`, `lower`, `in`, `startswith`,
  `endswith`, `int()` and `str()` on integers. It also proves the split/join round trips.
- `models.dfy`: the configuration schema, Python list indexing with negative indices,
  and the request and response records.
- `data.dfy`: the server's state object `Data`, as a class whose methods update its fields.
- `device_route.dfy`: the device report route. It replaces the first entry with the same
  id, or appends the entry.
- `status_route.dfy`: the FastAPI status query, set and event-generator routes.
- `sse.dfy`: the Server-Sent-Events framing, and the proof that a client cutting the
  stream at blank lines gets each event back.
- `flask_routes.dfy`: the Flask query, the poll-driven event stream, the frame formats and
  their parser, and the validation of the event, set, device-remove and private-mode
  routes.
- `mouse_tracker.dfy`: the mouse-idle detector, as a class.
- `media_info.dfy`: the media-session reading, the album filter and the two media text
  formats.
- `win_device.py` is modelled in `win_device.dfy`: `reverse_app_name` and one `do_update`
  call. The agent's module globals are fields of the class `Agent`. Each `do_update` step
  is proved equal to a pure specification `UpdateStep`, and the lemmas are stated about
  that step.
- `untrack.dfy`: the alternative media reader that falls back to a NetEase CloudMusic
  window title.

Clock readings, the cursor position, the foreground title, the battery and media readings,
the window enumeration, and whether a send raised are all parameters. `json.dumps` is a
parameter, or its output is an opaque payload text. Nothing in the model performs I/O.

Behaviour of the code that a reader might not expect, all stated in the model:

- The device report route and `Data.update_device` do not move `last_updated`, so the
  event stream does not announce device changes. `update_device` appends a new entry even
  when the id is already listed.
- The Flask `set_status` route sets `status_id` directly. It skips the range check, does
  not touch `last_updated` and does not count a switch. A request for the current id
  changes nothing.
- The Flask `query()` attaches `meta` and `metrics` only inside a request. When it runs on
  the event stream, the request context is gone and `flask.request` is falsy, so those keys
  are never sent there (`FlaskRoutes.StreamViewIsPollView`). An update carries the same
  dict a poll gets when it asks for neither key.
- `MouseTracker.check_idle` returns the idle flag it leaves behind. So in `do_update` the
  test "mouse state changed" (`mouse_idle != mouse_tracker.is_mouse_idle`) never fires, and
  the cached window title is never written (`WinDevice.MouseChangeNeverSeen`). The model
  keeps both readings as separate inputs of the pure step. `Agent.DoUpdate` feeds it the
  values the tracker really gives.
- `reverse_app_name` is its own inverse for every title that does not end in `" -"`
  (`WinDevice.ReverseTwice`). Some titles that do end in `" -"` are not given back. For
  example, "d - c -" becomes "c - - d", which becomes "- d - c"
  (`WinDevice.ReverseTwiceCounterexample`).
- The standalone media text of a track titled "播放中" with no artist or album is
  "♪播放中". That is also the placeholder shown when there is nothing to show, so the two
  cannot be told apart. `FormatStandalone` therefore states only that an empty reading gives
  the placeholder, not the converse.
- `untrack.py` is not imported by the agent. Names it uses (`media`, `debug`,
  `win32gui`, `win32process`) are not defined in it. The model states the logic it was written to
  have.

## Model

| member | source | states |
|---|---|---|
| `Config.PyIndex` | server/routes/status.py:69 | a list index succeeds exactly for -len ≤ i < len, and picks the element counted from the back for a negative index |
| `DataStore.Data.constructor` | server/data.py:10-15 | the status id is the configured default, or 0 without one; the device list is empty; `last_updated` is the construction time; the switch count is 0; there are no listeners |
| `DataStore.Data.AddListener` | server/data.py:17-18 | the listener set gains the callback (set insertion) |
| `DataStore.Data.RemoveListener` | server/data.py:20-21 | the listener set loses the callback; an absent one is no error |
| `DataStore.ListenerSetSemantics` | server/data.py:17-21 | adding twice is adding once, and removing an absent listener changes nothing |
| `DataStore.Data.BroadcastStatusUpdate` | server/data.py:23-34 | every registered listener receives the same snapshot (status id, last update, device count); the ones that do not raise are exactly those delivered to |
| `DataStore.Data.SetStatus` | server/data.py:36-43 | succeeds exactly for 0 ≤ id < len(status_list); a success sets the id, stamps `last_updated` and adds one to the switch count; a refusal changes none of them; a success broadcasts the new snapshot (new id, new time, device count) to every listener, skipping the ones that raise, and a refusal broadcasts nothing |
| `DataStore.Data.UpdateDevice` | server/data.py:45-55 | appends one entry whose id and name are the reporting device id, stamped with the clock reading |
| `DeviceRoute.FirstIndexOf` | server/routes/device.py:35-36 | the index found holds the id and no earlier index does; no index means the id is not listed |
| `DeviceRoute.ReportDeviceStatus` | server/routes/device.py:17-42 | the `for … else` loop leaves the list as the specification `Upserted` says, and answers success |
| `DeviceRoute.UpsertReplacesFirstMatch` | server/routes/device.py:35-38 | for a listed id, only the first matching index changes (to the new entry), and the length stays |
| `DeviceRoute.UpsertAppendsNew` | server/routes/device.py:39-40 | for an unlisted id, the entry is appended after all earlier entries |
| `DeviceRoute.UpsertKeepsIdsUnique` | server/routes/device.py:35-40 | a list with unique ids keeps them unique, and the reported id then belongs to the new entry only |
| `DeviceRoute.UpsertTwice` | server/routes/device.py:35-40 | two reports for the same id leave the list as the second alone would |
| `StatusRoute.ResolveStatus` | server/routes/status.py:68-80 | a selector valid as a Python index gives that item's fields; any other gives the unknown status (-1, "[未知]", "#888", "❓", "") |
| `StatusRoute.QueryStatus` | server/routes/status.py:63-93 | success, the clock reading, the resolved status, the device list and `last_updated`, without changing anything |
| `StatusRoute.InvalidMessageNamesId` | server/routes/status.py:117-122 | the refusal message starts with "Invalid status ID: " and the rest reads back as the requested id |
| `StatusRoute.SetStatusRoute` | server/routes/status.py:96-122 | success exactly for an in-range id, with the configured item, and a later query reports that item; a refusal carries the message and the empty status; the store changes, and every listener is sent the new snapshot, only on success |
| `StatusRoute.StatusEventGenerator` | server/routes/status.py:31-59 | the first frame is the snapshot at registration, then one frame per queued payload in order; the listener is registered while streaming and removed afterwards |
| `Sse.ConcatFramesJoin` | server/routes/status.py:48-53 | writing the frames one after another is joining the bodies with blank lines, ending with one |
| `Sse.StreamSplit` | server/routes/status.py:48-53 | bodies without blank lines are recovered, in order, by cutting the stream at blank lines |
| `Sse.DataStreamSplit` | server/routes/status.py:48-53 | a stream of `data:` frames with newline-free payloads splits back into those frames |
| `FlaskRoutes.ResolveDict` | server/routes.py:250-259 | a valid Python index gives the configured item; any other gives the unknown dict naming the selector, with colour "error" |
| `FlaskRoutes.View` | server/routes.py:250-273 | the dict built from the observed state: success, time, resolved status, devices and `last_updated`; `meta` and `metrics` present exactly inside a request that asks for them |
| `FlaskRoutes.StreamViewIsPollView` | server/routes.py:269-273 | the dict an update carries has neither `meta` nor `metrics`, is the dict of a poll that asks for neither, and does not depend on the arguments |
| `FlaskRoutes.Query` | server/routes.py:244-276 | success, time, status, devices and `last_updated`; `meta` and `metrics` present exactly inside a request that asks for them, and `metrics` carries the switch count |
| `FlaskRoutes.UnknownDictNamesSelector` | server/routes.py:254-259 | the unknown status's description contains the selector, which reads back as the same integer |
| `FlaskRoutes.FirstTickIsUpdate` | server/routes.py:278-297 | the first poll of every stream sends an update with the next id |
| `FlaskRoutes.TickCases` | server/routes.py:283-303 | a poll sends at most one event with the next id; a changed `last_updated` always sends an update that resets the heartbeat; a heartbeat needs an unchanged value and 30 s since the last reset; without an event nothing changes; an update carries `json.dumps` of the query dict of the state seen at that poll |
| `FlaskRoutes.RunIdsConsecutive` | server/routes.py:283-305 | event ids run consecutively from the client's last id, and the stream remembers the last one |
| `FlaskRoutes.RunAtMostOnePerTick` | server/routes.py:283-305 | a stream never sends more events than it polls |
| `FlaskRoutes.SteadyStreamOnlyHeartbeats` | server/routes.py:289-303 | while `last_updated` does not change, only heartbeats are sent |
| `FlaskRoutes.ParseEventFrameRoundTrip` | server/routes.py:297-302 | every update and heartbeat frame parses back as the event it was made from |
| `FlaskRoutes.EventBodyNoBlankLine` | server/routes.py:295-302 | an event body with a newline-free payload has no blank line inside |
| `FlaskRoutes.EventStreamSplit` | server/routes.py:295-302 | cutting the event stream at blank lines gives each event's body in order |
| `FlaskRoutes.EventStream` | server/routes.py:278-305 | the generator's frames and final locals are those of the specification `Run` over the polls |
| `FlaskRoutes.ParseLastEventId` | server/routes.py:314-319 | an absent header is id 0; a header is accepted exactly when it is an integer, and is then that integer; otherwise 400 with the header message |
| `FlaskRoutes.DefaultLastEventId` | server/routes.py:315 | the default header text "0" is the id 0 |
| `FlaskRoutes.LastEventIdRoundTrip` | server/routes.py:314-319 | a header holding a printed id is accepted as that id |
| `FlaskRoutes.FlaskSetStatus` | server/routes.py:344-372 | a non-integer argument is refused with 400 and changes nothing; the current id is echoed without change; any other id is replaced by the resolved status's id, which is stored and returned |
| `FlaskRoutes.MissingStatusRefused` | server/routes.py:350-354 | a missing argument, escaped to "None", is refused |
| `FlaskRoutes.DeviceRemoveId` | server/routes.py:480-482 | the id is accepted exactly when present and non-empty; otherwise 400 "Missing device id!" |
| `FlaskRoutes.DevicePrivateMode` | server/routes.py:540-550 | a non-boolean argument is refused with 400; otherwise the new mode is the requested one |
| `Mouse.MouseTracker.constructor` | client/Windows/mouse_tracker.py:12-20 | the configured minutes and threshold, the current cursor and time, not idle |
| `Mouse.MouseTracker.CheckIdle` | client/Windows/mouse_tracker.py:22-79 | the new state is the specification `Step`, and the answer is the idle flag left behind |
| `Mouse.MouseTracker.Reset` | client/Windows/mouse_tracker.py:81-85 | the current cursor and time, not idle |
| `Mouse.MovementWakes` | client/Windows/mouse_tracker.py:51-66 | a move above the threshold records position and time and clears the idle flag |
| `Mouse.ThresholdIsNotMovement` | client/Windows/mouse_tracker.py:36-51 | a move of exactly the threshold distance is not a movement |
| `Mouse.StillnessTimesOut` | client/Windows/mouse_tracker.py:68-79 | without movement the tracker becomes idle after more than idle-minutes × 60 s and otherwise keeps its flag, position and time |
| `Mouse.ReadErrorChangesNothing` | client/Windows/mouse_tracker.py:27-31 | a failed cursor read changes nothing |
| `Mouse.IdleIsSticky` | client/Windows/mouse_tracker.py:50-79 | once idle, any run of readings without movement keeps the tracker idle at the same position |
| `MediaInfo.FilterAlbum` | client/Windows/media_info.py:36-38 | the album is cleared exactly when it contains "未知唱片集" or both "<" and ">", and kept otherwise |
| `MediaInfo.FilterAlbumIdempotent` | client/Windows/media_info.py:36-38 | filtering twice is filtering once |
| `MediaInfo.GetMediaInfo` | client/Windows/media_info.py:10-44 | no session or an exception reads as nothing playing; missing properties read as empty fields; the album is filtered and is never a placeholder |
| `MediaInfo.FormatPrefix` | client/Windows/media_info.py:47-52 | "[♪", the title, "]" |
| `MediaInfo.StandaloneParts` | client/Windows/media_info.py:57-63 | at most three parts |
| `MediaInfo.FormatStandalone` | client/Windows/media_info.py:55-65 | never empty; the placeholder when nothing is known; otherwise starts with the first shown part |
| `MediaInfo.StandaloneStartsWithTitle` | client/Windows/media_info.py:58-59 | a known title comes first, behind the note sign |
| `MediaInfo.StandalonePartsChoice` | client/Windows/media_info.py:57-63 | the title when non-empty, the artist when non-empty and not the title, the album when non-empty and neither; that many parts, in the order marked title, artist, album |
| `MediaInfo.StandaloneSplitsBack` | client/Windows/media_info.py:55-65 | when no field contains " - " or ends in " -", cutting the text at " - " gives back the shown parts |
| `WinDevice.ReverseAppName` | client/Windows/win_device.py:140-150 | the loop produces the " - " segments in reverse order |
| `WinDevice.ReverseWithoutSeparator` | client/Windows/win_device.py:146-150 | a title without " - " is left unchanged |
| `WinDevice.ReverseTwice` | client/Windows/win_device.py:140-150 | reversing twice gives the title back when it does not end in " -" |
| `WinDevice.ReverseTwoSegments` | client/Windows/win_device.py:140-150 | "x - y" with clean segments becomes "y - x" |
| `WinDevice.ReverseTwiceCounterexample` | client/Windows/win_device.py:140-150 | "d - c -" reversed twice is "- d - c", not the title |
| `WinDevice.Agent.constructor` | client/Windows/win_device.py:234-240 | the globals start empty and not playing (with `last_window` of line 162) |
| `WinDevice.Agent.DoUpdate` | client/Windows/win_device.py:243-395 | the tracker takes one `check_idle` step, and the new globals and the two sends are the specification `UpdateStep` of the readings |
| `WinDevice.Agent.ComposeWindow` | client/Windows/win_device.py:258-286 | the window text is the active window of the specification, and the standalone text is the specification's |
| `WinDevice.Agent.HandleIdle` | client/Windows/win_device.py:288-302 | window, `using` and cached title are those of the specification's idle handling |
| `WinDevice.Agent.SendMain` | client/Windows/win_device.py:304-349 | the early return and the device report follow the specification; `last_window` moves only with a send that did not raise |
| `WinDevice.Agent.SendMedia` | client/Windows/win_device.py:351-395 | the media report and the remembered media state follow the specification's media part |
| `WinDevice.BatteryTagWhenPositive` | client/Windows/win_device.py:262-265 | the battery tag appears exactly for a positive percentage with battery reading on, and reads "[🔋<n>%…] " |
| `WinDevice.ActiveWindowLayout` | client/Windows/win_device.py:258-286 | the active window ends with the current title; outside prefix mode it is tag plus title; in prefix mode with a title it starts with "[♪title] " |
| `WinDevice.IdleReportsNotUsing` | client/Windows/win_device.py:289-296 | while idle, any report says not in use with an empty window |
| `WinDevice.NotUsingTitleReportsNotUsing` | client/Windows/win_device.py:313-315 | a not-in-use title always reports not in use |
| `WinDevice.SkippedTitleSendsNothing` | client/Windows/win_device.py:318-322 | a skipped title with unchanged mouse state sends nothing; when an update was due, nothing at all changes |
| `WinDevice.SkippedTitleOnMouseChange` | client/Windows/win_device.py:323-328 | a skipped title with changed mouse state reports the last window |
| `WinDevice.LastWindowOnlyOnSuccess` | client/Windows/win_device.py:334-347 | `last_window` moves only to a window sent without raising, and always does then |
| `WinDevice.MouseChangeNeverSeen` | client/Windows/win_device.py:305-309 | with the readings `check_idle` really gives, an update is due exactly when the window changed or repeats are not bypassed, it is sent unless the title is skipped, and the cached title never changes |
| `WinDevice.MediaStateMovesOnlyOnChange` | client/Windows/win_device.py:354-393 | the media device is told exactly about changes in standalone mode, and the remembered media state moves only with a report that went through |
| `WinDevice.MediaReportSettles` | client/Windows/win_device.py:363-393 | after a report went through, the same media reading sends nothing more |
| `WinDevice.MediaReportContent` | client/Windows/win_device.py:372-387 | media reports go to the media device; a playing one carries the standalone text, a stopped one "没有媒体播放" |
| `Untrack.SessionMedia` | client/Windows/untrack.py:8-42 | the session reading is kept only when playing with a title or an artist, with the filtered album |
| `Untrack.ExeOrUnknown` | client/Windows/untrack.py:65-68 | a missing or empty path reads as "Unknown" |
| `Untrack.Collected` | client/Windows/untrack.py:57-72 | the enumeration lists no more windows than there are, each with a non-blank title and a path |
| `Untrack.CollectedAppend` | client/Windows/untrack.py:57-72 | enumeration keeps the windows' order |
| `Untrack.CollectedMembers` | client/Windows/untrack.py:61-68 | an entry is listed exactly when its window is visible with a non-blank title |
| `Untrack.EnumVisibleWindows` | client/Windows/untrack.py:57-72 | the callback loop builds the specification's list |
| `Untrack.ExeName` | client/Windows/untrack.py:91-94 | "unknown" for "Unknown"; otherwise a name without backslashes, no longer than the path |
| `Untrack.ExeNameWithoutDirectory` | client/Windows/untrack.py:92-94 | a bare file name is its own exe name, lowercased |
| `Untrack.ExeNameOfPath` | client/Windows/untrack.py:92-94 | whatever the directory, the exe name is the file part, lowercased |
| `Untrack.TitlePartsTrimmed` | client/Windows/untrack.py:138 | every part is non-empty and stripped |
| `Untrack.TitlePartsOfClean` | client/Windows/untrack.py:138 | parts that are already stripped and non-empty are kept as they are |
| `Untrack.TitlePartsFirst` | client/Windows/untrack.py:138-142 | the first part is the first segment that is not blank |
| `Untrack.ParseTitle` | client/Windows/untrack.py:137-144 | no track exactly when there is no part; a track has a title and an artist |
| `Untrack.ParseJoinedTitle` | client/Windows/untrack.py:137-144 | "title - artist - album" parses back to its parts, with "未知艺术家" and "" for a missing artist and album |
| `Untrack.Verdict` | client/Windows/untrack.py:90-144 | a track only from a CloudMusic window whose title is not blacklisted, and then the parsed title |
| `Untrack.SearchFindsFirst` | client/Windows/untrack.py:90-149 | the first window with a track decides the result |
| `Untrack.SearchFallback` | client/Windows/untrack.py:89-159 | something plays exactly when some window has a track; otherwise the result is (False, "", "", "") |
| `Untrack.SearchResultShape` | client/Windows/untrack.py:142-149 | a found track has a non-empty title and artist |
| `Untrack.FindCloudMusic` | client/Windows/untrack.py:88-149 | the loop with `continue` and early return computes the specification's search |
| `Untrack.LookupShape` | client/Windows/untrack.py:1-159 | the result either plays with a title or an artist, or is the default |
| `Untrack.SessionFirst` | client/Windows/untrack.py:31-35 | a meaningful session reading wins over any window |
| `Untrack.ReGetMediaInfo` | client/Windows/untrack.py:1-159 | session first, then the window search, then the default, as the specification says |
| `Text.Strip` | client/Windows/untrack.py:108 | the text with a white-space prefix and a white-space suffix cut off, leaving no white space at either end; empty exactly for an all-white-space text |
| `Text.Lower` | client/Windows/untrack.py:93 | same length, each of 'A'..'Z' replaced by its lower-case letter, every other character kept |
| `Text.JoinSplit` | client/Windows/win_device.py:146-150 | joining the pieces of a split gives the text back |
| `Text.SplitJoin` | client/Windows/win_device.py:146-150 | splitting a join of clean parts gives the parts back |
| `Text.ReverseReverse` | client/Windows/win_device.py:147-149 | reversing a list twice gives it back |
| `Text.ParseIntString` | server/routes.py:352 | `int(str(i)) == i` |

## Left out

- Web plumbing is not modelled, because it is framework code: routing, decorators, CORS, secret checks, templates, static files, `before_request` and `server/main.py`.
- Plugin hooks (`p.trigger_event`) are not modelled. Every event is taken to pass its values through and never intercept, because the plugins are outside the core.
- `d.get_status`, `d.status`, `d.device_get`, `d.device_set`, `d.device_remove`, `d.device_clear` and `d.private_mode` are not in `server/data.py`. They are not part of this model. The Flask `set_status` takes the resolved id as a parameter. `device_remove` and `device_private_mode` are modelled up to their validation.
- FastAPI's own 422 validation, the `ge=0` query bound, is a `requires` of `StatusRoute.SetStatusRoute`, because the handler never runs without it.
- `u.tobool` is not modelled, because `server/utils.py` does not show it. Its reading of an argument is a parameter: `Option<bool>`, or a `bool` where a missing argument reads as false.
- `metadata()` is an opaque value, because it only copies configuration.
- `DataStore.Data.SetStatus`: the broadcast task that `asyncio.create_task` schedules is run as the next sequential step, so the model does not capture a mutation that lands between scheduling and delivery; the snapshot is the state right after the update.
- Clocks, sleeps, `asyncio` tasks and queues, threads and the shutdown window are not modelled. They are reduced to sequential steps with their readings as parameters, and the event streams are modelled over a finite run.
- JSON encoding is left out, because `json.dumps` is a parameter; its output is taken to contain no newline (it writes none by default).
- Timestamps are integers, because the model has no floating point. The battery percentage is an integer, although `psutil` may give a float.
- The `custom` map of a device report is not modelled, because the server never reads it.
- `Text.Strip`: strips the ASCII characters `str.isspace` accepts (space, tab, line feed, carriage return, vertical tab, form feed, U+001C to U+001F) only, while Python's `strip` also removes non-ASCII white space such as U+0085 and U+00A0.
- `Text.Lower`: lowercases ASCII letters only, while Python's `lower` folds all Unicode letters.
- `Text.ParseInt`: takes an optional sign and ASCII digits after stripping, and does not take underscores or non-ASCII digits as Python's `int()` does.
- `MediaInfo.FormatStandalone`: does not state that a non-empty reading avoids the placeholder, because a lone title "播放中" formats to the placeholder text.
- The session reading of the media APIs (`request_async`, `get_playback_info`, `try_get_media_properties_async`) is an input: there is no session, a session with its flag and properties, or an exception.
- The window enumeration and `get_window_exe` in `untrack.py` are an input list. It lists the windows in enumeration order, each with visibility, title and path, or none when the process lookup failed. An exception in the window search is a flag.
- Console output, debug printing and the printed responses are not modelled.
- `battery_info.py`, `api_client.py` and `testTagWindows.py` are context, not core. Their results are parameters.
