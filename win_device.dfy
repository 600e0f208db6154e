/**
 * The Windows reporting agent's decision logic (client/Windows/win_device.py):
 * `reverse_app_name`, and one `do_update` call. The module globals `last_window`,
 * `cached_window_title`, `last_media_playing` and `last_media_content` are the fields of
 * `Agent`. The foreground window title, the battery and media readings and whether each
 * send raised are inputs, and the reports sent are outputs.
 */
module WinDevice {
  import opened Wrappers
  import opened Text
  import opened Mouse
  import opened MediaInfo

  // ----- configuration -----

  const DeviceId := "CRB"
  const DeviceShowName := "CandyRedmiBook"
  const MediaDeviceId := "media-device"
  const MediaDeviceShowName := "正在播放"
  const NoMediaStatus := "没有媒体播放"

  /** Titles for which nothing is reported (the literal lists "任务切换" twice). */
  const SkippedNames: set<string> := {
    "", "系统托盘溢出窗口。", "新通知", "任务切换", "快速设置", "通知中心", "操作中心",
    "日期和时间信息", "网络连接", "电池信息", "搜索", "任务视图", "Program Manager", "贴靠助手",
    "Flow.Launcher", "Snipper - Snipaste", "Paster - Snipaste"}

  /** Titles that mean the machine is not in use. */
  const NotUsingNames: set<string> := {
    "启动", "「开始」菜单", "我们喜欢这张图片，因此我们将它与你共享。", "就像你看到的图像一样？选择以下选项",
    "喜欢这张图片吗?", "Windows 默认锁屏界面"}

  /** The switches of the agent. */
  datatype AgentConfig = AgentConfig(
    bypassSameRequest: bool,
    reverseAppName: bool,
    mediaInfoEnabled: bool,
    mediaInfoMode: string,
    batteryInfoEnabled: bool)

  /** The values the file ships with. */
  const DefaultConfig := AgentConfig(true, false, true, "standalone", true)

  // ----- reverse_app_name -----

  /** The specification: the " - "-separated segments in reverse order. */
  function ReversedAppName(name: string): string {
    Join(Reverse(Split(name, Dash)), Dash)
  }

  /** `reverse_app_name`, with its loop that puts each segment in front of the ones before. */
  method ReverseAppName(name: string) returns (r: string)
    ensures r == ReversedAppName(name)
  {
    var lst := Split(name, Dash);
    var acc: seq<string> := [];
    for i := 0 to |lst|
      invariant acc == Reverse(lst[..i])
    {
      assert lst[..i + 1][1..] == lst[1..i + 1];
      PrependReverse(lst, i);
      acc := [lst[i]] + acc;
    }
    assert lst[..|lst|] == lst;
    r := Join(acc, Dash);
  }

  lemma PrependReverse(s: seq<string>, i: nat)
    requires i < |s|
    ensures Reverse(s[..i + 1]) == [s[i]] + Reverse(s[..i])
  {
    var a, b := Reverse(s[..i + 1]), [s[i]] + Reverse(s[..i]);
    assert |a| == |b|;
    forall k | 0 <= k < |a|
      ensures a[k] == b[k]
    {
      if k > 0 {
        assert a[k] == s[..i + 1][i - k];
        assert b[k] == Reverse(s[..i])[k - 1] == s[..i][i - k];
      }
    }
  }

  /** A title without " - " is left as it is. */
  lemma ReverseWithoutSeparator(name: string)
    requires !Contains(name, Dash)
    ensures ReversedAppName(name) == name
  {
    SplitNoSep(name, Dash);
  }

  /** Reversing twice gives the title back, unless the title ends with " -". */
  lemma ReverseTwice(name: string)
    requires !EndsWith(name, " -")
    ensures ReversedAppName(ReversedAppName(name)) == name
  {
    var q := Split(name, Dash);
    var rq := Reverse(q);
    SplitSegments(name, Dash);
    LastSegmentIsSuffix(name, Dash);
    var l := Last(q);
    if |l| >= 2 {
      assert l[|l| - 2..] == name[|name| - 2..];
    }
    assert !EndsWith(l, " -");
    forall k | 0 <= k < |rq| - 1
      ensures Clean(rq[k], Dash)
    {
      var j := |q| - 1 - k;
      if j == |q| - 1 {
        DashClean(l);
      }
    }
    SplitJoin(rq, Dash);
    ReverseReverse(q);
    JoinSplit(name, Dash);
  }

  /** A title of two clean segments reverses to the segments swapped. */
  lemma ReverseTwoSegments(x: string, y: string)
    requires !Contains(x, Dash) && !EndsWith(x, " -") && !Contains(y, Dash)
    ensures ReversedAppName(x + Dash + y) == y + Dash + x
  {
    DashClean(x);
    SplitAfterClean(x, Dash, y);
    SplitNoSep(y, Dash);
    var name := x + Dash + y;
    assert Split(name, Dash) == [x, y];
    assert Reverse([x, y]) == [y, x];
    JoinCons(y, [x], Dash);
    assert [y] + [x] == [y, x];
    assert ReversedAppName(name) == Join([y, x], Dash);
  }

  lemma ShortHasNoDash(x: string)
    requires |x| <= 3 && x != Dash
    ensures !Contains(x, Dash)
  {
    if |x| == 3 {
      assert x[0..3] == x;
    }
  }

  /** A title ending in " -" does not come back: "d - c -" reverses to "c - - d", which
      reverses to "- d - c". */
  lemma ReverseTwiceCounterexample()
    ensures ReversedAppName("d - c -") == "c - - d"
    ensures ReversedAppName(ReversedAppName("d - c -")) == "- d - c"
  {
    ReverseFirstExample();
    ReverseSecondExample();
  }

  lemma ReverseFirstExample()
    ensures ReversedAppName("d - c -") == "c - - d"
  {
    ShortHasNoDash("d");
    ShortHasNoDash("c -");
    ReverseTwoSegments("d", "c -");
    FirstExampleJoins();
  }

  lemma FirstExampleJoins()
    ensures "d" + Dash + "c -" == "d - c -"
    ensures "c -" + Dash + "d" == "c - - d"
  {
  }

  lemma ReverseSecondExample()
    ensures ReversedAppName("c - - d") == "- d - c"
  {
    ShortHasNoDash("c");
    ShortHasNoDash("- d");
    ReverseTwoSegments("c", "- d");
    SecondExampleJoins();
  }

  lemma SecondExampleJoins()
    ensures "c" + Dash + "- d" == "c - - d"
    ensures "- d" + Dash + "c" == "- d - c"
  {
  }

  // ----- do_update -----

  datatype Battery = Battery(percent: int, status: string)

  /** One `api_client.send_status` call. */
  datatype Report = Report(using: bool, status: string, deviceId: string, showName: string)

  /** The module globals. */
  datatype AgentState = AgentState(
    lastWindow: string,
    cachedWindowTitle: string,
    lastMediaPlaying: bool,
    lastMediaContent: string)

  const InitialAgentState := AgentState("", "", false, "")

  /** The readings of one call: the foreground title, `check_idle`'s answer and the tracker's
      flag read afterwards, battery and media, and whether each send went through. */
  datatype Observation = Observation(
    windowText: string,
    mouseIdle: bool,
    trackerIdle: bool,
    battery: Battery,
    media: Media,
    sendOk: bool,
    mediaSendOk: bool)

  /** The state afterwards and the reports sent for the device and for the media device. */
  datatype StepResult = StepResult(state: AgentState, mainSend: Option<Report>, mediaSend: Option<Report>)

  function CurrentWindow(cfg: AgentConfig, text: string): string {
    if cfg.reverseAppName && Contains(text, Dash) then ReversedAppName(text) else text
  }

  function BatteryTag(cfg: AgentConfig, b: Battery): string {
    if cfg.batteryInfoEnabled && b.percent > 0 then "[🔋" + IntToString(b.percent) + "%" + b.status + "] " else ""
  }

  predicate MediaShown(cfg: AgentConfig, m: Media) {
    cfg.mediaInfoEnabled && m.playing && (m.title != "" || m.artist != "")
  }

  function PrefixInfo(cfg: AgentConfig, m: Media): Option<string> {
    if MediaShown(cfg, m) && m.title != "" then Some(FormatPrefix(m.title)) else None
  }

  function StandaloneInfo(cfg: AgentConfig, m: Media): Option<string> {
    if MediaShown(cfg, m) then Some(FormatStandalone(m.title, m.artist, m.album)) else None
  }

  predicate PrefixMode(cfg: AgentConfig) {
    cfg.mediaInfoEnabled && cfg.mediaInfoMode == "prefix"
  }

  predicate StandaloneMode(cfg: AgentConfig) {
    cfg.mediaInfoEnabled && cfg.mediaInfoMode == "standalone"
  }

  /** The window text before the idle check: battery tag and, in prefix mode, media prefix,
      in front of the current title. */
  function ActiveWindowOf(cfg: AgentConfig, current: string, b: Battery, m: Media): string {
    var w := BatteryTag(cfg, b) + current;
    var prefix := PrefixInfo(cfg, m);
    if PrefixMode(cfg) && prefix.Some? then prefix.value + " " + w else w
  }

  function ActiveWindow(cfg: AgentConfig, obs: Observation): string {
    ActiveWindowOf(cfg, CurrentWindow(cfg, obs.windowText), obs.battery, obs.media)
  }

  /** Window, `using` and the cached title after the idle handling. */
  datatype IdleOutcome = IdleOutcome(window: string, using: bool, cached: string)

  function IdleHandling(st: AgentState, cfg: AgentConfig, obs: Observation): IdleOutcome {
    if obs.mouseIdle then
      IdleOutcome("", false, if !obs.trackerIdle then CurrentWindow(cfg, obs.windowText) else st.cachedWindowTitle)
    else if obs.trackerIdle then
      IdleOutcome(st.cachedWindowTitle, true, st.cachedWindowTitle)
    else
      IdleOutcome(ActiveWindow(cfg, obs), true, st.cachedWindowTitle)
  }

  predicate ShouldUpdate(st: AgentState, cfg: AgentConfig, obs: Observation) {
    obs.mouseIdle != obs.trackerIdle || IdleHandling(st, cfg, obs).window != st.lastWindow || !cfg.bypassSameRequest
  }

  predicate MediaChanged(st: AgentState, playing: bool, content: string) {
    playing != st.lastMediaPlaying || (playing && content != st.lastMediaContent)
  }

  /** The standalone-media part at the end of `do_update`. */
  function MediaPart(st: AgentState, cfg: AgentConfig, obs: Observation, main: Option<Report>): StepResult {
    if StandaloneMode(cfg) then
      var info := StandaloneInfo(cfg, obs.media);
      var playing := info.Some?;
      var content := info.GetOr("");
      if MediaChanged(st, playing, content) then
        var report :=
          if playing then Report(true, content, MediaDeviceId, MediaDeviceShowName)
          else Report(false, NoMediaStatus, MediaDeviceId, MediaDeviceShowName);
        var next := if obs.mediaSendOk then st.(lastMediaPlaying := playing, lastMediaContent := content) else st;
        StepResult(next, main, Some(report))
      else StepResult(st, main, None)
    else StepResult(st, main, None)
  }

  /** The specification of one `do_update` call. A skipped title with unchanged mouse state
      returns before the media part. */
  function UpdateStep(st: AgentState, cfg: AgentConfig, obs: Observation): StepResult {
    var cw := CurrentWindow(cfg, obs.windowText);
    var idle := IdleHandling(st, cfg, obs);
    var st1 := st.(cachedWindowTitle := idle.cached);
    if ShouldUpdate(st, cfg, obs) then
      var using := if cw in NotUsingNames then false else idle.using;
      if cw in SkippedNames && obs.mouseIdle == obs.trackerIdle then StepResult(st1, None, None)
      else
        var window := if cw in SkippedNames then st.lastWindow else idle.window;
        var report := Report(using, window, DeviceId, DeviceShowName);
        MediaPart(if obs.sendOk then st1.(lastWindow := window) else st1, cfg, obs, Some(report))
    else
      MediaPart(st1, cfg, obs, None)
  }

  /** The agent's globals, updated by each `do_update` call. */
  class Agent {
    const config: AgentConfig
    var lastWindow: string
    var cachedWindowTitle: string
    var lastMediaPlaying: bool
    var lastMediaContent: string

    function State(): AgentState
      reads this
    {
      AgentState(lastWindow, cachedWindowTitle, lastMediaPlaying, lastMediaContent)
    }

    constructor (cfg: AgentConfig)
      ensures config == cfg && State() == InitialAgentState
    {
      config := cfg;
      lastWindow := "";
      cachedWindowTitle := "";
      lastMediaPlaying := false;
      lastMediaContent := "";
    }

    /** `do_update`: the tracker is polled once, and its flag is read back afterwards. */
    method DoUpdate(tracker: MouseTracker, windowText: string, cursor: Option<Pos>, now: int,
                    battery: Battery, session: SessionReading, sendOk: bool, mediaSendOk: bool)
      returns (mainSend: Option<Report>, mediaSend: Option<Report>)
      modifies this, tracker
      ensures tracker.State() == Step(old(tracker.State()), tracker.idleMinutes, tracker.moveThreshold, cursor, now)
      ensures StepResult(State(), mainSend, mediaSend) ==
        UpdateStep(old(State()), config,
          Observation(windowText, tracker.isMouseIdle, tracker.isMouseIdle, battery, GetMediaInfo(session), sendOk, mediaSendOk))
    {
      ghost var st := State();
      var currentWindow := windowText;
      if config.reverseAppName && Contains(currentWindow, Dash) {
        currentWindow := ReverseAppName(currentWindow);
      }
      var mouseIdle := tracker.CheckIdle(cursor, now);
      var media := GetMediaInfo(session);
      ghost var obs := Observation(windowText, mouseIdle, tracker.isMouseIdle, battery, media, sendOk, mediaSendOk);
      var window, standaloneInfo := ComposeWindow(currentWindow, battery, media);
      var using: bool;
      window, using := HandleIdle(mouseIdle, tracker.isMouseIdle, currentWindow, window, obs);
      var returned: bool;
      mainSend, returned := SendMain(mouseIdle, tracker.isMouseIdle, currentWindow, window, using, sendOk, st, obs);
      if returned {
        mediaSend := None;
        return;
      }
      mediaSend := SendMedia(standaloneInfo, mediaSendOk, obs, mainSend);
    }

    /** The window text from the title, the battery reading and the media reading, and the
        standalone media text. */
    method ComposeWindow(currentWindow: string, battery: Battery, media: Media)
      returns (window: string, standaloneInfo: Option<string>)
      ensures window == ActiveWindowOf(config, currentWindow, battery, media)
      ensures standaloneInfo == StandaloneInfo(config, media)
    {
      window := currentWindow;
      if config.batteryInfoEnabled && battery.percent > 0 {
        window := "[🔋" + IntToString(battery.percent) + "%" + battery.status + "] " + window;
      }
      var prefixInfo: Option<string> := None;
      standaloneInfo := None;
      if config.mediaInfoEnabled {
        if media.playing && (media.title != "" || media.artist != "") {
          if media.title != "" {
            prefixInfo := Some(FormatPrefix(media.title));
          }
          standaloneInfo := Some(FormatStandalone(media.title, media.artist, media.album));
        }
      }
      if config.mediaInfoEnabled && prefixInfo.Some? && config.mediaInfoMode == "prefix" {
        window := prefixInfo.value + " " + window;
      }
    }

    /** The idle handling: an idle mouse blanks the window (caching the title when the flag
        is not set), and a flag set while the mouse is not idle restores the cached title. */
    method HandleIdle(mouseIdle: bool, trackerIdle: bool, currentWindow: string, active: string, ghost obs: Observation)
      returns (window: string, using: bool)
      requires obs.mouseIdle == mouseIdle && obs.trackerIdle == trackerIdle
      requires currentWindow == CurrentWindow(config, obs.windowText)
      requires active == ActiveWindow(config, obs)
      modifies this`cachedWindowTitle
      ensures IdleOutcome(window, using, cachedWindowTitle) == IdleHandling(old(State()), config, obs)
    {
      window := active;
      using := true;
      if mouseIdle {
        if !trackerIdle {
          cachedWindowTitle := currentWindow;
        }
        using := false;
        window := "";
      } else {
        if trackerIdle {
          window := cachedWindowTitle;
          using := true;
        }
      }
    }

    /** The device report, when one is due, from the window and `using` after the idle
        handling of `st`; `returned` is the early return for a skipped title with unchanged
        mouse state. */
    method SendMain(mouseIdle: bool, trackerIdle: bool, currentWindow: string, idleWindow: string, idleUsing: bool,
                    sendOk: bool, ghost st: AgentState, ghost obs: Observation)
      returns (mainSend: Option<Report>, returned: bool)
      requires obs.mouseIdle == mouseIdle && obs.trackerIdle == trackerIdle && obs.sendOk == sendOk
      requires currentWindow == CurrentWindow(config, obs.windowText)
      requires IdleOutcome(idleWindow, idleUsing, cachedWindowTitle) == IdleHandling(st, config, obs)
      requires st.lastWindow == lastWindow
      requires st.lastMediaPlaying == lastMediaPlaying && st.lastMediaContent == lastMediaContent
      modifies this`lastWindow
      ensures returned ==> mainSend.None? && UpdateStep(st, config, obs) == StepResult(State(), None, None)
      ensures !returned ==> UpdateStep(st, config, obs) == MediaPart(State(), config, obs, mainSend)
    {
      mainSend := None;
      returned := false;
      var window, using := idleWindow, idleUsing;
      var shouldUpdate := mouseIdle != trackerIdle || window != lastWindow || !config.bypassSameRequest;
      if shouldUpdate {
        if currentWindow in NotUsingNames {
          using := false;
        }
        if currentWindow in SkippedNames {
          if mouseIdle == trackerIdle {
            returned := true;
            return;
          } else {
            window := lastWindow;
          }
        }
        mainSend := Some(Report(using, window, DeviceId, DeviceShowName));
        if sendOk {
          lastWindow := window;
        }
      }
    }

    /** The standalone-media part: the media device is told about a change, and the
        remembered media state follows a report that did not raise. */
    method SendMedia(standaloneInfo: Option<string>, mediaSendOk: bool, ghost obs: Observation, ghost main: Option<Report>)
      returns (mediaSend: Option<Report>)
      requires standaloneInfo == StandaloneInfo(config, obs.media) && mediaSendOk == obs.mediaSendOk
      modifies this`lastMediaPlaying, this`lastMediaContent
      ensures StepResult(State(), main, mediaSend) == MediaPart(old(State()), config, obs, main)
    {
      mediaSend := None;
      if config.mediaInfoEnabled && config.mediaInfoMode == "standalone" {
        var currentMediaPlaying := standaloneInfo.Some?;
        var currentMediaContent := if standaloneInfo.Some? then standaloneInfo.value else "";
        var mediaChanged := (currentMediaPlaying != lastMediaPlaying)
          || (currentMediaPlaying && currentMediaContent != lastMediaContent);
        if mediaChanged {
          if currentMediaPlaying {
            mediaSend := Some(Report(true, standaloneInfo.value, MediaDeviceId, MediaDeviceShowName));
          } else {
            mediaSend := Some(Report(false, NoMediaStatus, MediaDeviceId, MediaDeviceShowName));
          }
          if mediaSendOk {
            lastMediaPlaying := currentMediaPlaying;
            lastMediaContent := currentMediaContent;
          }
        }
      }
    }
  }

  // ----- properties of one update -----

  /** `check_idle` answers with the flag it leaves behind, so the two idle readings of a real
      update always agree. */
  predicate Consistent(obs: Observation) {
    obs.mouseIdle == obs.trackerIdle
  }

  /** The battery tag is added exactly when the percentage is positive (and the reading is on). */
  lemma BatteryTagWhenPositive(cfg: AgentConfig, b: Battery)
    ensures BatteryTag(cfg, b) != "" <==> cfg.batteryInfoEnabled && b.percent > 0
    ensures BatteryTag(cfg, b) != "" ==>
      StartsWith(BatteryTag(cfg, b), "[🔋" + IntToString(b.percent) + "%") && EndsWith(BatteryTag(cfg, b), "] ")
  {
  }

  /** Outside prefix mode the active window is the battery tag, then the current title. */
  lemma ActiveWindowLayout(cfg: AgentConfig, obs: Observation)
    ensures EndsWith(ActiveWindow(cfg, obs), CurrentWindow(cfg, obs.windowText))
    ensures !PrefixMode(cfg) ==> ActiveWindow(cfg, obs) == BatteryTag(cfg, obs.battery) + CurrentWindow(cfg, obs.windowText)
    ensures PrefixMode(cfg) && PrefixInfo(cfg, obs.media).Some? ==>
      StartsWith(ActiveWindow(cfg, obs), "[♪" + obs.media.title + "] ")
  {
    ActiveWindowOfLayout(cfg, CurrentWindow(cfg, obs.windowText), obs.battery, obs.media);
  }

  lemma ActiveWindowOfLayout(cfg: AgentConfig, current: string, b: Battery, m: Media)
    ensures EndsWith(ActiveWindowOf(cfg, current, b, m), current)
    ensures !PrefixMode(cfg) ==> ActiveWindowOf(cfg, current, b, m) == BatteryTag(cfg, b) + current
    ensures PrefixMode(cfg) && PrefixInfo(cfg, m).Some? ==>
      StartsWith(ActiveWindowOf(cfg, current, b, m), "[♪" + m.title + "] ")
  {
    var w := BatteryTag(cfg, b) + current;
    assert w[|w| - |current|..] == current;
    var prefix := PrefixInfo(cfg, m);
    if PrefixMode(cfg) && prefix.Some? {
      var a := prefix.value + " " + w;
      assert a[|a| - |current|..] == current;
      assert prefix.value == "[♪" + m.title + "]";
    }
  }

  /** While idle, a report says "not in use" with an empty window. */
  lemma IdleReportsNotUsing(st: AgentState, cfg: AgentConfig, obs: Observation)
    requires Consistent(obs) && obs.mouseIdle
    ensures var r := UpdateStep(st, cfg, obs);
      r.mainSend.Some? ==> !r.mainSend.value.using && r.mainSend.value.status == ""
  {
  }

  /** A not-in-use title always reports `using = false`. */
  lemma NotUsingTitleReportsNotUsing(st: AgentState, cfg: AgentConfig, obs: Observation)
    requires CurrentWindow(cfg, obs.windowText) in NotUsingNames
    ensures var r := UpdateStep(st, cfg, obs); r.mainSend.Some? ==> !r.mainSend.value.using
  {
  }

  /** A skipped title with unchanged mouse state sends nothing; if an update was due, the
      call returns early and nothing at all changes. */
  lemma SkippedTitleSendsNothing(st: AgentState, cfg: AgentConfig, obs: Observation)
    requires CurrentWindow(cfg, obs.windowText) in SkippedNames && Consistent(obs)
    ensures UpdateStep(st, cfg, obs).mainSend.None?
    ensures ShouldUpdate(st, cfg, obs) ==> UpdateStep(st, cfg, obs) == StepResult(st, None, None)
  {
  }

  /** A skipped title with changed mouse state reports the last window instead. */
  lemma SkippedTitleOnMouseChange(st: AgentState, cfg: AgentConfig, obs: Observation)
    requires CurrentWindow(cfg, obs.windowText) in SkippedNames && !Consistent(obs)
    ensures var r := UpdateStep(st, cfg, obs);
      r.mainSend.Some? && r.mainSend.value.status == st.lastWindow
  {
  }

  /** `last_window` moves only to a window that was sent without raising, and always does then. */
  lemma LastWindowOnlyOnSuccess(st: AgentState, cfg: AgentConfig, obs: Observation)
    ensures var r := UpdateStep(st, cfg, obs);
      && (r.state.lastWindow != st.lastWindow ==> obs.sendOk && r.mainSend.Some?)
      && (r.mainSend.Some? && obs.sendOk ==> r.state.lastWindow == r.mainSend.value.status)
      && (!obs.sendOk ==> r.state.lastWindow == st.lastWindow)
  {
  }

  /** With the two idle readings equal, as they always are, the "mouse state changed" test
      never fires: an update is due exactly when the window differs from the last one or
      same-window requests are not bypassed, it is sent unless the title is skipped, and the
      cached title is never written. */
  lemma MouseChangeNeverSeen(st: AgentState, cfg: AgentConfig, obs: Observation)
    requires Consistent(obs)
    ensures ShouldUpdate(st, cfg, obs) <==> IdleHandling(st, cfg, obs).window != st.lastWindow || !cfg.bypassSameRequest
    ensures UpdateStep(st, cfg, obs).mainSend.Some? <==>
      ShouldUpdate(st, cfg, obs) && CurrentWindow(cfg, obs.windowText) !in SkippedNames
    ensures UpdateStep(st, cfg, obs).state.cachedWindowTitle == st.cachedWindowTitle
  {
  }

  /** The media device is told only about a change, and the remembered media state moves only
      with a report that went through. */
  lemma MediaStateMovesOnlyOnChange(st: AgentState, cfg: AgentConfig, obs: Observation, main: Option<Report>)
    ensures var r := MediaPart(st, cfg, obs, main);
      var info := StandaloneInfo(cfg, obs.media);
      && r.mainSend == main
      && (r.mediaSend.Some? <==> StandaloneMode(cfg) && MediaChanged(st, info.Some?, info.GetOr("")))
      && ((r.state.lastMediaPlaying, r.state.lastMediaContent) != (st.lastMediaPlaying, st.lastMediaContent) ==>
            r.mediaSend.Some? && obs.mediaSendOk)
      && r.state.lastWindow == st.lastWindow && r.state.cachedWindowTitle == st.cachedWindowTitle
  {
  }

  /** Once a media report went through, the same media reading sends nothing more. */
  lemma MediaReportSettles(st: AgentState, cfg: AgentConfig, obs: Observation, main: Option<Report>, main2: Option<Report>)
    requires obs.mediaSendOk
    ensures MediaPart(MediaPart(st, cfg, obs, main).state, cfg, obs, main2).mediaSend.None?
  {
  }

  /** A playing report carries the standalone text, a stopped one the fixed text; both go to
      the media device. */
  lemma MediaReportContent(st: AgentState, cfg: AgentConfig, obs: Observation, main: Option<Report>)
    ensures var r := MediaPart(st, cfg, obs, main);
      r.mediaSend.Some? ==>
        && r.mediaSend.value.deviceId == MediaDeviceId && r.mediaSend.value.showName == MediaDeviceShowName
        && (r.mediaSend.value.using <==> MediaShown(cfg, obs.media))
        && (r.mediaSend.value.using ==>
              r.mediaSend.value.status == FormatStandalone(obs.media.title, obs.media.artist, obs.media.album))
        && (!r.mediaSend.value.using ==> r.mediaSend.value.status == NoMediaStatus)
  {
  }
}
