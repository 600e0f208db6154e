/**
 * The alternative media reader in client/Windows/untrack.py (`re_get_media_info`). It asks
 * the media session first; failing that, it looks for a NetEase CloudMusic window and reads
 * the track from its title. The file is not imported anywhere, and names it uses (`media`,
 * `debug`, `win32process`) are not defined in it. This module models the logic it states.
 * The window enumeration and the process lookup are inputs: a list of the top-level windows
 * in enumeration order, each with its visibility, title and executable path (or none when
 * the process could not be read).
 */
module Untrack {
  import opened Wrappers
  import opened Text
  import opened MediaInfo

  // ----- the media session -----

  /** The session reading, kept only when it says something is playing with a title or an
      artist; otherwise the search goes on. The fields and the album filter are those of
      `get_media_info`. */
  function SessionMedia(reading: SessionReading): (r: Option<Media>)
    ensures r.Some? ==> r.value == GetMediaInfo(reading) && r.value.playing && (r.value.title != "" || r.value.artist != "")
    ensures r.None? ==>
      || !reading.Session? || !reading.playing || reading.props.None?
      || (FieldOf(reading.props.value.title) == "" && FieldOf(reading.props.value.artist) == "")
  {
    var m := GetMediaInfo(reading);
    if m.playing && (m.title != "" || m.artist != "") then Some(m) else None
  }

  // ----- enum_visible_windows -----

  /** A top-level window as the enumeration hands it over. */
  datatype RawWindow = RawWindow(visible: bool, title: string, exe: Option<string>)

  /** An entry of the collected list: the title and the executable path, or "Unknown". */
  datatype Window = Window(title: string, exe: string)

  /** `exe or "Unknown"`: a missing or empty path reads as "Unknown". */
  function ExeOrUnknown(exe: Option<string>): (r: string)
    ensures r != ""
    ensures exe.Some? && exe.value != "" ==> r == exe.value
  {
    if exe.Some? && exe.value != "" then exe.value else "Unknown"
  }

  /** A title that `strip` empties. */
  predicate Blank(t: string) {
    AllSpace(t)
  }

  lemma StripEmptyIsBlank(t: string)
    ensures Strip(t) == "" <==> Blank(t)
  {
  }

  /** Whether the enumeration callback records the window: visible, with a non-blank title. */
  predicate Listed(w: RawWindow) {
    w.visible && !Blank(w.title)
  }

  function Entry(w: RawWindow): Window {
    Window(w.title, ExeOrUnknown(w.exe))
  }

  /** The specification of the enumeration: the listed windows, in order. */
  function Collected(raws: seq<RawWindow>): (r: seq<Window>)
    ensures |r| <= |raws|
    ensures forall k :: 0 <= k < |r| ==> !Blank(r[k].title) && r[k].exe != ""
    decreases |raws|
  {
    if |raws| == 0 then []
    else
      var rest := Collected(raws[..|raws| - 1]);
      var w := raws[|raws| - 1];
      if Listed(w) then rest + [Entry(w)] else rest
  }

  /** Enumerating two runs of windows lists the first run's entries, then the second's. */
  lemma {:induction false} CollectedAppend(a: seq<RawWindow>, b: seq<RawWindow>)
    ensures Collected(a + b) == Collected(a) + Collected(b)
    decreases |b|
  {
    if |b| == 0 {
      assert a + b == a;
    } else {
      var b' := b[..|b| - 1];
      assert (a + b)[..|a + b| - 1] == a + b';
      CollectedAppend(a, b');
    }
  }

  /** An entry is listed exactly when its window is visible with a non-blank title. */
  lemma {:induction false} CollectedMembers(raws: seq<RawWindow>, w: Window)
    ensures w in Collected(raws) <==> exists i :: 0 <= i < |raws| && Listed(raws[i]) && Entry(raws[i]) == w
    decreases |raws|
  {
    if |raws| > 0 {
      var init := raws[..|raws| - 1];
      CollectedMembers(init, w);
      if exists i :: 0 <= i < |init| && Listed(init[i]) && Entry(init[i]) == w {
        var i :| 0 <= i < |init| && Listed(init[i]) && Entry(init[i]) == w;
        assert raws[i] == init[i];
      }
      if exists i :: 0 <= i < |raws| && Listed(raws[i]) && Entry(raws[i]) == w {
        var i :| 0 <= i < |raws| && Listed(raws[i]) && Entry(raws[i]) == w;
        if i < |init| {
          assert init[i] == raws[i];
        }
      }
    }
  }

  /** `enum_visible_windows`: the callback appends each listed window to the list. */
  method EnumVisibleWindows(raws: seq<RawWindow>) returns (windows: seq<Window>)
    ensures windows == Collected(raws)
  {
    windows := [];
    for k := 0 to |raws|
      invariant windows == Collected(raws[..k])
    {
      var w := raws[k];
      assert raws[..k + 1][..k] == raws[..k] && raws[..k + 1][k] == w;
      StripEmptyIsBlank(w.title);
      if w.visible && Strip(w.title) != "" {
        windows := windows + [Window(w.title, ExeOrUnknown(w.exe))];
      }
    }
    assert raws[..|raws|] == raws;
  }

  // ----- exe name -----

  const Backslash := "\\"

  /** The last `\`-separated component of the path, lowercased; "unknown" for "Unknown". */
  function ExeName(path: string): (r: string)
    ensures path == "Unknown" ==> r == "unknown"
    ensures path != "Unknown" ==> |r| <= |path| && forall i :: 0 <= i < |r| ==> r[i] != '\\'
  {
    if path == "Unknown" then "unknown"
    else
      var parts := Split(path, Backslash);
      SplitSegments(path, Backslash);
      LastSegmentIsSuffix(path, Backslash);
      NoCharFromNoContains(Last(parts), '\\');
      Lower(Last(parts))
  }

  lemma NoCharFromNoContains(s: string, c: char)
    requires !Contains(s, [c])
    ensures forall i :: 0 <= i < |s| ==> s[i] != c
  {
    forall i | 0 <= i < |s|
      ensures s[i] != c
    {
      assert s[i] == c ==> OccursAt(s, [c], i) by {
        assert s[i..i + 1] == [s[i]];
      }
      ContainsIff(s, [c], i);
    }
  }

  /** A path without directories names itself, lowercased. */
  lemma ExeNameWithoutDirectory(path: string)
    requires path != "Unknown" && !Contains(path, Backslash)
    ensures ExeName(path) == Lower(path)
  {
    SplitNoSep(path, Backslash);
  }

  /** Whatever the directory, the name is the file part, lowercased. */
  lemma ExeNameOfPath(dir: string, file: string)
    requires forall i :: 0 <= i < |file| ==> file[i] != '\\'
    ensures ExeName(dir + Backslash + file) == Lower(file)
  {
    var s := dir + Backslash + file;
    var m, n := |s|, |file|;
    assert s[|dir|] == '\\';
    assert forall i :: 0 <= i < |"Unknown"| ==> "Unknown"[i] != '\\';
    assert s != "Unknown" by {
      assert |s| == |"Unknown"| ==> s[|dir|] != "Unknown"[|dir|];
    }
    var l := Last(Split(s, Backslash));
    SplitSegments(s, Backslash);
    LastSegmentIsSuffix(s, Backslash);
    NoCharFromNoContains(l, '\\');
    assert s[m - |l|..] == l;
    assert |l| == n;
    assert l == file;
  }

  /** Only windows of `cloudmusic.exe` are considered. */
  predicate IsCloudMusic(exeName: string) {
    Contains(exeName, "cloudmusic.exe")
  }

  // ----- CloudMusic titles -----

  /** Window titles of CloudMusic pages that are not a playing track. */
  const CloudMusicPages: set<string> := {
    "网易云音乐", "发现音乐", "私人FM", "我的音乐", "最近播放", "每日推荐", "歌单", "排行榜",
    "关注", "朋友", "视频", "播客", "正在启动...", "迷你播放器", "桌面歌词"}

  /** A stripped title that is skipped: empty, a page title, or a search, playlist or login window. */
  predicate Blacklisted(t: string) {
    t == "" || t in CloudMusicPages || StartsWith(t, "搜索") || StartsWith(t, "创建歌单") || StartsWith(t, "登录")
  }

  /** Non-empty, with no white space at either end: what `strip` leaves of a non-blank text. */
  predicate Trimmed(p: string) {
    p != "" && !IsSpace(p[0]) && !IsSpace(p[|p| - 1])
  }

  /** `[p.strip() for p in segments if p.strip()]`. */
  function TitleParts(segments: seq<string>): (r: seq<string>)
    ensures |r| <= |segments|
    decreases |segments|
  {
    if |segments| == 0 then []
    else
      var p := Strip(segments[0]);
      if p == "" then TitleParts(segments[1..]) else [p] + TitleParts(segments[1..])
  }

  /** Every part is non-empty and stripped. */
  lemma {:induction false} TitlePartsTrimmed(segments: seq<string>)
    ensures forall k :: 0 <= k < |TitleParts(segments)| ==> Trimmed(TitleParts(segments)[k])
    decreases |segments|
  {
    if |segments| > 0 {
      TitlePartsTrimmed(segments[1..]);
      var p := Strip(segments[0]);
      if p != "" {
        assert Trimmed(p);
        TrimmedCons(p, TitleParts(segments[1..]));
      }
    }
  }

  lemma TrimmedCons(p: string, rest: seq<string>)
    requires Trimmed(p) && forall k :: 0 <= k < |rest| ==> Trimmed(rest[k])
    ensures forall k :: 0 <= k < |[p] + rest| ==> Trimmed(([p] + rest)[k])
  {
    forall k | 1 <= k < |rest| + 1
      ensures Trimmed(([p] + rest)[k])
    {
      assert ([p] + rest)[k] == rest[k - 1];
    }
  }

  /** Segments that are already trimmed are kept as they are. */
  lemma {:induction false} TitlePartsOfClean(segments: seq<string>)
    requires forall k :: 0 <= k < |segments| ==> Trimmed(segments[k])
    ensures TitleParts(segments) == segments
    decreases |segments|
  {
    if |segments| > 0 {
      StripUnchanged(segments[0]);
      TitlePartsOfClean(segments[1..]);
    }
  }

  /** Blank segments are dropped and the others kept in order: the first part is the first
      segment that is not blank. */
  lemma {:induction false} TitlePartsFirst(segments: seq<string>, j: nat)
    requires j < |segments| && Strip(segments[j]) != ""
    requires forall k :: 0 <= k < j ==> Strip(segments[k]) == ""
    ensures |TitleParts(segments)| > 0 && TitleParts(segments)[0] == Strip(segments[j])
    decreases j
  {
    if j > 0 {
      var tail := segments[1..];
      TitlePartsBlankHead(segments);
      assert tail[j - 1] == segments[j];
      forall k | 0 <= k < j - 1
        ensures Strip(tail[k]) == ""
      {
        assert tail[k] == segments[k + 1];
      }
      TitlePartsFirst(tail, j - 1);
    }
  }

  /** A blank first segment contributes no part. */
  lemma TitlePartsBlankHead(segments: seq<string>)
    requires |segments| > 0 && Strip(segments[0]) == ""
    ensures TitleParts(segments) == TitleParts(segments[1..])
  {
  }

  datatype Track = Track(title: string, artist: string, album: string)

  const UnknownArtist := "未知艺术家"

  /** The track in a stripped title: the first part, the second or the unknown artist, the
      third or no album; none when the title has no non-blank part. */
  function ParseTitle(t: string): (r: Option<Track>)
    ensures r.None? <==> |TitleParts(Split(t, Dash))| == 0
    ensures r.Some? ==> r.value.title != "" && r.value.artist != ""
  {
    var parts := TitleParts(Split(t, Dash));
    TitlePartsTrimmed(Split(t, Dash));
    if |parts| == 0 then None
    else
      Some(Track(parts[0], if |parts| > 1 then parts[1] else UnknownArtist, if |parts| > 2 then parts[2] else ""))
  }

  /** A title made of stripped, non-empty, clean parts parses back to those parts, with the
      defaults for the missing artist and album. */
  lemma ParseJoinedTitle(parts: seq<string>)
    requires 1 <= |parts|
    requires forall k :: 0 <= k < |parts| ==> Trimmed(parts[k])
    requires forall k :: 0 <= k < |parts| ==> !Contains(parts[k], Dash) && !EndsWith(parts[k], " -")
    ensures ParseTitle(Join(parts, Dash)) ==
      Some(Track(parts[0], if |parts| > 1 then parts[1] else UnknownArtist, if |parts| > 2 then parts[2] else ""))
  {
    forall k | 0 <= k < |parts| - 1
      ensures Clean(parts[k], Dash)
    {
      DashClean(parts[k]);
    }
    SplitJoin(parts, Dash);
    TitlePartsOfClean(parts);
  }

  // ----- the search -----

  /** What the loop makes of one collected window: the track when it is a CloudMusic window
      whose stripped title is not skipped and holds one, and nothing otherwise. */
  function Verdict(w: Window): (r: Option<Track>)
    ensures r.Some? ==> IsCloudMusic(ExeName(w.exe)) && !Blacklisted(Strip(w.title))
    ensures IsCloudMusic(ExeName(w.exe)) && !Blacklisted(Strip(w.title)) ==> r == ParseTitle(Strip(w.title))
  {
    var t := Strip(w.title);
    if IsCloudMusic(ExeName(w.exe)) && !Blacklisted(t) then ParseTitle(t) else None
  }

  /** The verdict on each collected window, in enumeration order. */
  function Verdicts(ws: seq<Window>): (r: seq<Option<Track>>)
    ensures |r| == |ws|
    ensures forall k :: 0 <= k < |ws| ==> r[k] == Verdict(ws[k])
  {
    seq(|ws|, k requires 0 <= k < |ws| => Verdict(ws[k]))
  }

  function TrackMedia(t: Track): Media {
    Media(true, t.title, t.artist, t.album)
  }

  /** The first track among the verdicts, or nothing playing. */
  function FirstTrack(vs: seq<Option<Track>>): Media
    decreases |vs|
  {
    if |vs| == 0 then NoMedia
    else if vs[0].Some? then TrackMedia(vs[0].value)
    else FirstTrack(vs[1..])
  }

  /** The specification of the search. */
  function Search(ws: seq<Window>): Media {
    FirstTrack(Verdicts(ws))
  }

  lemma {:induction false} FirstTrackFinds(vs: seq<Option<Track>>, i: nat)
    requires i < |vs| && vs[i].Some?
    requires forall j :: 0 <= j < i ==> vs[j].None?
    ensures FirstTrack(vs) == TrackMedia(vs[i].value)
    decreases i
  {
    if i > 0 {
      assert vs[0].None?;
      FirstTrackFinds(vs[1..], i - 1);
    }
  }

  lemma {:induction false} FirstTrackFallback(vs: seq<Option<Track>>)
    ensures FirstTrack(vs).playing <==> exists i :: 0 <= i < |vs| && vs[i].Some?
    ensures !FirstTrack(vs).playing ==> FirstTrack(vs) == NoMedia
    ensures FirstTrack(vs).playing ==>
      exists i :: 0 <= i < |vs| && vs[i].Some? && FirstTrack(vs) == TrackMedia(vs[i].value)
    decreases |vs|
  {
    if |vs| > 0 && vs[0].Some? {
      assert vs[0].Some? && FirstTrack(vs) == TrackMedia(vs[0].value);
    }
    if |vs| > 0 && vs[0].None? {
      FirstTrackFallback(vs[1..]);
      if FirstTrack(vs).playing {
        var i :| 0 <= i < |vs[1..]| && vs[1..][i].Some? && FirstTrack(vs[1..]) == TrackMedia(vs[1..][i].value);
        assert vs[i + 1] == vs[1..][i];
      }
      if exists i :: 0 <= i < |vs| && vs[i].Some? {
        var i :| 0 <= i < |vs| && vs[i].Some?;
        assert i > 0 && vs[1..][i - 1] == vs[i];
      }
      if exists i :: 0 <= i < |vs[1..]| && vs[1..][i].Some? {
        var i :| 0 <= i < |vs[1..]| && vs[1..][i].Some?;
        assert vs[i + 1] == vs[1..][i];
      }
    }
  }

  /** The first window with a track decides the result. */
  lemma SearchFindsFirst(ws: seq<Window>, i: nat)
    requires i < |ws| && Verdict(ws[i]).Some?
    requires forall j :: 0 <= j < i ==> Verdict(ws[j]).None?
    ensures Search(ws) == TrackMedia(Verdict(ws[i]).value)
  {
    var vs := Verdicts(ws);
    FirstTrackFinds(vs, i);
  }

  /** Something is found exactly when some window has a track; otherwise the result is the
      default (not playing, all fields empty). */
  lemma SearchFallback(ws: seq<Window>)
    ensures Search(ws).playing <==> exists i :: 0 <= i < |ws| && Verdict(ws[i]).Some?
    ensures !Search(ws).playing ==> Search(ws) == NoMedia
  {
    var vs := Verdicts(ws);
    FirstTrackFallback(vs);
  }

  /** A found track is playing with a non-empty title and artist. */
  lemma SearchResultShape(ws: seq<Window>)
    ensures Search(ws).playing ==> Search(ws).title != "" && Search(ws).artist != ""
  {
    var vs := Verdicts(ws);
    FirstTrackFallback(vs);
    if Search(ws).playing {
      var i :| 0 <= i < |vs| && vs[i].Some? && FirstTrack(vs) == TrackMedia(vs[i].value);
    }
  }

  /** The loop over the collected windows: skipped windows `continue`, the first track
      returns. */
  method FindCloudMusic(ws: seq<Window>) returns (m: Media)
    ensures m == Search(ws)
  {
    for k := 0 to |ws|
      invariant Search(ws) == FirstTrack(Verdicts(ws)[k..])
    {
      assert Verdicts(ws)[k..][1..] == Verdicts(ws)[k + 1..];
      var w := ws[k];
      var exeName := ExeName(w.exe);
      if Contains(exeName, "cloudmusic.exe") {
        var titleText := Strip(w.title);
        if Blacklisted(titleText) {
          continue;
        }
        var parts := TitleParts(Split(titleText, Dash));
        if |parts| == 0 {
          continue;
        }
        var title := parts[0];
        var artist := if |parts| > 1 then parts[1] else UnknownArtist;
        var album := if |parts| > 2 then parts[2] else "";
        return Media(true, title, artist, album);
      }
    }
    assert Verdicts(ws)[|ws|..] == [];
    return NoMedia;
  }

  // ----- re_get_media_info -----

  /** The specification: the session first; then, unless the window search raised, the first
      CloudMusic track; else the default. */
  function MediaLookup(reading: SessionReading, raws: seq<RawWindow>, searchRaised: bool): Media {
    match SessionMedia(reading)
    case Some(m) => m
    case None => if searchRaised then NoMedia else Search(Collected(raws))
  }

  /** Whatever is returned either plays with a title or an artist, or is the default. */
  lemma LookupShape(reading: SessionReading, raws: seq<RawWindow>, searchRaised: bool)
    ensures var m := MediaLookup(reading, raws, searchRaised);
      (m.playing && (m.title != "" || m.artist != "")) || m == NoMedia
  {
    SearchFallback(Collected(raws));
    SearchResultShape(Collected(raws));
  }

  /** A meaningful session reading wins over any window. */
  lemma SessionFirst(reading: SessionReading, raws: seq<RawWindow>, searchRaised: bool)
    requires reading.Session? && reading.playing && reading.props.Some?
    requires FieldOf(reading.props.value.title) != "" || FieldOf(reading.props.value.artist) != ""
    ensures MediaLookup(reading, raws, searchRaised) == GetMediaInfo(reading)
  {
  }

  /** `re_get_media_info`. */
  method ReGetMediaInfo(reading: SessionReading, raws: seq<RawWindow>, searchRaised: bool) returns (m: Media)
    ensures m == MediaLookup(reading, raws, searchRaised)
  {
    var session := SessionMedia(reading);
    if session.Some? {
      return session.value;
    }
    if searchRaised {
      return NoMedia;
    }
    var windows := EnumVisibleWindows(raws);
    m := FindCloudMusic(windows);
  }
}
