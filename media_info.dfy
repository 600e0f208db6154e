/**
 * The agent's media-information helpers (client/Windows/media_info.py): reading the current
 * media session (whose system calls become an input), the album filter, and the two text
 * formats for media.
 */
module MediaInfo {
  import opened Wrappers
  import opened Text

  // ----- get_media_info -----

  /** The session's media properties; a missing or empty field reads as "". */
  datatype MediaProps = MediaProps(title: Option<string>, artist: Option<string>, albumTitle: Option<string>)

  /** What the media session manager gave: no current session, a session with its playback
      flag and properties (possibly none), or an exception. */
  datatype SessionReading =
    | NoSession
    | Session(playing: bool, props: Option<MediaProps>)
    | ReadFailed

  datatype Media = Media(playing: bool, title: string, artist: string, album: string)

  const NoMedia := Media(false, "", "", "")

  /** An album name that is a placeholder: the "unknown album" text, or anything in angle brackets. */
  predicate PlaceholderAlbum(album: string) {
    Contains(album, "未知唱片集") || (Contains(album, "<") && Contains(album, ">"))
  }

  /** The album filter: a placeholder album is cleared, any other is kept. */
  function FilterAlbum(album: string): (r: string)
    ensures r == "" <==> album == "" || PlaceholderAlbum(album)
    ensures r != "" ==> r == album
  {
    if PlaceholderAlbum(album) then "" else album
  }

  /** Filtering twice is filtering once. */
  lemma FilterAlbumIdempotent(album: string)
    ensures FilterAlbum(FilterAlbum(album)) == FilterAlbum(album)
  {
    if PlaceholderAlbum(album) {
      assert !Contains("", "<");
      assert !Contains("", "未知唱片集");
    }
  }

  function FieldOf(field: Option<string>): string {
    field.GetOr("")
  }

  /** `get_media_info`. */
  function GetMediaInfo(reading: SessionReading): (r: Media)
    ensures !reading.Session? ==> r == NoMedia
    ensures reading.Session? && reading.props.None? ==> r == Media(reading.playing, "", "", "")
    ensures reading.Session? && reading.props.Some? ==>
      r == Media(reading.playing, FieldOf(reading.props.value.title), FieldOf(reading.props.value.artist),
                 FilterAlbum(FieldOf(reading.props.value.albumTitle)))
    ensures !PlaceholderAlbum(r.album)
  {
    match reading
    case NoSession => NoMedia
    case ReadFailed => NoMedia
    case Session(playing, props) =>
      match props
      case None =>
        assert !Contains("", "<");
        Media(playing, "", "", FilterAlbum(""))
      case Some(p) =>
        var album := FilterAlbum(FieldOf(p.albumTitle));
        assert !Contains("", "<") && !Contains("", "未知唱片集");
        Media(playing, FieldOf(p.title), FieldOf(p.artist), album)
  }

  // ----- format_prefix_media_info -----

  /** `format_prefix_media_info`. */
  function FormatPrefix(title: string): (r: string)
    ensures |r| == |title| + 3
    ensures r[..2] == "[♪" && r[|r| - 1] == ']'
    ensures r[2..|r| - 1] == title
  {
    if title != "" then "[♪" + title + "]" else "[♪]"
  }

  // ----- format_standalone_media_info -----

  const Dash := " - "
  const PlayingPlaceholder := "♪播放中"

  /** The parts in order. The artist is left out when empty or equal to the title, the album
      when empty or equal to the title or the artist. */
  function StandaloneParts(title: string, artist: string, album: string): (r: seq<string>)
    ensures |r| <= 3
  {
    (if title != "" then ["♪" + title] else [])
    + (if artist != "" && artist != title then [artist] else [])
    + (if album != "" && album != title && album != artist then [album] else [])
  }

  /** `format_standalone_media_info`: the parts joined by " - ", or the placeholder when
      there is nothing to show. */
  function FormatStandalone(title: string, artist: string, album: string): (r: string)
    ensures r != ""
    ensures title == "" && artist == "" && album == "" ==> r == PlayingPlaceholder
    ensures |StandaloneParts(title, artist, album)| > 0 ==> StartsWith(r, StandaloneParts(title, artist, album)[0])
  {
    var parts := StandaloneParts(title, artist, album);
    if |parts| == 0 then PlayingPlaceholder
    else
      JoinNonEmpty(parts, Dash);
      Join(parts, Dash)
  }

  /** Joining non-empty parts gives a non-empty text that starts with the first part. */
  lemma {:induction false} JoinNonEmpty(parts: seq<string>, sep: string)
    requires |parts| > 0 && forall k :: 0 <= k < |parts| ==> parts[k] != ""
    ensures Join(parts, sep) != "" && StartsWith(Join(parts, sep), parts[0])
    decreases |parts|
  {
    if |parts| > 1 {
      JoinNonEmpty(parts[1..], sep);
      assert Join(parts, sep) == parts[0] + sep + Join(parts[1..], sep);
      assert Join(parts, sep)[..|parts[0]|] == parts[0];
    }
  }

  /** A title is shown first, behind the note sign. */
  lemma StandaloneStartsWithTitle(title: string, artist: string, album: string)
    requires title != ""
    ensures StartsWith(FormatStandalone(title, artist, album), "♪" + title)
  {
    var parts := StandaloneParts(title, artist, album);
    assert parts[0] == "♪" + title;
    JoinNonEmpty(parts, Dash);
  }

  /** Which fields appear: the title when non-empty, the artist when non-empty and not the
      title, the album when non-empty and neither the title nor the artist; in that order. */
  lemma StandalonePartsChoice(title: string, artist: string, album: string)
    ensures var parts := StandaloneParts(title, artist, album);
      && (("♪" + title) in parts <== title != "")
      && (artist in parts <== artist != "" && artist != title)
      && (album in parts <== album != "" && album != title && album != artist)
      && (|parts| == (if title != "" then 1 else 0) + (if artist != "" && artist != title then 1 else 0)
                     + (if album != "" && album != title && album != artist then 1 else 0))
      && (title != "" ==> parts[0] == "♪" + title)
      && (artist != "" && artist != title ==> parts[if title != "" then 1 else 0] == artist)
      && (album != "" && album != title && album != artist ==> parts[|parts| - 1] == album)
  {
  }

  /** When no field contains " - " or ends with " -", cutting the text at " - " gives back the
      parts that were shown. */
  lemma StandaloneSplitsBack(title: string, artist: string, album: string)
    requires !Contains("♪" + title, Dash) && !EndsWith("♪" + title, " -")
    requires !Contains(artist, Dash) && !EndsWith(artist, " -")
    requires !Contains(album, Dash) && !EndsWith(album, " -")
    requires title != "" || artist != "" || album != ""
    ensures Split(FormatStandalone(title, artist, album), Dash) == StandaloneParts(title, artist, album)
  {
    var parts := StandaloneParts(title, artist, album);
    assert |parts| > 0;
    forall k | 0 <= k < |parts|
      ensures Clean(parts[k], Dash) && !Contains(parts[k], Dash)
    {
      assert parts[k] == "♪" + title || parts[k] == artist || parts[k] == album;
      DashClean(parts[k]);
    }
    SplitJoin(parts, Dash);
  }
}
