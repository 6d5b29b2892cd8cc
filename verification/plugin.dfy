/** The plugin's state and its three callbacks as total functions:
    `on_playing_song_changed` (cue_plugin.py:25-92), `on_elapsed_changed`
    (cue_plugin.py:95-106) and `on_tree_row_activated` (cue_plugin.py:109-129).
    The GTK window is reduced to whether it exists and is shown, the list
    store to its rows, and the player commands to the returned seek target. */
module Plugin {
  import opened Wrappers
  import opened CueSheet
  import opened TrackTable
  import opened Cursor
  import Paths
  import Hms

  /** `self.window`: never created (`None`), shown, or destroyed. A destroyed
      window is still a truthy object, so the callbacks treat it as present. */
  datatype Window = Closed | Shown | Destroyed

  /** What the host reports for the playing entry: its playback URI, already
      percent-decoded, and its duration in whole seconds. */
  datatype Song = Song(uri: string, duration: int)

  /** `self.window`, `self.track_data`, `self.liststore` and `self.row`.
      `track_data` being `None` and being `[]` are both the empty sequence:
      every callback treats the two alike. */
  datatype Player = Player(window: Window, trackData: seq<Entry>, rows: seq<Row>, row: int)

  /** The plugin after a row activation and the offset handed to
      `set_playing_time`, if any. */
  datatype Selection = Selection(player: Player, seek: Option<int>)

  /** Right after `do_activate` (cue_plugin.py:16). */
  const Init: Player := Player(Closed, [], [], 0)

  /** A track list is loaded: `track_data` is non-empty. */
  predicate Loaded(p: Player) {
    |p.trackData| > 0
  }

  /** The shape every callback relies on: a loaded table ends with its
      closing entry, has one row per real track with that track's title, and
      `row` names one of those rows; a shown window always has a table. */
  predicate Shape(p: Player) {
    && (p.window == Shown ==> Loaded(p))
    && (Loaded(p) ==>
          && |p.trackData| >= 2
          && |p.rows| == |p.trackData| - 1
          && 0 <= p.row < |p.rows|
          && forall i :: 0 <= i < |p.rows| ==> p.rows[i].title == p.trackData[i].title)
  }

  /** The play mark sits on row `row` and on no other row. */
  predicate OneMark(p: Player) {
    Loaded(p) ==> forall i :: 0 <= i < |p.rows| ==> p.rows[i].mark == (if i == p.row then PlayMark else NoMark)
  }

  predicate Inv(p: Player) {
    Shape(p) && OneMark(p)
  }

  /** Some real track's interval contains `e`. */
  predicate SomeCovers(data: seq<Entry>, e: int) {
    exists i :: 0 <= i < |data| - 1 && Covers(data, i, e)
  }

  /** `self.window.destroy()` when there is a window. */
  function Dismissed(w: Window): Window {
    if w == Closed then Closed else Destroyed
  }

  /** `on_playing_song_changed`: with nothing playing only the window goes;
      with a cue sheet that yields tracks a fresh table replaces the old one
      with the mark on row 0; an AttributeError in the parse leaves
      everything as it was; any other outcome drops the table. */
  function OnSongChanged(p: Player, playing: Option<Song>, fs: map<string, CueScan>): (r: Player)
    ensures Inv(p) ==> Inv(r)
    ensures playing.None? ==>
      r.window == Dismissed(p.window) && r.trackData == p.trackData && r.rows == p.rows && r.row == p.row
    ensures playing.Some? ==> var o := CheckAndParse(playing.value.uri, fs);
      && (o.NoBasename? ==> r == p)
      && (o.Parsed? && |o.entries| > 0 ==>
            && r.window == Shown && r.row == 0
            && r.trackData == WithSentinel(o.entries, playing.value.duration)
            && |r.rows| == |o.entries|
            && (forall i :: 0 <= i < |r.rows| ==> r.rows[i].title == o.entries[i].title)
            && forall i :: 0 <= i < |r.rows| ==> Hms.ParseHms(r.rows[i].time) == Some(Duration(r.trackData, i)))
      && ((o.Parsed? && |o.entries| == 0) || o.NoCueFile? || o.Mismatch? ==>
            r.window == Dismissed(p.window) && !Loaded(r) && r.rows == p.rows && r.row == p.row)
  {
    match playing
    case None => p.(window := Dismissed(p.window))
    case Some(song) =>
      var o := CheckAndParse(song.uri, fs);
      if o.NoBasename? then p
      else if o.Parsed? && |o.entries| > 0 then
        var data := WithSentinel(o.entries, song.duration);
        var rows := BuildRows(data);
        assert forall i :: 0 <= i < |rows| ==> rows[i].mark == (if i == 0 then PlayMark else NoMark);
        Player(Shown, data, rows, 0)
      else p.(window := Dismissed(p.window), trackData := [])
  }

  /** `on_elapsed_changed` exactly as written: when no interval contains `e`
      the loop falls through and `row` becomes the last index it visited,
      while the mark stays where it was. */
  function ElapsedAsWritten(p: Player, e: int): (r: Player)
    requires Shape(p)
    ensures Shape(r)
    ensures r.window == p.window && r.trackData == p.trackData
    ensures !(p.window != Closed && Loaded(p)) ==> r == p
    ensures Loaded(p) && Covers(p.trackData, p.row, e) ==> r == p
    ensures p.window != Closed && Loaded(p) && !Covers(p.trackData, p.row, e) ==>
      if SomeCovers(p.trackData, e) then
        && Covers(r.trackData, r.row, e)
        && (forall j :: 0 <= j < r.row ==> !Covers(p.trackData, j, e))
        && r.rows == MoveMark(p.rows, p.row, r.row)
      else
        r.row == |p.trackData| - 2 && r.rows == p.rows
  {
    if p.window == Closed || !Loaded(p) then p
    else if Covers(p.trackData, p.row, e) then p
    else match FirstCovering(p.trackData, e, 0)
      case Some(i) => p.(rows := MoveMark(p.rows, p.row, i), row := i)
      case None => p.(row := |p.trackData| - 2)
  }

  /** `on_elapsed_changed` with the row assignment inside the matching
      branch: the mark and `row` move together to the first interval that
      contains `e`, and nothing changes when no interval does. */
  function Elapsed(p: Player, e: int): (r: Player)
    requires Inv(p)
    ensures Inv(r)
    ensures r.window == p.window && r.trackData == p.trackData
    ensures r.row == p.row ==> r == p
    ensures r.row != p.row ==> 0 <= p.row < |p.rows| && 0 <= r.row < |p.rows| && r.rows == MoveMark(p.rows, p.row, r.row)
    ensures !(p.window != Closed && Loaded(p)) || !SomeCovers(p.trackData, e) ==> r == p
    ensures Loaded(p) && Covers(p.trackData, p.row, e) ==> r == p
    ensures p.window != Closed && Loaded(p) && SomeCovers(p.trackData, e) ==>
      && Covers(r.trackData, r.row, e)
      && (r.row != p.row ==> forall j :: 0 <= j < r.row ==> !Covers(p.trackData, j, e))
  {
    if p.window == Closed || !Loaded(p) then p
    else if Covers(p.trackData, p.row, e) then p
    else match FirstCovering(p.trackData, e, 0)
      case Some(i) => p.(rows := MoveMark(p.rows, p.row, i), row := i)
      case None => p
  }

  /** The scan of `on_tree_row_activated` for a selected title: the first
      real track with that title gets the mark and becomes `row`, and its
      start is the seek target; an unknown title changes nothing. */
  function SelectTitle(p: Player, title: string): (r: Selection)
    requires Shape(p)
    ensures r.seek.Some? <==> exists i :: 0 <= i < |p.trackData| - 1 && p.trackData[i].title == title
    ensures r.seek.None? ==> r.player == p
    ensures r.seek.Some? ==> var q := r.player;
      && 0 <= q.row < |p.trackData| - 1
      && p.trackData[q.row].title == title
      && (forall j :: 0 <= j < q.row ==> p.trackData[j].title != title)
      && r.seek.value == p.trackData[q.row].offset
      && q == p.(rows := MoveMark(p.rows, p.row, q.row), row := q.row)
    ensures Inv(p) ==> Inv(r.player)
  {
    match FirstTitled(p.trackData, title, 0)
    case None => Selection(p, None)
    case Some(i) =>
      Selection(p.(rows := MoveMark(p.rows, p.row, i), row := i), Some(p.trackData[i].offset))
  }

  /** A double click on row `path` of the shown table selects the title in
      that row's title column. */
  function OnRowActivated(p: Player, path: nat): (r: Selection)
    requires Shape(p) && p.window == Shown && path < |p.rows|
    ensures r.seek.Some? && Shape(r.player)
    ensures Inv(p) ==> Inv(r.player)
    ensures 0 <= r.player.row <= path && |r.player.rows| == |p.rows|
    ensures r.player.rows[r.player.row].title == p.rows[path].title
    ensures forall j :: 0 <= j < r.player.row ==> p.rows[j].title != p.rows[path].title
    ensures r.player == p.(rows := MoveMark(p.rows, p.row, r.player.row), row := r.player.row)
    ensures r.seek.value == p.trackData[r.player.row].offset
  {
    SelectTitle(p, p.rows[path].title)
  }

  /** With distinct titles, activating a row selects exactly that row; with
      repeated titles the first row carrying the title wins. */
  lemma ActivateDistinctTitles(p: Player, path: nat)
    requires Inv(p) && p.window == Shown && path < |p.rows|
    requires forall i, j :: 0 <= i < j < |p.rows| ==> p.rows[i].title != p.rows[j].title
    ensures OnRowActivated(p, path).player.row == path
  {
  }

  /** A new table replaces the old one wholesale: nothing of the previous
      state survives a successful track change. */
  lemma FreshTableForgetsOld(p: Player, q: Player, song: Song, fs: map<string, CueScan>)
    requires CheckAndParse(song.uri, fs).Parsed? && |CheckAndParse(song.uri, fs).entries| > 0
    ensures OnSongChanged(p, Some(song), fs) == OnSongChanged(q, Some(song), fs)
  {
  }

  /** The callbacks the host delivers. A row activation can only come from a
      shown table and names an existing row. */
  datatype Event =
    | SongChanged(playing: Option<Song>, fs: map<string, CueScan>)
    | ElapsedChanged(elapsed: int)
    | RowActivated(path: nat)

  function Step(p: Player, ev: Event): (r: Player)
    requires Inv(p)
    ensures Inv(r)
  {
    match ev
    case SongChanged(playing, fs) => OnSongChanged(p, playing, fs)
    case ElapsedChanged(e) => Elapsed(p, e)
    case RowActivated(path) =>
      if p.window == Shown && path < |p.rows| then OnRowActivated(p, path).player else p
  }

  /** Any run of callbacks keeps exactly one play mark, on `row`. */
  function Run(p: Player, evs: seq<Event>): (r: Player)
    requires Inv(p)
    ensures Inv(r)
    decreases |evs|
  {
    if |evs| == 0 then p else Run(Step(p, evs[0]), evs[1..])
  }

  function StepAsWritten(p: Player, ev: Event): (r: Player)
    requires Shape(p)
    ensures Shape(r)
  {
    match ev
    case SongChanged(playing, fs) => OnSongChanged(p, playing, fs)
    case ElapsedChanged(e) => ElapsedAsWritten(p, e)
    case RowActivated(path) =>
      if p.window == Shown && path < |p.rows| then OnRowActivated(p, path).player else p
  }

  function RunAsWritten(p: Player, evs: seq<Event>): (r: Player)
    requires Shape(p)
    ensures Shape(r)
    decreases |evs|
  {
    if |evs| == 0 then p else RunAsWritten(StepAsWritten(p, evs[0]), evs[1..])
  }

  /** A sample on or inside the current track's interval never moves the
      cursor, so a second identical sample changes nothing. */
  lemma ElapsedIdempotent(p: Player, e: int)
    requires Inv(p)
    ensures Elapsed(Elapsed(p, e), e) == Elapsed(p, e)
  {
  }

  /** On the boundary shared by tracks `i` and `i + 1`, a cursor that has to
      move never lands past `i`: the ascending scan meets the lower track first. */
  lemma BoundaryGoesToLowerTrack(p: Player, i: nat, e: int)
    requires Inv(p) && p.window != Closed && Loaded(p)
    requires i + 2 < |p.trackData| && e == p.trackData[i + 1].offset && p.trackData[i].offset <= e
    requires !Covers(p.trackData, p.row, e)
    ensures Elapsed(p, e).row <= i
  {
    assert Covers(p.trackData, i, e);
  }

  /** Once a track change finds no usable cue sheet, elapsed-time samples do
      nothing until a new table is loaded. */
  lemma NoTableIgnoresElapsed(p: Player, song: Song, fs: map<string, CueScan>, e: int)
    requires Inv(p)
    requires var o := CheckAndParse(song.uri, fs); !o.NoBasename? && !(o.Parsed? && |o.entries| > 0)
    ensures var q := OnSongChanged(p, Some(song), fs); Elapsed(q, e) == q
  {
  }

  /** The event sequence that leaves two play marks when the elapsed handler
      runs as written: a cue sheet for `/m/a.flac` with tracks at 0, 100 and
      200 seconds, a duration reported as 0, then samples at 150, 250 and 50. */
  function DoubleMarkEvents(): seq<Event> {
    [DoubleMarkLoad(), ElapsedChanged(150), ElapsedChanged(250), ElapsedChanged(50)]
  }

  /** The track change that loads the table of `DoubleMarkEvents`. */
  function DoubleMarkLoad(): Event {
    SongChanged(Some(Song("file:///m/a.flac", 0)),
                map["/m/a.cue" := SheetFor("a.wav", ["A", "B", "C"], [0, 100, 200])])
  }

  /** The cue sheet of `DoubleMarkEvents` parses into its three tracks. */
  lemma DoubleMarkSheetParses(titles: seq<string>, offsets: seq<nat>)
    requires |titles| == |offsets|
    ensures CheckAndParse("file:///m/a.flac", map["/m/a.cue" := SheetFor("a.wav", titles, offsets)])
            == Parsed(Entries(titles, offsets))
  {
    Paths.NoColonNoScheme("/m/a.flac");
    assert "/m/a.flac" == "/m/" + "a" + "." + "flac";
    assert "/m/a.cue" == "/m/" + "a" + Paths.CueSuffix;
    assert "a.wav" == "a" + ".wav";
    assert "file:///m/a.flac" == Paths.Scheme + "/m/" + "a" + "." + "flac";
    SheetRoundTrip("/m/", "a", "flac", titles, offsets);
  }

  /** The table the first event of `DoubleMarkEvents` loads. */
  lemma DoubleMarkLoads()
    ensures var p := StepAsWritten(Init, DoubleMarkLoad());
      && p.window == Shown && p.row == 0 && |p.trackData| == 4 && |p.rows| == 3
      && p.trackData[0].offset == 0 && p.trackData[1].offset == 100
      && p.trackData[2].offset == 200 && p.trackData[3].offset == 0
      && p.rows[0].mark == PlayMark && p.rows[1].mark == NoMark && p.rows[2].mark == NoMark
  {
    var titles: seq<string>, offsets: seq<nat> := ["A", "B", "C"], [0, 100, 200];
    var fs := map["/m/a.cue" := SheetFor("a.wav", titles, offsets)];
    var song := Song("file:///m/a.flac", 0);
    assert DoubleMarkLoad() == SongChanged(Some(song), fs);
    DoubleMarkSheetParses(titles, offsets);
    var es := Entries(titles, offsets);
    assert |es| == 3 && es[0].offset == 0 && es[1].offset == 100 && es[2].offset == 200;
    var p := OnSongChanged(Init, Some(song), fs);
    assert p.trackData == WithSentinel(es, 0);
  }

  lemma RunAsWrittenCons(p: Player, ev: Event, evs: seq<Event>)
    requires Shape(p)
    ensures RunAsWritten(p, [ev] + evs) == RunAsWritten(StepAsWritten(p, ev), evs)
  {
    assert ([ev] + evs)[1..] == evs;
  }

  /** The three samples of `DoubleMarkEvents` on the table it loads. */
  lemma DoubleMarkSamples(p1: Player)
    requires Shape(p1) && p1.window == Shown && p1.row == 0 && |p1.trackData| == 4
    requires p1.trackData[0].offset == 0 && p1.trackData[1].offset == 100
    requires p1.trackData[2].offset == 200 && p1.trackData[3].offset == 0
    requires p1.rows[0].mark == PlayMark
    ensures var r := ElapsedAsWritten(ElapsedAsWritten(ElapsedAsWritten(p1, 150), 250), 50);
      |r.rows| == 3 && r.rows[0].mark == PlayMark && r.rows[1].mark == PlayMark && r.row == 0
  {
    var data := p1.trackData;
    assert Covers(data, 1, 150) && !Covers(data, 0, 150);
    var p2 := ElapsedAsWritten(p1, 150);
    assert p2.row == 1 && p2.rows == MoveMark(p1.rows, 0, 1);
    assert !SomeCovers(data, 250) by {
      assert !Covers(data, 0, 250) && !Covers(data, 1, 250) && !Covers(data, 2, 250);
    }
    var p3 := ElapsedAsWritten(p2, 250);
    assert p3.row == 2 && p3.rows == p2.rows;
    assert Covers(data, 0, 50) && !Covers(data, 2, 50);
    var p4 := ElapsedAsWritten(p3, 50);
    assert p4.row == 0 && p4.rows == MoveMark(p3.rows, 2, 0);
  }

  /** As written, the fall-through at 250 s moves `row` to the last track
      without moving the mark; the sample at 50 s then clears that unmarked
      row and marks the first, leaving tracks 1 and 2 both marked. */
  lemma DoubleMarkAsWritten()
    ensures var r := RunAsWritten(Init, DoubleMarkEvents());
      |r.rows| == 3 && r.rows[0].mark == PlayMark && r.rows[1].mark == PlayMark && r.row == 0
  {
    var load := DoubleMarkLoad();
    DoubleMarkLoads();
    var p1 := StepAsWritten(Init, load);
    DoubleMarkSamples(p1);
    var p2 := StepAsWritten(p1, ElapsedChanged(150));
    var p3 := StepAsWritten(p2, ElapsedChanged(250));
    var p4 := StepAsWritten(p3, ElapsedChanged(50));
    RunAsWrittenCons(p3, ElapsedChanged(50), []);
    RunAsWrittenCons(p2, ElapsedChanged(250), [ElapsedChanged(50)]);
    RunAsWrittenCons(p1, ElapsedChanged(150), [ElapsedChanged(250), ElapsedChanged(50)]);
    RunAsWrittenCons(Init, load, [ElapsedChanged(150), ElapsedChanged(250), ElapsedChanged(50)]);
  }

  /** With the corrected handler the same events leave a single mark. */
  lemma DoubleMarkCorrected()
    ensures var r := Run(Init, DoubleMarkEvents());
      forall i :: 0 <= i < |r.rows| ==> (r.rows[i].mark == PlayMark <==> i == r.row)
  {
  }
}
