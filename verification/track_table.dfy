/** The table `on_playing_song_changed` fills in (cue_plugin.py:46-63): the
    parsed entries with a closing `("NULL", duration)` entry, and one row per
    real track showing the play mark, the title and the track's length. */
module TrackTable {
  import opened Wrappers
  import opened CueSheet
  import opened Hms

  const PlayMark: string := "\U{25B6}"
  const NoMark: string := ""
  const SentinelTitle: string := "NULL"

  /** One row of the list store: mark column, title column, time column. */
  datatype Row = Row(mark: string, title: string, time: string)

  /** `track_data.append(("NULL", duration))` (cue_plugin.py:47-48). */
  function WithSentinel(entries: seq<Entry>, duration: int): (data: seq<Entry>)
    ensures |data| == |entries| + 1
    ensures data[..|entries|] == entries
    ensures data[|entries|] == Entry(SentinelTitle, duration)
  {
    entries + [Entry(SentinelTitle, duration)]
  }

  /** How long entry `i` lasts: up to the start of the next entry. */
  function Duration(data: seq<Entry>, i: int): int
    requires 0 <= i < |data| - 1
  {
    data[i + 1].offset - data[i].offset
  }

  /** The rows built by the loop at cue_plugin.py:52-63: the mark on the
      first row only, each title with its duration in `seconds_to_hms` form. */
  function BuildRows(data: seq<Entry>): (rows: seq<Row>)
    requires |data| >= 1
    ensures |rows| == |data| - 1
    ensures forall i :: 0 <= i < |rows| ==> rows[i].title == data[i].title
    ensures forall i :: 0 <= i < |rows| ==> ParseHms(rows[i].time) == Some(Duration(data, i))
    ensures forall i :: 0 <= i < |rows| ==> (rows[i].mark == PlayMark <==> i == 0)
    ensures forall i :: 0 <= i < |rows| ==> rows[i].mark in {PlayMark, NoMark}
  {
    var rows := seq(|data| - 1, i requires 0 <= i < |data| - 1 =>
      Row(if i == 0 then PlayMark else NoMark, data[i].title, SecondsToHms(Duration(data, i))));
    forall i | 0 <= i < |rows|
      ensures ParseHms(rows[i].time) == Some(Duration(data, i))
    {
      HmsRoundTrip(Duration(data, i));
    }
    rows
  }

  /** The sum of the durations of the first `k` entries. */
  function SumDurations(data: seq<Entry>, k: nat): int
    requires k < |data|
  {
    if k == 0 then 0 else SumDurations(data, k - 1) + Duration(data, k - 1)
  }

  /** The durations telescope: the first `k` tracks together last from the
      start of the first to the start of entry `k`. */
  lemma {:induction false} SumDurationsTelescopes(data: seq<Entry>, k: nat)
    requires k < |data|
    ensures SumDurations(data, k) == data[k].offset - data[0].offset
  {
    if k > 0 {
      SumDurationsTelescopes(data, k - 1);
    }
  }

  /** The seconds the time column reads, summed over the first `k` rows. */
  function ShownSeconds(rows: seq<Row>, k: nat): int
    requires k <= |rows|
  {
    if k == 0 then 0 else ShownSeconds(rows, k - 1) + ParseHms(rows[k - 1].time).GetOr(0)
  }

  /** The lengths the table shows add up to the audio duration minus the
      first track's start: the closing entry makes the last track run to the
      end of the file. */
  lemma {:induction false} ShownLengthsCoverAudio(entries: seq<Entry>, duration: int)
    requires |entries| > 0
    ensures var data := WithSentinel(entries, duration);
      ShownSeconds(BuildRows(data), |entries|) == duration - entries[0].offset
  {
    var data := WithSentinel(entries, duration);
    var rows := BuildRows(data);
    ShownMatchesSum(data, rows, |entries|);
    SumDurationsTelescopes(data, |entries|);
  }

  lemma {:induction false} ShownMatchesSum(data: seq<Entry>, rows: seq<Row>, k: nat)
    requires |rows| == |data| - 1 && k <= |rows|
    requires forall i :: 0 <= i < |rows| ==> ParseHms(rows[i].time) == Some(Duration(data, i))
    ensures ShownSeconds(rows, k) == SumDurations(data, k)
  {
    if k > 0 {
      ShownMatchesSum(data, rows, k - 1);
      assert ParseHms(rows[k - 1].time).GetOr(0) == Duration(data, k - 1);
    }
  }
}
