/** The scans the elapsed-time and row-activation handlers run over
    `track_data` (cue_plugin.py:99-105 and 114-117), and the move of the play
    mark from one row to another. */
module Cursor {
  import opened Wrappers
  import opened CueSheet
  import opened TrackTable

  /** Entry `i` is playing at `e`: `e` lies in its interval, both ends
      included, so a shared boundary belongs to both neighbours. */
  predicate Covers(data: seq<Entry>, i: int, e: int)
    requires 0 <= i < |data| - 1
  {
    data[i].offset <= e <= data[i + 1].offset
  }

  /** The first entry at or after `from` (and before the closing entry)
      whose interval contains `e`. */
  function FirstCovering(data: seq<Entry>, e: int, from: nat): (r: Option<nat>)
    ensures r.Some? ==> from <= r.value < |data| - 1 && Covers(data, r.value, e)
    ensures r.Some? ==> forall j :: from <= j < r.value ==> !Covers(data, j, e)
    ensures r.None? ==> forall j :: from <= j < |data| - 1 ==> !Covers(data, j, e)
    decreases |data| - from
  {
    if from + 1 >= |data| then None
    else if Covers(data, from, e) then Some(from)
    else FirstCovering(data, e, from + 1)
  }

  /** The `for i in range(0, len(track_data) - 1)` loop of
      `on_elapsed_changed` as written: it stops at the first covering entry,
      and when there is none Python leaves `i` at the last index it visited. */
  method ScanElapsed(data: seq<Entry>, e: int) returns (i: int, found: bool)
    requires |data| >= 2
    ensures found ==> FirstCovering(data, e, 0) == Some(i)
    ensures !found ==> FirstCovering(data, e, 0) == None && i == |data| - 2
  {
    i := 0;
    found := false;
    var k := 0;
    while k < |data| - 1
      invariant 0 <= k <= |data| - 1
      invariant k > 0 ==> i == k - 1
      invariant forall j :: 0 <= j < k ==> !Covers(data, j, e)
    {
      i := k;
      if Covers(data, k, e) {
        found := true;
        return;
      }
      k := k + 1;
    }
  }

  /** The first entry at or after `from` (and before the closing entry)
      titled `title`. */
  function FirstTitled(data: seq<Entry>, title: string, from: nat): (r: Option<nat>)
    ensures r.Some? ==> from <= r.value < |data| - 1 && data[r.value].title == title
    ensures r.Some? ==> forall j :: from <= j < r.value ==> data[j].title != title
    ensures r.None? ==> forall j :: from <= j < |data| - 1 ==> data[j].title != title
    decreases |data| - from
  {
    if from + 1 >= |data| then None
    else if data[from].title == title then Some(from)
    else FirstTitled(data, title, from + 1)
  }

  /** `liststore[src][0] = ""` then `liststore[dst][0] = "▶"`: every other
      row keeps its cells, and a row's title and time never change. */
  function MoveMark(rows: seq<Row>, src: nat, dst: nat): (r: seq<Row>)
    requires src < |rows| && dst < |rows|
    ensures |r| == |rows|
    ensures r[dst].mark == PlayMark
    ensures src != dst ==> r[src].mark == NoMark
    ensures forall j :: 0 <= j < |rows| && j != src && j != dst ==> r[j] == rows[j]
    ensures forall j :: 0 <= j < |rows| ==> r[j].title == rows[j].title && r[j].time == rows[j].time
  {
    var cleared := rows[src := rows[src].(mark := NoMark)];
    cleared[dst := cleared[dst].(mark := PlayMark)]
  }
}
