/** `check_and_parse_cue_file` (cue_plugin.py:138-173): find the cue sheet
    next to the audio file, check that it names that file, and pair its
    TRACK/TITLE entries with its INDEX 01 entries.

    The regular-expression scans are taken as already done: a cue file is
    given by the matches of its three patterns, in document order. */
module CueSheet {
  import opened Wrappers
  import opened Decimal
  import opened Paths

  /** A match of `TRACK (\d+) AUDIO\n\s+TITLE "([^"]+)"`. */
  datatype TrackMatch = TrackMatch(number: Digits, title: string)

  /** A match of `INDEX 01 (\d+):(\d+):(\d+)`: minutes, seconds, frames. */
  datatype IndexMatch = IndexMatch(minutes: Digits, seconds: Digits, frames: Digits)

  /** What the three patterns find in one cue file. `files` holds the group
      of every `FILE "(.+)" WAVE` match. */
  datatype CueScan = CueScan(files: seq<string>, tracks: seq<TrackMatch>, indexes: seq<IndexMatch>)

  /** One `(title, offset)` pair of `track_data`. */
  datatype Entry = Entry(title: string, offset: int)

  /** How a parse attempt ends. The plugin gets `None` back for `NoCueFile`
      and `Mismatch`; `NoBasename` is the AttributeError raised when the
      base-name search finds no match. */
  datatype Outcome = NoCueFile | Mismatch | NoBasename | Parsed(entries: seq<Entry>)

  /** Appended to every title (cue_plugin.py:168). */
  const TitleSeparator: string := "\t\t"

  function Min(a: nat, b: nat): nat {
    if a <= b then a else b
  }

  /** The start of an INDEX 01 entry in whole seconds; frames are ignored. */
  function StartSeconds(ix: IndexMatch): nat {
    Value(ix.minutes) * 60 + Value(ix.seconds)
  }

  /** `zip(track_matches, index_matches)` turned into entries: the i-th
      title with the i-th start, as many as the shorter list holds. */
  function Pair(tracks: seq<TrackMatch>, indexes: seq<IndexMatch>): (r: seq<Entry>)
    ensures |r| == Min(|tracks|, |indexes|)
    ensures forall i :: 0 <= i < |r| ==>
      r[i].title == tracks[i].title + TitleSeparator && r[i].offset == StartSeconds(indexes[i])
    decreases |tracks|
  {
    if |tracks| == 0 || |indexes| == 0 then []
    else [Entry(tracks[0].title + TitleSeparator, StartSeconds(indexes[0]))] + Pair(tracks[1..], indexes[1..])
  }

  /** The sheet names the audio file: exactly one FILE line, whose name
      without its last extension is the audio file's base name. */
  predicate NamesAudio(scan: CueScan, uri: string) {
    |scan.files| == 1 && BaseName(Stem(uri)) == Some(DropExtension(scan.files[0]))
  }

  /** `check_and_parse_cue_file(uri)` where `fs` maps each existing cue path
      to what the patterns find in it. */
  function CheckAndParse(uri: string, fs: map<string, CueScan>): (r: Outcome)
    ensures r.NoCueFile? <==> CuePath(uri) !in fs
    ensures r.Parsed? <==> CuePath(uri) in fs && NamesAudio(fs[CuePath(uri)], uri)
    ensures r.NoBasename? <==> CuePath(uri) in fs && |fs[CuePath(uri)].files| == 1 && BaseName(Stem(uri)).None?
    ensures r.Mismatch? ==> CuePath(uri) in fs && (|fs[CuePath(uri)].files| != 1 || BaseName(Stem(uri)).Some?)
    ensures r.Parsed? ==> var scan := fs[CuePath(uri)];
      && |r.entries| == Min(|scan.tracks|, |scan.indexes|)
      && forall i :: 0 <= i < |r.entries| ==>
           r.entries[i] == Entry(scan.tracks[i].title + TitleSeparator, StartSeconds(scan.indexes[i]))
  {
    var stem := Stem(uri);
    var cue := stem + CueSuffix;
    if cue !in fs then NoCueFile
    else
      var scan := fs[cue];
      if |scan.files| != 1 then Mismatch
      else match BaseName(stem)
        case None => NoBasename
        case Some(name) => if DropExtension(scan.files[0]) != name then Mismatch else Parsed(Pair(scan.tracks, scan.indexes))
  }

  /** The INDEX 01 entry a cue writer emits for a start of `offset` seconds:
      minutes unpadded, seconds and frames two digits. */
  function IndexFor(offset: nat): (ix: IndexMatch)
    ensures StartSeconds(ix) == offset
  {
    ValueOfFromNat(offset / 60);
    IndexMatch(FromNat(offset / 60), Pad2(offset % 60), "00")
  }

  /** The scan of a single-file cue sheet listing `titles` starting at `offsets`. */
  function SheetFor(file: string, titles: seq<string>, offsets: seq<nat>): (scan: CueScan)
    requires |titles| == |offsets|
    ensures |scan.tracks| == |scan.indexes| == |titles|
  {
    CueScan([file],
      seq(|titles|, i requires 0 <= i < |titles| => TrackMatch(FromNat(i + 1), titles[i])),
      seq(|offsets|, i requires 0 <= i < |offsets| => IndexFor(offsets[i])))
  }

  /** The audio file `dir + name + "." + ext` has stem `dir + name`, base
      name `name` and cue file `dir + name + ".cue"`, dots in `name` included. */
  lemma AudioNameOfJoin(dir: string, name: string, ext: string)
    requires forall i :: !SchemeAt(dir + name + "." + ext, i)
    requires |name| > 0 && '/' !in name
    requires |dir| == 0 || dir[|dir| - 1] == '/'
    requires '.' !in ext
    ensures CuePath(Scheme + dir + name + "." + ext) == dir + name + CueSuffix
    ensures BaseName(Stem(Scheme + dir + name + "." + ext)) == Some(name)
  {
    CuePathOfJoin(dir, name, ext);
    BaseNameOfJoin(dir, name);
  }

  /** A sheet written for `name.wav` names the audio file `dir + name + "." + ext`. */
  lemma SheetNamesAudio(dir: string, name: string, ext: string, titles: seq<string>, offsets: seq<nat>)
    requires forall i :: !SchemeAt(dir + name + "." + ext, i)
    requires |name| > 0 && '/' !in name
    requires |dir| == 0 || dir[|dir| - 1] == '/'
    requires '.' !in ext
    requires |titles| == |offsets|
    ensures CuePath(Scheme + dir + name + "." + ext) == dir + name + CueSuffix
    ensures NamesAudio(SheetFor(name + ".wav", titles, offsets), Scheme + dir + name + "." + ext)
  {
    AudioNameOfJoin(dir, name, ext);
    DropExtensionOfJoin(name, "wav");
    assert name + "." + "wav" == name + ".wav";
    assert SheetFor(name + ".wav", titles, offsets).files == [name + ".wav"];
  }

  /** The entries `titles` and `offsets` describe. */
  function Entries(titles: seq<string>, offsets: seq<nat>): (es: seq<Entry>)
    requires |titles| == |offsets|
  {
    seq(|titles|, i requires 0 <= i < |titles| => Entry(titles[i] + TitleSeparator, offsets[i]))
  }

  /** Pairing the matches of a written sheet gives back what was written. */
  lemma PairOfSheet(file: string, titles: seq<string>, offsets: seq<nat>)
    requires |titles| == |offsets|
    ensures var scan := SheetFor(file, titles, offsets);
      Pair(scan.tracks, scan.indexes) == Entries(titles, offsets)
  {
    var scan := SheetFor(file, titles, offsets);
    var r := Pair(scan.tracks, scan.indexes);
    var want := Entries(titles, offsets);
    forall i | 0 <= i < |want|
      ensures r[i] == want[i]
    {
      assert scan.tracks[i].title == titles[i];
      assert StartSeconds(scan.indexes[i]) == offsets[i];
    }
  }

  /** Writing a sheet for an audio file and parsing it back recovers every
      title (with its separator) and every start offset, in order. */
  lemma SheetRoundTrip(dir: string, name: string, ext: string, titles: seq<string>, offsets: seq<nat>)
    requires forall i :: !SchemeAt(dir + name + "." + ext, i)
    requires |name| > 0 && '/' !in name
    requires |dir| == 0 || dir[|dir| - 1] == '/'
    requires '.' !in ext
    requires |titles| == |offsets|
    ensures CheckAndParse(Scheme + dir + name + "." + ext,
                          map[dir + name + CueSuffix := SheetFor(name + ".wav", titles, offsets)])
            == Parsed(Entries(titles, offsets))
  {
    SheetNamesAudio(dir, name, ext, titles, offsets);
    PairOfSheet(name + ".wav", titles, offsets);
  }
}
