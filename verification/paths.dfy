/** The path arithmetic `check_and_parse_cue_file` performs before it opens
    anything (cue_plugin.py:140-144 and 152): stripping the URI scheme,
    dropping the last extension with `rsplit('.', 1)[0]`, taking the base
    name with the pattern `[^/]+$`, and forming the cue-sheet path. */
module Paths {
  import opened Wrappers

  const Scheme: string := "file://"
  const CueSuffix: string := ".cue"

  /** An occurrence of the URI scheme starts at position `i` of `s`. */
  predicate SchemeAt(s: string, i: int) {
    0 <= i && i + |Scheme| <= |s| && s[i..i + |Scheme|] == Scheme
  }

  /** `s.replace("file://", "")`: every occurrence found scanning left to
      right is removed; the text left behind is not scanned again. */
  function DropScheme(s: string): (r: string)
    ensures |r| <= |s|
    decreases |s|
  {
    if SchemeAt(s, 0) then DropScheme(s[|Scheme|..])
    else if |s| == 0 then s
    else [s[0]] + DropScheme(s[1..])
  }

  /** Index of the last `c` among the first `n` characters of `s`, or -1. */
  function LastIndexBelow(s: string, c: char, n: nat): (k: int)
    requires n <= |s|
    ensures -1 <= k < n
    ensures k >= 0 ==> s[k] == c
    ensures forall j :: k < j < n ==> s[j] != c
    decreases n
  {
    if n == 0 then -1
    else if s[n - 1] == c then n - 1
    else LastIndexBelow(s, c, n - 1)
  }

  /** Index of the last `c` in `s`, or -1 when there is none. */
  function LastIndex(s: string, c: char): (k: int)
    ensures -1 <= k < |s|
    ensures k >= 0 ==> s[k] == c
    ensures forall j :: k < j < |s| ==> s[j] != c
  {
    LastIndexBelow(s, c, |s|)
  }

  /** `s.rsplit('.', 1)[0]`: everything before the last dot, or all of `s`
      when it has no dot. */
  function DropExtension(s: string): (r: string)
    ensures '.' !in s ==> r == s
    ensures '.' in s ==> |r| < |s| && r == s[..|r|] && s[|r|] == '.'
    ensures forall j :: |r| < j < |s| ==> s[j] != '.'
  {
    var k := LastIndex(s, '.');
    if k < 0 then s else s[..k]
  }

  /** `re.search(r'([^/]+)$', s)`: the longest non-empty suffix free of
      slashes, or no match when `s` is empty or ends with a slash. */
  function BaseName(s: string): (r: Option<string>)
    ensures r.None? <==> |s| == 0 || s[|s| - 1] == '/'
    ensures r.Some? ==> var b := r.value;
      && 0 < |b| <= |s| && b == s[|s| - |b|..] && '/' !in b
      && (|b| == |s| || s[|s| - |b| - 1] == '/')
  {
    if |s| == 0 || s[|s| - 1] == '/' then None
    else Some(s[LastIndex(s, '/') + 1..])
  }

  /** The audio path without its extension (cue_plugin.py:140-143). */
  function Stem(uri: string): string {
    DropExtension(DropScheme(uri))
  }

  /** The cue-sheet path checked for existence (cue_plugin.py:140-144). */
  function CuePath(uri: string): (r: string)
    ensures var p := DropScheme(uri);
      && ('.' !in p ==> r == p + CueSuffix)
      && ('.' in p ==> exists k :: 0 <= k < |p| && p[k] == '.' && r == p[..k] + CueSuffix
                                    && forall j :: k < j < |p| ==> p[j] != '.')
  {
    var p := DropScheme(uri);
    var k := LastIndex(p, '.');
    assert k >= 0 ==> DropExtension(p) == p[..k];
    DropExtension(p) + CueSuffix
  }

  /** A path with no occurrence of the scheme is left alone by `DropScheme`. */
  lemma {:induction false} DropSchemeNoScheme(s: string)
    requires forall i :: !SchemeAt(s, i)
    ensures DropScheme(s) == s
    decreases |s|
  {
    if |s| > 0 {
      assert !SchemeAt(s, 0);
      forall i | true
        ensures !SchemeAt(s[1..], i)
      {
        if SchemeAt(s[1..], i) {
          assert s[1..][i..i + |Scheme|] == s[i + 1..i + 1 + |Scheme|];
          assert SchemeAt(s, i + 1);
        }
      }
      DropSchemeNoScheme(s[1..]);
    }
  }

  /** A `file://` URI whose path contains no further `file://` is turned
      back into exactly that path. */
  lemma UriToPath(p: string)
    requires forall i :: !SchemeAt(p, i)
    ensures DropScheme(Scheme + p) == p
  {
    var s := Scheme + p;
    assert SchemeAt(s, 0);
    assert s[|Scheme|..] == p;
    DropSchemeNoScheme(p);
  }

  /** Dropping the extension after a dot undoes appending it. */
  lemma DropExtensionOfJoin(stem: string, ext: string)
    requires '.' !in ext
    ensures DropExtension(stem + "." + ext) == stem
  {
    var s := stem + "." + ext;
    assert s[|stem|] == '.';
    assert forall j :: |stem| < j < |s| ==> s[j] == ext[j - |stem| - 1];
  }

  /** The base name of `dir + name` is `name` when `dir` is empty or ends
      with a slash and `name` is non-empty and slash-free. */
  lemma BaseNameOfJoin(dir: string, name: string)
    requires |name| > 0 && '/' !in name
    requires |dir| == 0 || dir[|dir| - 1] == '/'
    ensures BaseName(dir + name) == Some(name)
  {
    var s := dir + name;
    assert s[|s| - 1] == name[|name| - 1];
    assert forall j :: |dir| <= j < |s| ==> s[j] == name[j - |dir|];
    assert s[|s| - |name|..] == name;
  }

  /** The cue sheet of `dir + name + "." + ext` is `dir + name + ".cue"`. */
  lemma CuePathOfJoin(dir: string, name: string, ext: string)
    requires forall i :: !SchemeAt(dir + name + "." + ext, i)
    requires '.' !in ext
    ensures Stem(Scheme + dir + name + "." + ext) == dir + name
    ensures CuePath(Scheme + dir + name + "." + ext) == dir + name + CueSuffix
  {
    var p := dir + name + "." + ext;
    assert Scheme + dir + name + "." + ext == Scheme + p;
    UriToPath(p);
    DropExtensionOfJoin(dir + name, ext);
  }

  /** A path without a colon contains no `file://`. */
  lemma NoColonNoScheme(s: string)
    requires ':' !in s
    ensures forall i :: !SchemeAt(s, i)
  {
    forall i
      ensures !SchemeAt(s, i)
    {
      if 0 <= i && i + |Scheme| <= |s| {
        assert s[i..i + |Scheme|][4] == s[i + 4] != ':';
      }
    }
  }
}
