/**
 * Selection and ordering of the input files (`importMusic` and
 * `importVideos`). The directory listing and the modification times are
 * inputs: `listing` stands for `os.listdir(dir)`, and `mtime` maps each full
 * path to what `os.path.getmtime` reports for it.
 */
module Importer {
  import opened Wrappers
  import opened Ordering

  const MusicSuffix: string := "mp3"
  const VideoSuffix: string := "mp4"

  /** `s.endswith(suffix)`: case-sensitive, and no dot is implied. */
  predicate EndsWith(s: string, suffix: string)
  {
    |suffix| <= |s| && s[|s| - |suffix|..] == suffix
  }

  /**
   * `[dir + s for s in listing if s.endswith(suffix)]`: every result is the
   * directory followed by an entry of the listing that has the suffix.
   */
  function Select(dir: string, suffix: string, listing: seq<string>): (r: seq<string>)
    ensures |r| <= |listing|
    ensures forall i :: 0 <= i < |r| ==>
      |dir| <= |r[i]| && r[i][..|dir|] == dir && r[i][|dir|..] in listing && EndsWith(r[i][|dir|..], suffix)
  {
    if listing == [] then []
    else
      var s := listing[0];
      var rest := Select(dir, suffix, listing[1..]);
      assert (dir + s)[..|dir|] == dir && (dir + s)[|dir|..] == s;
      (if EndsWith(s, suffix) then [dir + s] else []) + rest
  }

  /** The music files of a directory listing, in listing order (video-edit.py:34). */
  function MusicPaths(musicDir: string, listing: seq<string>): seq<string>
  {
    Select(musicDir, MusicSuffix, listing)
  }

  /** The video files of a directory listing, before sorting (video-edit.py:57). */
  function VideoPaths(videoDir: string, listing: seq<string>): seq<string>
  {
    Select(videoDir, VideoSuffix, listing)
  }

  /** Selection works entry by entry, so it keeps listing order. */
  lemma {:induction false} SelectAppend(dir: string, suffix: string, l1: seq<string>, l2: seq<string>)
    ensures Select(dir, suffix, l1 + l2) == Select(dir, suffix, l1) + Select(dir, suffix, l2)
    decreases |l1|
  {
    if l1 != [] {
      var head := if EndsWith(l1[0], suffix) then [dir + l1[0]] else [];
      assert (l1 + l2)[0] == l1[0] && (l1 + l2)[1..] == l1[1..] + l2;
      SelectAppend(dir, suffix, l1[1..], l2);
      calc {
        Select(dir, suffix, l1 + l2);
        head + Select(dir, suffix, l1[1..] + l2);
        head + (Select(dir, suffix, l1[1..]) + Select(dir, suffix, l2));
        (head + Select(dir, suffix, l1[1..])) + Select(dir, suffix, l2);
        Select(dir, suffix, l1) + Select(dir, suffix, l2);
      }
    } else {
      assert l1 + l2 == l2;
    }
  }

  /** The path for an entry is selected exactly when the entry is listed and has the suffix. */
  lemma {:induction false} SelectKeepsExactly(dir: string, suffix: string, listing: seq<string>, s: string)
    ensures dir + s in Select(dir, suffix, listing) <==> s in listing && EndsWith(s, suffix)
    decreases |listing|
  {
    if listing != [] {
      SelectKeepsExactly(dir, suffix, listing[1..], s);
      assert listing == [listing[0]] + listing[1..];
      var t := listing[0];
      if dir + s == dir + t {
        assert s == (dir + s)[|dir|..] == (dir + t)[|dir|..] == t;
      }
    }
  }

  /** The suffix match is case-sensitive and needs no dot. */
  lemma MusicSuffixExamples(musicDir: string)
    ensures MusicPaths(musicDir, ["foomp3", "x.MP3", "song.mp3"]) == [musicDir + "foomp3", musicDir + "song.mp3"]
  {
    var l := ["foomp3", "x.MP3", "song.mp3"];
    assert EndsWith("foomp3", MusicSuffix);
    assert !EndsWith("x.MP3", MusicSuffix) by {
      assert "x.MP3"[2..][0] == 'M';
    }
    assert EndsWith("song.mp3", MusicSuffix);
    assert l[1..] == ["x.MP3", "song.mp3"] && l[1..][1..] == ["song.mp3"] && l[1..][1..][1..] == [];
    assert Select(musicDir, MusicSuffix, ["song.mp3"]) == [musicDir + "song.mp3"];
    assert Select(musicDir, MusicSuffix, ["x.MP3", "song.mp3"]) == [musicDir + "song.mp3"];
  }

  /** `order == "name"` sorts by path; every other value sorts by modification time. */
  function KeyFor(order: string, mtime: map<string, real>): (k: SortKey)
    ensures k.ByName? <==> order == "name"
    ensures k.ByTime? ==> k.mtime == mtime
  {
    if order == "name" then ByName else ByTime(mtime)
  }

  /** The first path, in order, that has no modification time. */
  function FirstUnknown(paths: seq<string>, mtime: map<string, real>): (r: Option<string>)
    ensures r.None? <==> forall i :: 0 <= i < |paths| ==> paths[i] in mtime
    ensures r.Some? ==>
      r.value !in mtime && exists i :: 0 <= i < |paths| && paths[i] == r.value && forall j :: 0 <= j < i ==> paths[j] in mtime
  {
    if paths == [] then None
    else if paths[0] !in mtime then Some(paths[0])
    else
      var r := FirstUnknown(paths[1..], mtime);
      if r.Some? then
        ghost var i :| 0 <= i < |paths[1..]| && paths[1..][i] == r.value && forall j :: 0 <= j < i ==> paths[1..][j] in mtime;
        assert paths[i + 1] == r.value;
        r
      else r
  }

  /**
   * `importVideos` up to the decoding: the video paths of the listing,
   * sorted by name or, stably, by modification time. Sorting by time reads
   * every path's time first, so a path without one fails the whole import,
   * naming the first such path.
   */
  method ImportVideoPaths(videoDir: string, listing: seq<string>, order: string, mtime: map<string, real>)
    returns (r: Result<seq<string>, string>)
    ensures var paths := VideoPaths(videoDir, listing);
      && (r.Failure? <==> order != "name" && exists i :: 0 <= i < |paths| && paths[i] !in mtime)
      && (r.Failure? ==> FirstUnknown(paths, mtime) == Some(r.error))
    ensures var paths, k := VideoPaths(videoDir, listing), KeyFor(order, mtime);
      r.Success? ==>
        && r.value == Sort(k, paths)
        && Sorted(k, r.value)
        && multiset(r.value) == multiset(paths)
        && forall y :: Known(k, y) ==> Class(k, r.value, y) == Class(k, paths, y)
  {
    var paths := VideoPaths(videoDir, listing);
    var k := KeyFor(order, mtime);
    if order != "name" {
      var missing := FirstUnknown(paths, mtime);
      if missing.Some? {
        return Failure(missing.value);
      }
    }
    var a := new string[|paths|](i => if 0 <= i < |paths| then paths[i] else "");
    assert a[..] == paths;
    SortInPlace(a, k);
    SortCorrect(k, paths);
    r := Success(a[..]);
  }

  /** Sorting by name: paths `c.mp4`, `a.mp4`, `b.mp4` come out as `a`, `b`, `c`. */
  lemma NameOrderExample()
    ensures Sort(ByName, ["c.mp4", "a.mp4", "b.mp4"]) == ["a.mp4", "b.mp4", "c.mp4"]
  {
    var l := ["c.mp4", "a.mp4", "b.mp4"];
    assert l[..2] == ["c.mp4", "a.mp4"] && l[..2][..1] == ["c.mp4"];
    assert Sort(ByName, ["c.mp4"]) == ["c.mp4"];
    assert Sort(ByName, l[..2]) == ["a.mp4", "c.mp4"];
    assert Insert(ByName, "b.mp4", ["a.mp4"]) == ["a.mp4", "b.mp4"];
    assert Insert(ByName, "b.mp4", ["a.mp4", "c.mp4"]) == ["a.mp4", "b.mp4", "c.mp4"];
  }

  /** Sorting by time with `t(c) < t(a) < t(b)` gives `c`, `a`, `b`. */
  lemma TimeOrderExample()
    ensures var m := map["a.mp4" := 2.0, "b.mp4" := 3.0, "c.mp4" := 1.0];
      Sort(ByTime(m), ["a.mp4", "b.mp4", "c.mp4"]) == ["c.mp4", "a.mp4", "b.mp4"]
  {
    var k := ByTime(map["a.mp4" := 2.0, "b.mp4" := 3.0, "c.mp4" := 1.0]);
    var l := ["a.mp4", "b.mp4", "c.mp4"];
    assert l[..2] == ["a.mp4", "b.mp4"] && l[..2][..1] == ["a.mp4"];
    assert Sort(k, ["a.mp4"]) == ["a.mp4"];
    assert Sort(k, l[..2]) == ["a.mp4", "b.mp4"];
    assert Insert(k, "c.mp4", ["a.mp4"]) == ["c.mp4", "a.mp4"];
    assert Insert(k, "c.mp4", ["a.mp4", "b.mp4"]) == ["c.mp4", "a.mp4", "b.mp4"];
  }
}
