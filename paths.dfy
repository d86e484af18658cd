/**
 * Path strings as the tool handles them: Python's `str.split("/")` and
 * `"/".join(...)`, the music directory derived from the links file, and
 * the split of the output filename into a directory and a base name.
 */
module Paths {

  const Slash: char := '/'

  /** `s.split("/")`: the pieces between separators; never empty. */
  function Split(s: string): (parts: seq<string>)
    ensures |parts| >= 1
    ensures forall i, j :: 0 <= i < |parts| && 0 <= j < |parts[i]| ==> parts[i][j] != Slash
    ensures |parts| == 1 <==> Slash !in s
    decreases |s|
  {
    if s == [] then [""]
    else
      var rest := Split(s[1..]);
      if s[0] == Slash then
        [""] + rest
      else
        assert s == [s[0]] + s[1..];
        [[s[0]] + rest[0]] + rest[1..]
  }

  /** `"/".join(parts)`; the join of no parts is the empty string. */
  function Join(parts: seq<string>): (s: string)
  {
    if |parts| == 0 then ""
    else if |parts| == 1 then parts[0]
    else parts[0] + [Slash] + Join(parts[1..])
  }

  /** `"/".join(path.split("/")[:-1])`: everything before the last separator. */
  function DirPart(path: string): string
  {
    var parts := Split(path);
    Join(parts[..|parts| - 1])
  }

  /** `path.split("/")[-1]`: everything after the last separator. */
  function BaseName(path: string): string
  {
    var parts := Split(path);
    parts[|parts| - 1]
  }

  /** `getMusicDir` (video-edit.py:8-9). */
  function GetMusicDir(linksPath: string): string
  {
    DirPart(linksPath) + [Slash]
  }

  /** Joining the pieces of a split gives back the original string. */
  lemma {:induction false} JoinSplit(s: string)
    ensures Join(Split(s)) == s
    decreases |s|
  {
    if s != [] {
      JoinSplit(s[1..]);
      var rest := Split(s[1..]);
      if s[0] == Slash {
        assert Split(s) == [""] + rest;
        assert s == [Slash] + s[1..];
      } else {
        assert Split(s) == [[s[0]] + rest[0]] + rest[1..];
        if |rest| == 1 {
        } else {
          assert Join(rest) == rest[0] + [Slash] + Join(rest[1..]);
          assert s == [s[0]] + s[1..];
        }
      }
    }
  }

  /** Joining one more piece appends a separator and that piece. */
  lemma {:induction false} JoinSnoc(parts: seq<string>, last: string)
    requires |parts| >= 1
    ensures Join(parts + [last]) == Join(parts) + [Slash] + last
    decreases |parts|
  {
    if |parts| == 1 {
      assert parts + [last] == [parts[0], last];
    } else {
      assert (parts + [last])[1..] == parts[1..] + [last];
      JoinSnoc(parts[1..], last);
    }
  }

  /** No separator anywhere in `s`. */
  predicate NoSlash(s: string)
  {
    forall i :: 0 <= i < |s| ==> s[i] != Slash
  }

  /**
   * For a filename containing a separator, the directory part, a separator
   * and the base name put back together give the filename
   * (video-edit.py:91 and 94), and the base name holds no separator.
   */
  lemma OutputSplitRoundTrip(filename: string)
    requires Slash in filename
    ensures DirPart(filename) + [Slash] + BaseName(filename) == filename
    ensures NoSlash(BaseName(filename))
  {
    var parts := Split(filename);
    JoinSnoc(parts[..|parts| - 1], parts[|parts| - 1]);
    assert parts[..|parts| - 1] + [parts[|parts| - 1]] == parts;
    JoinSplit(filename);
  }

  /** Without a separator the directory part is empty and the base name is the whole filename. */
  lemma OutputSplitNoSlash(filename: string)
    requires NoSlash(filename)
    ensures DirPart(filename) == ""
    ensures BaseName(filename) == filename
  {
    var parts := Split(filename);
    JoinSplit(filename);
  }

  /**
   * A file directly under the root also has an empty directory part, so
   * only a filename with a separator after its first character names a
   * directory to change into.
   */
  lemma RootFileHasEmptyDirPart(name: string)
    requires NoSlash(name)
    ensures DirPart([Slash] + name) == ""
    ensures BaseName([Slash] + name) == name
  {
    OutputSplitNoSlash(name);
    assert ([Slash] + name)[1..] == name;
  }

  /**
   * The music directory is the prefix of the links path up to and
   * including its last separator, and exactly "/" when the path has none;
   * either way it ends with a separator (video-edit.py:8-9).
   */
  lemma MusicDirIsPrefixThroughLastSlash(linksPath: string)
    ensures var d := GetMusicDir(linksPath);
      && |d| >= 1 && d[|d| - 1] == Slash
      && (Slash in linksPath ==> d <= linksPath && NoSlash(linksPath[|d|..]))
      && (Slash !in linksPath ==> d == [Slash])
  {
    if Slash in linksPath {
      OutputSplitRoundTrip(linksPath);
      var d := GetMusicDir(linksPath);
      assert linksPath == d + BaseName(linksPath);
      assert linksPath[|d|..] == BaseName(linksPath);
    } else {
      OutputSplitNoSlash(linksPath);
    }
  }
}
