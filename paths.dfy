/**
 * Output naming in DiscordVideoShrink.py: "reencoded_" followed by the
 * basename of the input path. The basename is the part after the last
 * separator, with the separator a parameter ('/' on POSIX).
 */
module Paths {

  /** The prefix `main` puts before the input's basename. */
  const OutputPrefix: string := "reencoded_"

  /**
   * os.path.basename: the longest suffix of `path` free of `sep`. It is a
   * suffix of the path, holds no separator, and is either the whole path or
   * preceded by a separator.
   */
  function Basename(path: string, sep: char): (name: string)
    ensures |name| <= |path| && name == path[|path| - |name|..]
    ensures sep !in name
    ensures |name| < |path| ==> path[|path| - |name| - 1] == sep
    decreases |path|
  {
    if path == [] then []
    else if path[|path| - 1] == sep then []
    else
      var init := path[..|path| - 1];
      var name := Basename(init, sep);
      assert path[|path| - |name| - 1..] == init[|init| - |name|..] + [path[|path| - 1]];
      name + [path[|path| - 1]]
  }

  /** A path with no separator is its own basename. */
  lemma BasenameOfPlainName(name: string, sep: char)
    requires sep !in name
    ensures Basename(name, sep) == name
  {
  }

  /** The basename does not depend on what precedes the last separator. */
  lemma {:induction false} BasenameIgnoresDirectory(dir: string, name: string, sep: char)
    ensures Basename(dir + [sep] + name, sep) == Basename(name, sep)
    decreases |name|
  {
    var path := dir + [sep] + name;
    if name == [] {
      assert path[|path| - 1] == sep;
    } else {
      assert path[|path| - 1] == name[|name| - 1];
      assert path[..|path| - 1] == dir + [sep] + name[..|name| - 1];
      BasenameIgnoresDirectory(dir, name[..|name| - 1], sep);
    }
  }

  /**
   * The output file name `main` derives from the input path: the prefix,
   * then the longest separator-free suffix of the path (the whole path, or
   * what follows its last separator).
   */
  function OutputName(path: string, sep: char): (output: string)
    ensures |OutputPrefix| <= |output| && output[..|OutputPrefix|] == OutputPrefix
    ensures var name := output[|OutputPrefix|..];
            && |name| <= |path| && name == path[|path| - |name|..] && sep !in name
            && (|name| < |path| ==> path[|path| - |name| - 1] == sep)
  {
    OutputPrefix + Basename(path, sep)
  }

  /** Two inputs with the same file name in different directories share an output name. */
  lemma OutputNameIgnoresDirectory(dir1: string, dir2: string, name: string, sep: char)
    ensures OutputName(dir1 + [sep] + name, sep) == OutputName(dir2 + [sep] + name, sep)
            == OutputPrefix + Basename(name, sep)
  {
    BasenameIgnoresDirectory(dir1, name, sep);
    BasenameIgnoresDirectory(dir2, name, sep);
  }

  /** "/tmp/clip.mp4" is written to "reencoded_clip.mp4". */
  lemma ClipExample()
    ensures OutputName("/tmp/clip.mp4", '/') == "reencoded_clip.mp4"
  {
    var name := "clip.mp4";
    assert "/tmp/clip.mp4" == "/tmp" + ['/'] + name;
    BasenameIgnoresDirectory("/tmp", name, '/');
    BasenameOfPlainName(name, '/');
    assert Basename("/tmp/clip.mp4", '/') == name;
    assert OutputPrefix + name == "reencoded_clip.mp4";
  }
}
