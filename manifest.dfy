// create_concat_file: the list of clips handed to ffmpeg's concat demuxer,
// one `file '<path>'` line per clip, with the path written as it is.

module ConcatList {
  import opened Wrappers

  function Line(path: string): (line: string)
  {
    "file '" + path + "'\n"
  }

  /** The whole text of the list file for `paths`, in order. */
  function ManifestText(paths: seq<string>): (text: string)
    ensures |text| >= 8 * |paths|
    ensures paths != [] ==> text[|text| - 1] == '\n'
  {
    if paths == [] then "" else Line(paths[0]) + ManifestText(paths[1..])
  }

  lemma {:induction false} ManifestSnoc(paths: seq<string>, p: string)
    ensures ManifestText(paths + [p]) == ManifestText(paths) + Line(p)
  {
    if paths == [] {
      assert paths + [p] == [p];
    } else {
      assert (paths + [p])[1..] == paths[1..] + [p];
      ManifestSnoc(paths[1..], p);
    }
  }

  /** Writes the list line by line, as the open file receives it. */
  method CreateConcatFile(clipPaths: seq<string>) returns (text: string)
    ensures text == ManifestText(clipPaths)
  {
    text := "";
    for i := 0 to |clipPaths|
      invariant text == ManifestText(clipPaths[..i])
    {
      assert clipPaths[..i + 1] == clipPaths[..i] + [clipPaths[i]];
      ManifestSnoc(clipPaths[..i], clipPaths[i]);
      text := text + "file '" + clipPaths[i] + "'\n";
    }
    assert clipPaths[..|clipPaths|] == clipPaths;
  }

  /** Index of the first newline in s, or |s| when there is none. */
  function FirstNewline(s: string): (k: nat)
    ensures k <= |s|
    ensures k < |s| ==> s[k] == '\n'
    ensures forall j :: 0 <= j < k ==> s[j] != '\n'
  {
    if s == [] then 0 else if s[0] == '\n' then 0 else 1 + FirstNewline(s[1..])
  }

  /** A path the list carries as it is: the demuxer ends a line at a
      newline and also at a lone carriage return, and a quote would end the
      quoted path early. */
  predicate PlainPath(p: string)
  {
    '\n' !in p && '\r' !in p && '\'' !in p
  }

  /** Reads a list back the way the concat demuxer recovers a path that
      needs no escaping: every line must be `file '`, a path and a closing
      quote, and the path is what stands between the quotes. A path that is
      not plain would split its line or end its quoted part early, so such
      a line is refused. The program itself never reads the list; this
      reader is the partner that says what the written text means. */
  function ReadManifest(text: string): (paths: Option<seq<string>>)
    decreases |text|
  {
    if text == [] then Some([])
    else
      var k := FirstNewline(text);
      if k == |text| then None
      else
        var line := text[..k];
        if |line| < 7 || line[..6] != "file '" || line[k - 1] != '\'' || !PlainPath(line[6..k - 1]) then None
        else
          match ReadManifest(text[k + 1..])
          case None => None
          case Some(rest) => Some([line[6..k - 1]] + rest)
  }

  /** The list names every clip, once, in the given order: reading it back
      gives the paths it was written from, as long as every path is plain. */
  lemma {:induction false} ReadWrittenManifest(paths: seq<string>)
    requires forall p :: p in paths ==> PlainPath(p)
    ensures ReadManifest(ManifestText(paths)) == Some(paths)
  {
    if paths != [] {
      var p := paths[0];
      var line, rest := Line(p), ManifestText(paths[1..]);
      var text := line + rest;
      assert text == ManifestText(paths);
      var k := |line| - 1;
      assert text[k] == '\n';
      assert PlainPath(p) by { assert p in paths; }
      forall j | 0 <= j < k ensures text[j] != '\n' {
        assert text[j] == line[j];
        if j < 6 {
          assert line[j] == "file '"[j];
        } else if j < k - 1 {
          assert line[j] == p[j - 6];
        }
      }
      assert FirstNewline(text) == k;
      assert text[..k] == "file '" + p + "'";
      assert text[k + 1..] == rest;
      ReadWrittenManifest(paths[1..]);
      assert [p] + paths[1..] == paths;
    }
  }

  /** With no escaping, a path that holds a newline splits its line: the
      list no longer reads back as the paths it was written from, whatever
      follows it. */
  lemma NewlineInPathBreaksManifest(p: string, rest: seq<string>)
    requires '\n' in p
    ensures ReadManifest(ManifestText([p] + rest)) != Some([p] + rest)
  {
    var text := Line(p) + ManifestText(rest);
    assert ([p] + rest)[1..] == rest;
    assert text == ManifestText([p] + rest);
    var n :| 0 <= n < |p| && p[n] == '\n';
    assert text[6 + n] == '\n';
    var k := FirstNewline(text);
    assert k <= 6 + n;
    var r := ReadManifest(text);
    if r.Some? {
      assert r.value[0] == text[..k][6..k - 1];
      assert |r.value[0]| < |p|;
    }
  }

  /** Quotes and carriage returns in a path are written as they are,
      unescaped, so a list whose first path holds one does not read back,
      whatever follows it. */
  lemma QuoteOrCarriageReturnBreaksManifest(p: string, rest: seq<string>)
    requires '\n' !in p && ('\'' in p || '\r' in p)
    ensures ReadManifest(ManifestText([p] + rest)) == None
  {
    var line := Line(p);
    var text := line + ManifestText(rest);
    assert ([p] + rest)[1..] == rest;
    assert text == ManifestText([p] + rest);
    var k := |line| - 1;
    assert text[k] == '\n';
    forall j | 0 <= j < k ensures text[j] != '\n' {
      assert text[j] == line[j];
      if j < 6 {
        assert line[j] == "file '"[j];
      } else if j < k - 1 {
        assert line[j] == p[j - 6];
      }
    }
    assert FirstNewline(text) == k;
    assert text[..k] == "file '" + p + "'";
    assert text[..k][6..k - 1] == p;
  }
}
