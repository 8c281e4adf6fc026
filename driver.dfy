// The pipeline driven by main(): preflight, scan, group, select, sort, then
// per date extract and validate, skipping failures, and concatenate whatever
// survived. The external tools enter only through their outcomes.

module Driver {
  import opened Wrappers
  import opened Text
  import opened Dates
  import opened FileName
  import opened Grouping
  import opened ConcatList

  /** clip_{i:04d}_{date:%Y%m%d}.mp4 */
  function ClipName(index: nat, d: Date): (name: string)
    ensures |name| >= 22 && name[..5] == "clip_" && name[|name| - 4..] == ".mp4"
    ensures index < 10000 && Writable(d) ==> |name| == 22
  {
    "clip_" + ZeroPad(index, 4) + "_" + ZeroPad(d.year, 4) + ZeroPad(d.month, 2) + ZeroPad(d.day, 2) + ".mp4"
  }

  /** Reads the index and the date back out of a clip file name. */
  function ReadClipName(name: string): (fields: Option<(nat, Date)>)
  {
    if |name| < 22 || name[..5] != "clip_" || name[|name| - 13] != '_' || name[|name| - 4..] != ".mp4" then None
    else
      var index, stamp := name[5..|name| - 13], name[|name| - 12..|name| - 4];
      if !AllDigits(index) || !AllDigits(stamp) then None
      else Some((Value(index), Date(Value(stamp[..4]), Value(stamp[4..6]), Value(stamp[6..]))))
  }

  /** Where the parts of a clip-layout name sit. */
  predicate ClipLayout(name: string, index: string, stamp: string)
  {
    && |name| == |index| + 18
    && name[..5] == "clip_" && name[|name| - 13] == '_' && name[|name| - 4..] == ".mp4"
    && name[5..|name| - 13] == index && name[|name| - 12..|name| - 4] == stamp
  }

  lemma ClipNameLayout(index: string, stamp: string)
    requires |stamp| == 8
    ensures ClipLayout("clip_" + index + "_" + stamp + ".mp4", index, stamp)
  {
    var head := "clip_" + index + "_";
    var name := head + stamp + ".mp4";
    var n := |index| + 18;
    assert |head| == n - 12 && |name| == n;
    assert name[..5] == head[..5] == "clip_";
    assert name[n - 13] == head[n - 13] == '_';
    assert name[5..n - 13] == head[5..n - 13] == index;
  }

  /** What ReadClipName returns for a name of the clip layout. */
  lemma ReadClipNameSlices(name: string, index: string, stamp: string)
    requires ClipLayout(name, index, stamp)
    requires AllDigits(index) && |index| >= 4 && AllDigits(stamp) && |stamp| == 8
    ensures ReadClipName(name) == Some((Value(index), Date(Value(stamp[..4]), Value(stamp[4..6]), Value(stamp[6..]))))
  {
  }

  /** Reading splits a name of the clip layout back into its index digits
      and its eight date digits. */
  lemma ReadClipNameParts(index: string, stamp: string)
    requires AllDigits(index) && |index| >= 4 && AllDigits(stamp) && |stamp| == 8
    ensures ReadClipName("clip_" + index + "_" + stamp + ".mp4")
      == Some((Value(index), Date(Value(stamp[..4]), Value(stamp[4..6]), Value(stamp[6..]))))
  {
    ClipNameLayout(index, stamp);
    ReadClipNameSlices("clip_" + index + "_" + stamp + ".mp4", index, stamp);
  }

  /** A clip name determines the index and the date it was made from. */
  lemma ReadClipNameInverse(index: nat, d: Date)
    requires IsValid(d)
    ensures ReadClipName(ClipName(index, d)) == Some((index, d))
  {
    Pow10Widths();
    var p, y, m, dd := ZeroPad(index, 4), ZeroPad(d.year, 4), ZeroPad(d.month, 2), ZeroPad(d.day, 2);
    var stamp := y + m + dd;
    assert ClipName(index, d) == "clip_" + p + "_" + stamp + ".mp4";
    assert stamp[..4] == y && stamp[4..6] == m && stamp[6..] == dd;
    ReadClipNameParts(p, stamp);
  }

  /** Distinct (index, date) pairs give distinct clip names. */
  lemma ClipNamesDistinct(i: nat, d: Date, j: nat, e: Date)
    requires IsValid(d) && IsValid(e) && (i, d) != (j, e)
    ensures ClipName(i, d) != ClipName(j, e)
  {
    ReadClipNameInverse(i, d);
    ReadClipNameInverse(j, e);
  }

  /** The date digits of a clip name are exactly those of the file name the
      clip's date was read from. */
  lemma ClipNameCarriesFileDate(file: string, d: Date, index: nat)
    requires ParseDate(file) == Parsed(d)
    ensures var name := ClipName(index, d);
      name[|name| - 12..|name| - 4] == file[0..4] + file[5..7] + file[8..10]
  {
    ParsedNameIsDated(file, d);
    Pow10Widths();
    var y, m, dd := ZeroPad(d.year, 4), ZeroPad(d.month, 2), ZeroPad(d.day, 2);
    var iso := file[..10];
    assert iso == y + "-" + m + "-" + dd;
    assert file[0..4] == iso[0..4] == y;
    assert file[5..7] == iso[5..7] == m;
    assert file[8..10] == iso[8..10] == dd;
    var name := ClipName(index, d);
    assert name == ("clip_" + ZeroPad(index, 4) + "_") + (y + m + dd) + ".mp4";
  }

  /** A clip that extraction and validation both let through: its position
      among the sorted dates and its date. */
  datatype Clip = Clip(index: nat, date: Date)

  /** The clips main() keeps from the first |dates| sorted dates, in order. */
  function Survivors(dates: seq<Date>, extractOk: Date -> bool, validOk: Date -> bool): (clips: seq<Clip>)
    decreases |dates|
  {
    if dates == [] then []
    else
      var i := |dates| - 1;
      Survivors(dates[..i], extractOk, validOk)
        + (if extractOk(dates[i]) && validOk(dates[i]) then [Clip(i, dates[i])] else [])
  }

  function ClipPath(tempDir: string, c: Clip): (path: string)
  {
    tempDir + "/" + ClipName(c.index, c.date)
  }

  function ClipPaths(tempDir: string, clips: seq<Clip>): (paths: seq<string>)
  {
    seq(|clips|, k requires 0 <= k < |clips| => ClipPath(tempDir, clips[k]))
  }

  /** A date's clip survives exactly when both of its steps succeed, and it
      carries the date's position in the sorted list, gaps included. */
  lemma {:induction false} SurvivorsExactly(dates: seq<Date>, extractOk: Date -> bool, validOk: Date -> bool, c: Clip)
    ensures c in Survivors(dates, extractOk, validOk) <==>
      c.index < |dates| && c.date == dates[c.index] && extractOk(c.date) && validOk(c.date)
    decreases |dates|
  {
    if dates != [] {
      var i := |dates| - 1;
      SurvivorsExactly(dates[..i], extractOk, validOk, c);
    }
  }

  /** Survivors keep the order of the dates: indices strictly increase, and so
      do the dates when the dates were sorted without repeats. */
  lemma {:induction false} SurvivorsInOrder(dates: seq<Date>, extractOk: Date -> bool, validOk: Date -> bool)
    ensures var s := Survivors(dates, extractOk, validOk);
      forall a, b :: 0 <= a < b < |s| ==> s[a].index < s[b].index
    ensures var s := Survivors(dates, extractOk, validOk);
      StrictlyAscending(dates) ==> forall a, b :: 0 <= a < b < |s| ==> Before(s[a].date, s[b].date)
    decreases |dates|
  {
    if dates != [] {
      var i := |dates| - 1;
      var s := Survivors(dates, extractOk, validOk);
      var init := Survivors(dates[..i], extractOk, validOk);
      SurvivorsInOrder(dates[..i], extractOk, validOk);
      forall k | 0 <= k < |init| ensures init[k].index < i && init[k].date == dates[init[k].index] {
        SurvivorsExactly(dates[..i], extractOk, validOk, init[k]);
      }
      assert forall k :: 0 <= k < |init| ==> s[k] == init[k];
    }
  }

  /** The clips without those of date d, in order. */
  function WithoutDate(clips: seq<Clip>, d: Date): (kept: seq<Clip>)
    decreases |clips|
  {
    if clips == [] then []
    else
      var last := clips[|clips| - 1];
      WithoutDate(clips[..|clips| - 1], d) + (if last.date == d then [] else [last])
  }

  /** A failure on date d removes d's clip and nothing else: every other
      date's clip keeps its place and its name. */
  lemma {:induction false} FailureDropsOnlyThatDate(
    dates: seq<Date>, extractOk: Date -> bool, validOk: Date -> bool,
    extractOk': Date -> bool, validOk': Date -> bool, d: Date)
    requires forall e :: e != d ==> extractOk'(e) == extractOk(e) && validOk'(e) == validOk(e)
    requires !(extractOk'(d) && validOk'(d))
    ensures Survivors(dates, extractOk', validOk') == WithoutDate(Survivors(dates, extractOk, validOk), d)
    decreases |dates|
  {
    if dates != [] {
      var i := |dates| - 1;
      FailureDropsOnlyThatDate(dates[..i], extractOk, validOk, extractOk', validOk', d);
      var init := Survivors(dates[..i], extractOk, validOk);
      var tail := if extractOk(dates[i]) && validOk(dates[i]) then [Clip(i, dates[i])] else [];
      var both := init + tail;
      if tail != [] {
        assert both[..|both| - 1] == init;
      } else {
        assert both == init;
      }
    }
  }

  /** main's loop over the sorted dates, with extract_clip and validate_clip
      reduced to their outcome for each date. */
  method ExtractAll(dates: seq<Date>, tempDir: string, extractOk: Date -> bool, validOk: Date -> bool)
    returns (clipPaths: seq<string>)
    ensures clipPaths == ClipPaths(tempDir, Survivors(dates, extractOk, validOk))
  {
    clipPaths := [];
    for i := 0 to |dates|
      invariant clipPaths == ClipPaths(tempDir, Survivors(dates[..i], extractOk, validOk))
    {
      var date := dates[i];
      assert dates[..i + 1][..i] == dates[..i];
      var clipPath := tempDir + "/" + ClipName(i, date);
      if extractOk(date) {
        if validOk(date) {
          clipPaths := clipPaths + [clipPath];
        }
      }
    }
    assert dates[..|dates|] == dates;
  }

  lemma ClipPathInjective(tempDir: string, c: Clip, c': Clip)
    requires IsValid(c.date) && IsValid(c'.date) && c != c'
    ensures ClipPath(tempDir, c) != ClipPath(tempDir, c')
  {
    ClipNamesDistinct(c.index, c.date, c'.index, c'.date);
    var prefix := tempDir + "/";
    assert ClipPath(tempDir, c)[|prefix|..] == ClipName(c.index, c.date);
    assert ClipPath(tempDir, c')[|prefix|..] == ClipName(c'.index, c'.date);
  }

  /** Clip paths never repeat: each date is processed once, under its own
      index. */
  lemma ClipPathsDistinct(tempDir: string, dates: seq<Date>, extractOk: Date -> bool, validOk: Date -> bool)
    requires forall d :: d in dates ==> IsValid(d)
    ensures var paths := ClipPaths(tempDir, Survivors(dates, extractOk, validOk));
      forall a, b :: 0 <= a < b < |paths| ==> paths[a] != paths[b]
  {
    var s := Survivors(dates, extractOk, validOk);
    SurvivorsInOrder(dates, extractOk, validOk);
    forall a, b | 0 <= a < b < |s| ensures ClipPath(tempDir, s[a]) != ClipPath(tempDir, s[b]) {
      SurvivorsExactly(dates, extractOk, validOk, s[a]);
      SurvivorsExactly(dates, extractOk, validOk, s[b]);
      ClipPathInjective(tempDir, s[a], s[b]);
    }
  }

  /** A clip name holds no newline, no carriage return and no quote. */
  lemma ClipNameIsPlain(index: nat, d: Date)
    ensures PlainPath(ClipName(index, d))
  {
    var pad, year, month, day := ZeroPad(index, 4), ZeroPad(d.year, 4), ZeroPad(d.month, 2), ZeroPad(d.day, 2);
    DigitsArePlain(pad);
    DigitsArePlain(year);
    DigitsArePlain(month);
    DigitsArePlain(day);
    ClipLiteralsArePlain();
    var name := "clip_";
    PlainJoin(name, pad);
    name := name + pad;
    PlainJoin(name, "_");
    name := name + "_";
    PlainJoin(name, year);
    name := name + year;
    PlainJoin(name, month);
    name := name + month;
    PlainJoin(name, day);
    name := name + day;
    PlainJoin(name, ".mp4");
    name := name + ".mp4";
    assert ClipName(index, d) == name;
  }

  lemma ClipLiteralsArePlain()
    ensures PlainPath("clip_") && PlainPath("_") && PlainPath(".mp4")
  {
    assert "clip_" == ['c', 'l', 'i', 'p', '_'];
    assert ".mp4" == ['.', 'm', 'p', '4'];
  }

  lemma PlainJoin(a: string, b: string)
    requires PlainPath(a) && PlainPath(b)
    ensures PlainPath(a + b)
  {
    forall c | c in a + b ensures c != '\n' && c != '\r' && c != '\'' {
      assert c in a || c in b;
    }
  }

  lemma DigitsArePlain(s: string)
    requires AllDigits(s)
    ensures PlainPath(s)
  {
    forall j | 0 <= j < |s| ensures s[j] != '\n' && s[j] != '\r' && s[j] != '\'' {
      assert IsDigit(s[j]);
    }
  }

  /** The concat list written for the surviving clips reads back as exactly
      those clip paths, provided the temporary directory's path is plain. */
  lemma ManifestListsSurvivors(tempDir: string, clips: seq<Clip>)
    requires PlainPath(tempDir)
    ensures ReadManifest(ManifestText(ClipPaths(tempDir, clips))) == Some(ClipPaths(tempDir, clips))
  {
    var paths := ClipPaths(tempDir, clips);
    forall p | p in paths ensures PlainPath(p) {
      var k :| 0 <= k < |paths| && paths[k] == p;
      ClipNameIsPlain(clips[k].index, clips[k].date);
      var name := ClipName(clips[k].index, clips[k].date);
      assert p == tempDir + "/" + name;
      forall j | 0 <= j < |p| ensures p[j] != '\n' && p[j] != '\r' && p[j] != '\'' {
        if j < |tempDir| {
          assert p[j] == tempDir[j];
        } else if j > |tempDir| {
          assert p[j] == name[j - |tempDir| - 1];
        }
      }
    }
    ReadWrittenManifest(paths);
  }

  /** The earliest date of a non-empty set. */
  method Earliest(s: set<Date>) returns (m: Date)
    requires s != {}
    ensures m in s && forall d :: d in s && d != m ==> Before(m, d)
  {
    m :| m in s;
    var rest := s - {m};
    while rest != {}
      invariant rest <= s && m in s && m !in rest
      invariant forall d :: d in s && d !in rest && d != m ==> Before(m, d)
      decreases rest
    {
      var d :| d in rest;
      if Before(d, m) {
        m := d;
      }
      rest := rest - {d};
    }
  }

  /** sorted(selected_videos.keys()): the dates in ascending order. */
  method SortDates(s: set<Date>) returns (sorted: seq<Date>)
    ensures StrictlyAscending(sorted)
    ensures forall d :: d in sorted <==> d in s
  {
    sorted := [];
    var rest := s;
    while rest != {}
      invariant rest <= s
      invariant forall d :: d in sorted <==> d in s && d !in rest
      invariant StrictlyAscending(sorted)
      invariant forall a, b :: a in sorted && b in rest ==> Before(a, b)
      decreases rest
    {
      var m := Earliest(rest);
      sorted := sorted + [m];
      rest := rest - {m};
    }
  }

  /** A name ending in ".MP4" (or any other casing but ".mp4") is counted
      among the video files found, yet lands in no bucket, so no clip is
      ever cut from it. */
  lemma UpperCaseExtensionFoundButSkipped(entries: seq<string>, name: string)
    requires name in entries
    requires |name| >= 5 && Lower(name[|name| - 4..]) == ".mp4" && name[|name| - 4..] != ".mp4"
    ensures name in Scan(entries)
    ensures forall d :: name !in Bucket(Scan(entries), d)
  {
    UpperCaseExtensionScannedNotParsed(name);
    forall d ensures name !in Bucket(Scan(entries), d) {
      if name in Bucket(Scan(entries), d) {
        BucketMembers(Scan(entries), d, name);
      }
    }
  }

  /** Every name in the corpus layout passes the scan filter. */
  lemma DatedNameIsVideo(d: Date, id: string)
    requires Writable(d) && '\n' !in id
    ensures IsVideoFile(DatedName(d, id))
  {
    var name := DatedName(d, id);
    ParseDatedName(d, id);
    ParsableNamesAreScanned(name);
    assert name[|name| - 1] == '4';
  }

  /** Two recordings on one day and one on another: the first day gets a
      bucket of two in directory order and the second day a bucket of one. */
  lemma TwoDayGrouping(files: seq<string>, d1: Date, d2: Date)
    requires |files| == 3 && d1 != d2
    requires ParseDate(files[0]) == Parsed(d1) && ParseDate(files[1]) == Parsed(d1)
    requires ParseDate(files[2]) == Parsed(d2)
    ensures BucketsOf(files) == map[d1 := files[..2], d2 := [files[2]]]
  {
    var one, two := files[..1], files[..2];
    assert two[..1] == one && one[..0] == [] && files[..3] == files;
    assert Bucket(one, d1) == [files[0]] && Bucket(one, d2) == [];
    assert Bucket(two, d1) == two && Bucket(two, d2) == [];
    assert Bucket(files, d1) == two;
    assert Bucket(files, d2) == [files[2]];
    assert DatesOf(files) == {d1, d2} by {
      assert ParseDate(files[0]).date == d1;
      assert ParseDate(files[2]).date == d2;
    }
  }

  /** When every step succeeds for two dates, the two clips come out in date
      order under indices 0 and 1. */
  lemma TwoDayClips(d1: Date, d2: Date, extractOk: Date -> bool, validOk: Date -> bool)
    requires extractOk(d1) && validOk(d1) && extractOk(d2) && validOk(d2)
    ensures Survivors([d1, d2], extractOk, validOk) == [Clip(0, d1), Clip(1, d2)]
  {
    var ds := [d1, d2];
    assert ds[..1] == [d1] && ds[..1][..0] == [];
    assert Survivors(ds[..1], extractOk, validOk) == [Clip(0, d1)];
  }

  /** What main() learns from the world outside: whether ffmpeg and ffprobe
      start, the temporary directory's path, and how each external step ends. */
  datatype Environment = Environment(
    toolsAvailable: bool,
    tempDir: string,
    extractOk: Date -> bool,
    validOk: Date -> bool,
    concatOk: string -> bool)

  datatype ConcatStep = NotAttempted | Attempted(manifest: string, succeeded: bool)

  /** How a run of main() ends. DateError is the ValueError of
      group_by_date escaping main(). */
  datatype RunOutcome =
    | ToolsMissing
    | NoVideoFiles
    | DateError(name: string)
    | Processed(dates: seq<Date>, sources: seq<string>, clipPaths: seq<string>, concat: ConcatStep)

  /** What a run that gets past grouping reports about the scanned `files`:
      every date that occurs, once and in ascending order, the file chosen
      for it, the surviving clips, and the concat step that follows them. */
  ghost predicate ProcessedFrom(env: Environment, files: seq<string>, outcome: RunOutcome)
  {
    && outcome.Processed?
    && StrictlyAscending(outcome.dates)
    && (forall d :: d in outcome.dates <==> d in DatesOf(files))
    && |outcome.sources| == |outcome.dates|
    && (forall i :: 0 <= i < |outcome.dates| ==>
          outcome.sources[i] in files && ParseDate(outcome.sources[i]) == Parsed(outcome.dates[i]))
    && outcome.clipPaths == ClipPaths(env.tempDir, Survivors(outcome.dates, env.extractOk, env.validOk))
    && (outcome.concat.NotAttempted? <==> outcome.clipPaths == [])
    && (outcome.concat.Attempted? ==>
          && outcome.concat.manifest == ManifestText(outcome.clipPaths)
          && outcome.concat.succeeded == env.concatOk(outcome.concat.manifest))
  }

  /** The part of main() after select_one_per_day: sort the dates, cut and
      check a clip per date, and concatenate only when some clip survived. */
  method ProcessSelection(env: Environment, files: seq<string>, selected: map<Date, string>)
    returns (outcome: RunOutcome)
    requires selected.Keys == DatesOf(files)
    requires forall d :: d in selected ==> selected[d] in files && ParseDate(selected[d]) == Parsed(d)
    ensures ProcessedFrom(env, files, outcome)
    ensures forall i :: 0 <= i < |outcome.dates| ==> outcome.sources[i] == selected[outcome.dates[i]]
  {
    var dates := SortDates(selected.Keys);
    var sources := seq(|dates|, i requires 0 <= i < |dates| => selected[dates[i]]);
    var clipPaths := ExtractAll(dates, env.tempDir, env.extractOk, env.validOk);
    if clipPaths == [] {
      return Processed(dates, sources, clipPaths, NotAttempted);
    }
    var manifest := CreateConcatFile(clipPaths);
    return Processed(dates, sources, clipPaths, Attempted(manifest, env.concatOk(manifest)));
  }

  /** main() over the names of the directory's entries. */
  method Run(env: Environment, entries: seq<string>) returns (outcome: RunOutcome)
    ensures outcome == ToolsMissing <==> !env.toolsAvailable
    ensures outcome == NoVideoFiles <==> env.toolsAvailable && Scan(entries) == []
    ensures outcome.DateError? <==>
      env.toolsAvailable && exists i :: 0 <= i < |Scan(entries)| && ParseDate(Scan(entries)[i]) == RaisesValueError
    ensures outcome.DateError? ==> exists i :: FirstRaising(Scan(entries), i) && outcome.name == Scan(entries)[i]
    ensures outcome.Processed? ==> ProcessedFrom(env, Scan(entries), outcome)
  {
    if !env.toolsAvailable {
      return ToolsMissing;
    }
    var files := Scan(entries);
    if files == [] {
      return NoVideoFiles;
    }
    var grouping := GroupByDate(files);
    if grouping.RaisedValueError? {
      return DateError(grouping.name);
    }
    var selected := SelectOnePerDay(grouping.buckets);
    SelectionOfGrouping(files, selected);
    outcome := ProcessSelection(env, files, selected);
  }
}
