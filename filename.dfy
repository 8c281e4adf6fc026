// The two checks the program applies to a directory entry's name:
// parse_date_from_filename (a regular expression, then strptime) and the
// extension filter of get_video_files (pathlib's suffix, lower-cased).

module FileName {
  import opened Text
  import opened Dates

  /** What parse_date_from_filename does with a name: returns None, returns a
      datetime, or lets strptime's ValueError escape. */
  datatype ParseOutcome = NoMatch | Parsed(date: Date) | RaisesValueError

  /** `(\d{4}-\d{2}-\d{2})_`, anchored at the start as re.match anchors it. */
  predicate HasDatePrefix(name: string)
  {
    && |name| >= 11
    && AllDigits(name[0..4]) && name[4] == '-'
    && AllDigits(name[5..7]) && name[7] == '-'
    && AllDigits(name[8..10]) && name[10] == '_'
  }

  /** `.*\.mp4$` after the underscore at index 10: `.` matches anything but a
      newline, and `$` matches at the end or just before a final newline. */
  predicate HasVideoTail(name: string)
  {
    || (|name| >= 15 && name[|name| - 4..] == ".mp4" && '\n' !in name[11..|name| - 4])
    || (|name| >= 16 && name[|name| - 5..] == ".mp4\n" && '\n' !in name[11..|name| - 5])
  }

  /** re.match(r'(\d{4}-\d{2}-\d{2})_.*\.mp4$', name) succeeds. */
  predicate MatchesPattern(name: string)
  {
    HasDatePrefix(name) && HasVideoTail(name)
  }

  /** The year, month and day that strptime(group(1), '%Y-%m-%d') reads. */
  function EmbeddedDate(name: string): (d: Date)
    requires HasDatePrefix(name)
  {
    Date(Value(name[0..4]), Value(name[5..7]), Value(name[8..10]))
  }

  /** parse_date_from_filename: None unless the pattern matches; otherwise
      the date its first ten characters spell, or strptime's ValueError when
      they spell no valid date. */
  function ParseDate(name: string): (r: ParseOutcome)
    ensures r == NoMatch <==> !MatchesPattern(name)
    ensures r.Parsed? ==> IsValid(r.date)
  {
    if !MatchesPattern(name) then NoMatch
    else if IsValid(EmbeddedDate(name)) then Parsed(EmbeddedDate(name))
    else RaisesValueError
  }

  /** The fields fit the widths of YYYY-MM-DD. */
  predicate Writable(d: Date)
  {
    d.year < 10000 && d.month < 100 && d.day < 100
  }

  /** YYYY-MM-DD, the extended complete calendar date of ISO 8601. */
  function IsoDate(d: Date): (s: string)
    requires Writable(d)
    ensures |s| == 10 && s[4] == '-' && s[7] == '-'
  {
    Pow10Widths();
    ZeroPad(d.year, 4) + "-" + ZeroPad(d.month, 2) + "-" + ZeroPad(d.day, 2)
  }

  /** A name in the corpus layout, YYYY-MM-DD_<id>.mp4, for any fields
      that fit, whether or not they form a date. */
  function DatedName(d: Date, id: string): (name: string)
    requires Writable(d)
  {
    IsoDate(d) + "_" + id + ".mp4"
  }

  /** Any name in the corpus layout matches the pattern; it yields exactly
      its date when the fields form one, and raises ValueError otherwise. */
  lemma ParseDatedName(d: Date, id: string)
    requires Writable(d) && '\n' !in id
    ensures ParseDate(DatedName(d, id)) == if IsValid(d) then Parsed(d) else RaisesValueError
  {
    var name := DatedName(d, id);
    Pow10Widths();
    var y, m, dd := ZeroPad(d.year, 4), ZeroPad(d.month, 2), ZeroPad(d.day, 2);
    assert name == y + "-" + m + "-" + dd + "_" + id + ".mp4";
    assert name[0..4] == y && name[5..7] == m && name[8..10] == dd;
    assert name[|name| - 4..] == ".mp4";
    assert name[11..|name| - 4] == id;
    assert MatchesPattern(name);
    assert EmbeddedDate(name) == d;
  }

  /** The first ten characters of a name with the date prefix are the ISO
      text of the date they spell. */
  lemma DatePrefixIsIso(name: string)
    requires HasDatePrefix(name)
    ensures Writable(EmbeddedDate(name)) && name[..10] == IsoDate(EmbeddedDate(name))
  {
    Pow10Widths();
    ZeroPadOfDigits(name[0..4]);
    ZeroPadOfDigits(name[5..7]);
    ZeroPadOfDigits(name[8..10]);
    assert name[..10] == name[0..4] + "-" + name[5..7] + "-" + name[8..10];
  }

  /** Conversely, a name that parses to d is d's ISO date, an underscore, an
      identifier and ".mp4", possibly followed by one newline that `$`
      tolerates. */
  lemma ParsedNameIsDated(name: string, d: Date)
    requires ParseDate(name) == Parsed(d)
    ensures Writable(d) && name[..10] == IsoDate(d)
    ensures || (|name| >= 15 && name == DatedName(d, name[11..|name| - 4]))
            || (|name| >= 16 && name == DatedName(d, name[11..|name| - 5]) + "\n")
  {
    assert MatchesPattern(name) && d == EmbeddedDate(name);
    DatePrefixIsIso(name);
    var iso := name[..10];
    if |name| >= 15 && name[|name| - 4..] == ".mp4" {
      assert name == iso + "_" + name[11..|name| - 4] + ".mp4";
    } else {
      assert name == iso + "_" + name[11..|name| - 5] + ".mp4" + "\n";
    }
  }

  // strptime rejects the impossible dates that the pattern lets through;
  // the ValueError escapes parse_date_from_filename.

  /** February 29 outside leap years: 2023 is not divisible by 4, and 1900 is
      a century year not divisible by 400. */
  lemma NonLeapFebruary29Raises(id: string)
    requires '\n' !in id
    ensures ParseDate(DatedName(Date(2023, 2, 29), id)) == RaisesValueError
    ensures ParseDate(DatedName(Date(1900, 2, 29), id)) == RaisesValueError
  {
    ParseDatedName(Date(2023, 2, 29), id);
    ParseDatedName(Date(1900, 2, 29), id);
  }

  /** February 29 of 2024, and of 2000, a century year divisible by 400. */
  lemma LeapFebruary29Parses(id: string)
    requires '\n' !in id
    ensures ParseDate(DatedName(Date(2024, 2, 29), id)) == Parsed(Date(2024, 2, 29))
    ensures ParseDate(DatedName(Date(2000, 2, 29), id)) == Parsed(Date(2000, 2, 29))
  {
    ParseDatedName(Date(2024, 2, 29), id);
    ParseDatedName(Date(2000, 2, 29), id);
  }

  /** April 31, month 13, month 00, day 00 and year 0000 all raise. */
  lemma OutOfRangeFieldsRaise(id: string)
    requires '\n' !in id
    ensures ParseDate(DatedName(Date(2024, 4, 31), id)) == RaisesValueError
    ensures ParseDate(DatedName(Date(2024, 13, 1), id)) == RaisesValueError
    ensures ParseDate(DatedName(Date(2024, 0, 10), id)) == RaisesValueError
    ensures ParseDate(DatedName(Date(2024, 1, 0), id)) == RaisesValueError
    ensures ParseDate(DatedName(Date(0, 1, 1), id)) == RaisesValueError
  {
    ParseDatedName(Date(2024, 4, 31), id);
    ParseDatedName(Date(2024, 13, 1), id);
    ParseDatedName(Date(2024, 0, 10), id);
    ParseDatedName(Date(2024, 1, 0), id);
    ParseDatedName(Date(0, 1, 1), id);
  }

  /** Index of the last '.' in s, or -1 when there is none (str.rfind). */
  function LastDot(s: string): (i: int)
    ensures -1 <= i < |s|
    ensures i >= 0 ==> s[i] == '.'
    ensures forall j :: i < j < |s| ==> s[j] != '.'
  {
    if s == [] then -1
    else if s[|s| - 1] == '.' then |s| - 1
    else LastDot(s[..|s| - 1])
  }

  /** PurePath.suffix of a file name: from the last dot on, unless that dot
      starts the name or ends it. */
  function Suffix(name: string): (s: string)
  {
    var i := LastDot(name);
    if 0 < i < |name| - 1 then name[i..] else ""
  }

  /** A suffix is a dot and at least one more character, ends the name
      without being all of it, and holds no other dot; there is none exactly
      when the name has no dot, starts with its only dot, or ends in one. */
  lemma SuffixShape(name: string)
    ensures var s := Suffix(name);
      s != "" ==> 2 <= |s| < |name| && s == name[|name| - |s|..] && s[0] == '.' && '.' !in s[1..]
    ensures Suffix(name) == "" <==> '.' !in name || (name[0] == '.' && '.' !in name[1..]) || name[|name| - 1] == '.'
  {
  }

  /** The filter of get_video_files: f.suffix.lower() == '.mp4'. */
  predicate IsVideoFile(name: string)
  {
    Lower(Suffix(name)) == ".mp4"
  }

  /** The filter accepts exactly the names of five or more characters whose
      last four read ".mp4" in any letter case. */
  lemma VideoFileIffExtension(name: string)
    ensures IsVideoFile(name) <==> |name| >= 5 && Lower(name[|name| - 4..]) == ".mp4"
  {
    var i := LastDot(name);
    if IsVideoFile(name) {
      assert 0 < i < |name| - 1;
      assert |name[i..]| == 4;
    }
    if |name| >= 5 && Lower(name[|name| - 4..]) == ".mp4" {
      var k := |name| - 4;
      assert LowerChar(name[k]) == '.';
      assert name[k] == '.';
      assert LowerChar(name[k + 1]) == 'm' && LowerChar(name[k + 2]) == 'p' && LowerChar(name[k + 3]) == '4';
      assert i == k;
    }
  }

  /** get_video_files as a filter over the directory's entry names. */
  function Scan(names: seq<string>): (r: seq<string>)
    ensures forall n :: n in r <==> n in names && IsVideoFile(n)
    ensures forall n :: multiset(r)[n] == if IsVideoFile(n) then multiset(names)[n] else 0
  {
    if names == [] then []
    else
      assert names == [names[0]] + names[1..];
      (if IsVideoFile(names[0]) then [names[0]] else []) + Scan(names[1..])
  }

  /** The scan keeps directory order: filtering two runs of entries one
      after the other gives the kept names of the first, then those of the
      second. */
  lemma {:induction false} ScanAppend(a: seq<string>, b: seq<string>)
    ensures Scan(a + b) == Scan(a) + Scan(b)
    decreases |a|
  {
    if a == [] {
      assert a + b == b;
    } else {
      assert (a + b)[0] == a[0] && (a + b)[1..] == a[1..] + b;
      ScanAppend(a[1..], b);
    }
  }

  /** A name the pattern matches passes the scan filter unless it ends in a
      newline, which `$` tolerates but the suffix does not. */
  lemma ParsableNamesAreScanned(name: string)
    requires ParseDate(name) != NoMatch
    ensures IsVideoFile(name) <==> name[|name| - 1] != '\n'
  {
    VideoFileIffExtension(name);
    if name[|name| - 1] == '\n' {
      assert Lower(name[|name| - 4..])[3] == '\n';
    } else {
      assert name[|name| - 4..] == ".mp4";
    }
  }

  /** ".MP4", ".Mp4" and the like pass the case-insensitive scan but never
      match the case-sensitive pattern. */
  lemma UpperCaseExtensionScannedNotParsed(name: string)
    requires |name| >= 5 && Lower(name[|name| - 4..]) == ".mp4" && name[|name| - 4..] != ".mp4"
    ensures IsVideoFile(name)
    ensures ParseDate(name) == NoMatch
  {
    VideoFileIffExtension(name);
    assert name[|name| - 1] != '\n' by {
      assert LowerChar(name[|name| - 1]) == Lower(name[|name| - 4..])[3];
    }
  }
}
