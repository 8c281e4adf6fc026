# Snapchat memories compiler: the selection pipeline

`video_compiler.py` builds one video out of a directory of Snapchat memories.
It keeps one recording per calendar day and cuts a short clip from the start
of each. It then puts the clips together in chronological order. This project
models the part of the script that decides *which* files become *which*
clips, in which order and under which names, and proves what that part
guarantees. The ffmpeg and ffprobe work around it is not modelled.

Modules, one per step of the pipeline:

- `Wrappers` (text.dfy): the `Option` datatype.
- `Text` (text.dfy): ASCII digits and their values, zero padding as
  `{:04d}` and `strftime` produce it, ASCII `str.lower`.
- `Dates` (dates.dfy): the dates `datetime` accepts (proleptic Gregorian,
  years 1 to 9999) and their chronological order.
- `FileName` (filename.dfy): `parse_date_from_filename` and the name filter
  of `get_video_files`.
  - The regular expression `(\d{4}-\d{2}-\d{2})_.*\.mp4$` is modelled with
    Python's semantics: `.` does not match a newline, and `$` also matches
    just before one final newline.
  - `strptime` either yields a date or raises `ValueError`.
  - `Path.suffix` is the text from the last dot on. It is empty when that dot
    starts or ends the name.
- `Grouping` (grouping.dfy): `group_by_date` as a loop that fills a map. A
  `ValueError` from the parser cuts the loop short. `select_one_per_day`
  picks an arbitrary member of each bucket, standing in for `random.choice`.
- `Validation` (validation.dfy): the decision `validate_clip` takes once it
  has read ffprobe's report. The report is reduced to the streams' codec
  types and the format duration.
- `ConcatList` (manifest.dfy): the text `create_concat_file` writes, and a
  reader that recovers the clip paths from it.
- `Driver` (driver.dfy):
  - the clip file names, which can be read back;
  - sorting of the selected dates;
  - the extract, validate and skip loop of `main`;
  - `main` as a whole.

  The outcomes of the external tools are inputs to the driver:
  - whether ffmpeg and ffprobe are installed;
  - for each date, whether extraction and validation succeed;
  - whether concatenation of a given list succeeds;
  - the temporary directory's path.

Two readers have no counterpart in the program: `ConcatList.ReadManifest`
and `Driver.ReadClipName`. The script writes the concat list and the clip
names but never reads them back. The model adds the readers to say what the
written text means: which paths ffmpeg's concat demuxer recovers from the
list, and which index and date a clip name carries. The list reader ends a
line at a newline; a path holding a carriage return, which the demuxer also
takes as a line end, or a quote, which ends the quoted path, is refused.
Such paths are not plain (`ConcatList.PlainPath`).

Assumptions:

- `\d` is taken to match ASCII digits only.
- `strftime('%Y')` is taken to pad the year to four digits.
- Directory entries are given as a sequence of names, in the order
  `iterdir` yields them.

Where the code and the documented intent differ, the model follows the code.
First, an impossible date in a file name does not make the parser return "no
date". `strptime`'s `ValueError` escapes `parse_date_from_filename` and
`group_by_date` and ends `main`. The model has this as `RaisesValueError` and
`DateError`. Second, a failing ffprobe run in `validate_clip` is not a plain
validation failure (see "Left out").

## Model

| member | source | states |
|---|---|---|
| FileName.ParseDate | video_compiler.py:17-22 | returns None exactly when the pattern does not match, and any date it returns is a valid calendar date |
| FileName.ParseDatedName | video_compiler.py:17-22 | a name of the form YYYY-MM-DD_<id>.mp4, with an identifier free of newlines, always matches the pattern; it parses to exactly its date when the fields form a valid date, and raises ValueError otherwise |
| FileName.ParsedNameIsDated | video_compiler.py:19-21 | conversely, a name that parses to d begins with d's YYYY-MM-DD text, and is d's dated name, possibly followed by one newline that `$` tolerates |
| FileName.DatePrefixIsIso | video_compiler.py:19-21 | the first ten characters of a name with the date prefix are the zero-padded YYYY-MM-DD text of the year, month and day that strptime reads from them |
| FileName.NonLeapFebruary29Raises | video_compiler.py:19-21 | for any identifier, 2023-02-29_<id>.mp4 and 1900-02-29_<id>.mp4 (not leap years) match the pattern but make strptime raise ValueError |
| FileName.LeapFebruary29Parses | video_compiler.py:19-21 | for any identifier, 2024-02-29_<id>.mp4 and 2000-02-29_<id>.mp4 (leap years) parse to February 29 of that year |
| FileName.OutOfRangeFieldsRaise | video_compiler.py:19-21 | April 31, month 13, month 00, day 00 and year 0000 all raise ValueError instead of returning None |
| FileName.LastDot | video_compiler.py:27 | the index of the last dot, or -1 when there is none, as rfind finds it for Path.suffix |
| FileName.SuffixShape | video_compiler.py:27 | a non-empty suffix is a dot and at least one more character that end the name without being all of it, with no other dot; there is no suffix exactly when the name has no dot, starts with its only dot, or ends in a dot |
| FileName.Scan | video_compiler.py:24-27 | a name is kept iff it is an entry whose suffix lower-cases to `.mp4`, and each kept name is kept as often as it occurs |
| FileName.ScanAppend | video_compiler.py:24-27 | the kept names stay in directory order: scanning two runs of entries gives the kept names of the first, then those of the second |
| FileName.VideoFileIffExtension | video_compiler.py:27 | the scan filter accepts a name iff it has at least five characters and its last four lower-case to `.mp4` |
| FileName.ParsableNamesAreScanned | video_compiler.py:19-27 | a name the pattern matches passes the scan iff it does not end in a newline |
| FileName.UpperCaseExtensionScannedNotParsed | video_compiler.py:19-27 | `.MP4` and other casings other than `.mp4` pass the scan but never match the case-sensitive pattern |
| Grouping.GroupByDate | video_compiler.py:29-38 | ends in ValueError iff some name has an impossible date; the model records which file raised, the first such one (Python's message carries the date text or "day is out of range", not the file name); otherwise returns exactly the bucket of every date that occurs |
| Grouping.GroupStep | video_compiler.py:33-36 | one turn of the loop: a name that parses to d is appended to d's list, opening it if needed, and any other name leaves the grouping as it was |
| Grouping.BucketsOfSnocParsed | video_compiler.py:34-36 | appending a name that parses to d extends d's bucket, opening it if needed, and changes no other bucket |
| Grouping.BucketsOfSnocUnparsed | video_compiler.py:34-35 | appending a name without a date leaves the grouping unchanged |
| Grouping.BucketEmptyIffNoDate | video_compiler.py:31-36 | a date's bucket is empty iff no name carries that date |
| Grouping.BucketMembers | video_compiler.py:33-36 | every member of a bucket is an input name that parses to the bucket's date |
| Grouping.BucketCount | video_compiler.py:33-36 | a name is in d's bucket as many times as in the input if it parses to d, and not at all otherwise |
| Grouping.BucketAppend | video_compiler.py:33-36 | buckets keep input order: the bucket of a concatenation is the concatenation of the buckets |
| Grouping.GroupingShape | video_compiler.py:29-38 | the meaning of `BucketsOf`, what group_by_date returns: the keys are exactly the dates that occur, every bucket is non-empty, and every member parses to its key |
| Grouping.SelectOnePerDay | video_compiler.py:40-48 | selects exactly the dates whose list is non-empty, each pick is a member of its date's list, and a one-element list yields its only member |
| Grouping.SelectionOfGrouping | video_compiler.py:40-48 | over a grouping, the selected dates are exactly the dates that occur, and each pick is a scanned name carrying its date |
| Validation.ValidateClip | video_compiler.py:79-105 | returns the verdict of checks run in the order video, audio, duration, and accepts iff some stream is video, some is audio and the duration is at least 0.5 |
| Validation.OtherStreamsIgnored | video_compiler.py:84-89 | inserting a stream whose codec type is neither video nor audio, anywhere, does not change the verdict |
| Validation.OnlyCodecSetMatters | video_compiler.py:84-105 | two reports with the same set of codec types and the same duration get the same verdict |
| Validation.Judge | video_compiler.py:84-105 | accepts iff some stream is video, some is audio and the duration is at least 0.5; reports a missing video stream iff there is none, a missing audio stream iff there is video but no audio, and a bad duration iff both kinds are there but the duration is absent or under 0.5 |
| ConcatList.ManifestText | video_compiler.py:152-156 | the text takes at least the eight characters of `file ''` and a newline per path, so it is empty only when there are no paths, and it ends in a newline when there is one |
| ConcatList.CreateConcatFile | video_compiler.py:152-156 | the text written is the `file '<path>'` line of each path, in the given order |
| ConcatList.ReadWrittenManifest | video_compiler.py:154-156 | when no path holds a newline, a carriage return or a quote, reading the list back gives exactly the paths, in order |
| ConcatList.NewlineInPathBreaksManifest | video_compiler.py:156 | paths are written without escaping, so a first path holding a newline keeps the list from reading back as its paths, whatever follows |
| ConcatList.QuoteOrCarriageReturnBreaksManifest | video_compiler.py:156 | likewise, a first path holding a quote or a carriage return (and no newline) makes the list unreadable, whatever follows |
| Text.ZeroPad | video_compiler.py:253 | `{:04d}` padding: digits only, with the number's value, exactly width digits when the number fits, and the number's own digits otherwise |
| Driver.ClipName | video_compiler.py:253 | a clip name starts with `clip_`, ends in `.mp4`, has at least 22 characters, and exactly 22 when the index is below 10000 and the date fits YYYYMMDD |
| Driver.ClipNameIsPlain | video_compiler.py:253 | a clip name holds no newline, no carriage return and no quote |
| Driver.ReadClipNameParts | video_compiler.py:253 | a name of the clip layout reads back as its index digits and its eight date digits |
| Driver.ReadClipNameInverse | video_compiler.py:253 | the index and the date can be read back from a clip name |
| Driver.ClipNamesDistinct | video_compiler.py:251-254 | different (index, valid date) pairs give different clip names |
| Driver.ClipNameCarriesFileDate | video_compiler.py:253 | the YYYYMMDD of a clip name is the file name's date digits without the dashes |
| Driver.Earliest | video_compiler.py:242 | returns a member of the set that comes before every other member |
| Driver.SortDates | video_compiler.py:242 | the selected dates in strictly ascending order, each exactly once |
| Driver.ExtractAll | video_compiler.py:248-271 | the clip paths are those of the dates whose extraction and validation both succeed, in date order, each named after the date's index among all sorted dates |
| Driver.SurvivorsExactly | video_compiler.py:251-271 | the meaning of `Survivors`: a clip survives iff both of its date's steps succeed, and it keeps its date's position, so indices have gaps after skips |
| Driver.SurvivorsInOrder | video_compiler.py:251-271 | surviving clips keep increasing indices, and ascending dates when the dates were sorted |
| Driver.FailureDropsOnlyThatDate | video_compiler.py:251-271 | making one date fail removes that date's clip and leaves every other clip, and its name, as it was |
| Driver.ClipPathsDistinct | video_compiler.py:251-266 | no clip path occurs twice in the list |
| Driver.ManifestListsSurvivors | video_compiler.py:152-156 | the concat list of the surviving clips reads back as exactly their paths when the temporary directory's path holds no newline, no carriage return and no quote |
| Driver.UpperCaseExtensionFoundButSkipped | video_compiler.py:225-236 | a `.MP4` entry is among the video files found but lands in no bucket, so no clip is cut from it |
| Driver.DatedNameIsVideo | video_compiler.py:27 | every name in the YYYY-MM-DD_<id>.mp4 layout passes the scan filter |
| Driver.TwoDayGrouping | video_compiler.py:29-38 | two names of one day and one of another give a bucket of two, in input order, and a bucket of one |
| Driver.TwoDayClips | video_compiler.py:251-266 | with every step succeeding, two dates give clips 0 and 1 in date order |
| Driver.ProcessSelection | video_compiler.py:241-287 | given one file of each date that occurs, processes every such date once, in ascending order, cuts each date's clip from the file selected for that date, keeps the clip paths of the dates whose steps both succeed, and writes and concatenates their list exactly when there is at least one clip |
| Driver.Run | video_compiler.py:206-287 | main(): stops when the tools are missing, when no video file is found, or at the first impossible date (the model records which file raised; Python's message carries the date text, not the file name); otherwise it goes on as ProcessSelection states, for the scanned files |

## Left out

- The ffmpeg and ffprobe command lines of the preflight check, `get_video_duration`, `extract_clip`, `validate_clip` and `concatenate_videos`. Only their success or failure enters the model, through the driver's `Environment`.
- Reading ffprobe's JSON and `float()` on durations. `Validation.Probe` holds the parsed report, with the duration as an exact real. NaN and infinities are not represented.
- `get_video_duration` and its 10.0 fallback, the `min(clip_duration, duration)` clamp and the 1.4 s clip length. They only shape the ffmpeg command, which is not modelled.
- Validation.ValidateClip: covers only the decision once the report is read. When the ffprobe run itself fails, evaluating `json.JSONDecodeError` in the except clause raises UnboundLocalError, because `json` is a local name bound only by the import after the run. The clip is then not merely rejected. The driver takes validation as a per-date boolean and does not model this escape.
- Driver.Run: extraction and validation outcomes are functions of the date, and concatenation's outcome is a function of the list text. Exceptions other than strptime's ValueError are not modelled (a missing ffmpeg during extraction, the UnboundLocalError above, file system errors).
- The file system: `iterdir`, the kind of each entry (a directory named `x.mp4` would pass the filter as well), `NamedTemporaryFile`, `TemporaryDirectory` and `os.unlink`. The directory is a sequence of names, and the temporary directory is a path string joined to a clip name with `/`.
- Grouping.SelectOnePerDay: `random.choice` is any member of the list, not a uniform distribution.
- All console output. Nothing the program prints is modelled.
- Unicode: `\d` matching non-ASCII digits, and `str.lower` beyond ASCII letters.
- `strftime('%Y')` for years below 1000, whose padding depends on the platform's C library. It is assumed to be four digits.
- `Path.suffix` follows the rfind rule of Python 3.12 and earlier: the text from the last dot on, empty when that dot starts or ends the name. Later releases, which skip leading dots first and keep a final dot, differ for names ending in a dot (`foo.` gives `.` instead of nothing) and for names whose other dots all come first (`..mp4` gives nothing instead of `.mp4`). Only the second case changes the filter's answer.
