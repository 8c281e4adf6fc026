// group_by_date and select_one_per_day: the scanned names bucketed by the
// date their name carries, then one name picked per bucket.

module Grouping {
  import opened Dates
  import opened FileName

  /** group_by_date either returns its buckets or is cut short by the
      ValueError that strptime raises for the first impossible date. */
  datatype GroupOutcome =
    | Buckets(buckets: map<Date, seq<string>>)
    | RaisedValueError(name: string)

  /** The names among `files` that parse to d, in input order. */
  function Bucket(files: seq<string>, d: Date): (bucket: seq<string>)
    decreases |files|
  {
    if files == [] then []
    else
      var last := files[|files| - 1];
      Bucket(files[..|files| - 1], d) + (if ParseDate(last) == Parsed(d) then [last] else [])
  }

  /** The dates some name in `files` parses to. */
  function DatesOf(files: seq<string>): (dates: set<Date>)
  {
    set i | 0 <= i < |files| && ParseDate(files[i]).Parsed? :: ParseDate(files[i]).date
  }

  /** What group_by_date returns when no name raises. */
  function BucketsOf(files: seq<string>): (grouped: map<Date, seq<string>>)
  {
    map d | d in DatesOf(files) :: Bucket(files, d)
  }

  /** files[i] is the first name whose date strptime rejects. */
  predicate FirstRaising(files: seq<string>, i: int)
  {
    && 0 <= i < |files|
    && ParseDate(files[i]) == RaisesValueError
    && forall j :: 0 <= j < i ==> ParseDate(files[j]) != RaisesValueError
  }

  method GroupByDate(files: seq<string>) returns (r: GroupOutcome)
    ensures r.RaisedValueError? <==> exists i :: 0 <= i < |files| && ParseDate(files[i]) == RaisesValueError
    ensures r.RaisedValueError? ==> exists i :: FirstRaising(files, i) && r.name == files[i]
    ensures r.Buckets? ==> r.buckets == BucketsOf(files)
  {
    var grouped: map<Date, seq<string>> := map[];
    for i := 0 to |files|
      invariant forall j :: 0 <= j < i ==> ParseDate(files[j]) != RaisesValueError
      invariant grouped == BucketsOf(files[..i])
    {
      var name := files[i];
      var parsed := ParseDate(name);
      match parsed
      case NoMatch =>
        GroupStep(files, i);
      case RaisesValueError =>
        assert FirstRaising(files, i);
        return RaisedValueError(name);
      case Parsed(d) =>
        GroupStep(files, i);
        var bucket := if d in grouped then grouped[d] else [];
        grouped := grouped[d := bucket + [name]];
    }
    assert files[..|files|] == files;
    return Buckets(grouped);
  }

  /** One turn of group_by_date's loop, over the names read so far. */
  lemma GroupStep(files: seq<string>, i: nat)
    requires i < |files|
    ensures var grouped, name := BucketsOf(files[..i]), files[i];
      BucketsOf(files[..i + 1]) ==
        match ParseDate(name)
        case Parsed(d) => grouped[d := (if d in grouped then grouped[d] else []) + [name]]
        case _ => grouped
  {
    assert files[..i + 1] == files[..i] + [files[i]];
    if ParseDate(files[i]).Parsed? {
      BucketsOfSnocParsed(files[..i], files[i], ParseDate(files[i]).date);
    } else {
      BucketsOfSnocUnparsed(files[..i], files[i]);
    }
  }

  /** Appending a name that parses to d extends d's bucket (opening it if
      needed) and changes nothing else. */
  lemma BucketsOfSnocParsed(files: seq<string>, name: string, d: Date)
    requires ParseDate(name) == Parsed(d)
    ensures var grouped := BucketsOf(files);
      BucketsOf(files + [name]) == grouped[d := (if d in grouped then grouped[d] else []) + [name]]
  {
    var s := files + [name];
    DatesOfSnoc(files, name);
    BucketEmptyIffNoDate(files, d);
    var expected := BucketsOf(files)[d := Bucket(files, d) + [name]];
    assert BucketsOf(s).Keys == expected.Keys;
    forall e | e in expected ensures BucketsOf(s)[e] == expected[e] {
      BucketSnoc(files, name, e);
    }
  }

  /** Appending a name without a date leaves the grouping as it was. */
  lemma BucketsOfSnocUnparsed(files: seq<string>, name: string)
    requires !ParseDate(name).Parsed?
    ensures BucketsOf(files + [name]) == BucketsOf(files)
  {
    var s := files + [name];
    DatesOfSnoc(files, name);
    forall e | e in BucketsOf(files) ensures BucketsOf(s)[e] == BucketsOf(files)[e] {
      BucketSnoc(files, name, e);
    }
  }

  lemma BucketSnoc(files: seq<string>, name: string, d: Date)
    ensures Bucket(files + [name], d) == Bucket(files, d) + (if ParseDate(name) == Parsed(d) then [name] else [])
  {
    var s := files + [name];
    assert s[..|s| - 1] == files;
  }

  lemma DatesOfSnoc(files: seq<string>, name: string)
    ensures DatesOf(files + [name]) == DatesOf(files) + (if ParseDate(name).Parsed? then {ParseDate(name).date} else {})
  {
    var s := files + [name];
    forall e | e in DatesOf(s) ensures e in DatesOf(files) || ParseDate(name) == Parsed(e) {
      var i :| 0 <= i < |s| && ParseDate(s[i]).Parsed? && ParseDate(s[i]).date == e;
      if i < |files| {
        assert files[i] == s[i];
      }
    }
    forall e | e in DatesOf(files) ensures e in DatesOf(s) {
      var i :| 0 <= i < |files| && ParseDate(files[i]).Parsed? && ParseDate(files[i]).date == e;
      assert s[i] == files[i];
    }
    if ParseDate(name).Parsed? {
      assert s[|files|] == name;
    }
  }

  /** A bucket is empty exactly when no name carries its date. */
  lemma {:induction false} BucketEmptyIffNoDate(files: seq<string>, d: Date)
    ensures Bucket(files, d) == [] <==> d !in DatesOf(files)
    decreases |files|
  {
    if files != [] {
      var init, last := files[..|files| - 1], files[|files| - 1];
      BucketEmptyIffNoDate(init, d);
      assert files == init + [last];
      DatesOfSnoc(init, last);
    }
  }

  /** Every member of a bucket is one of the input names and parses to the
      bucket's date; in particular a name without a date is in no bucket. */
  lemma {:induction false} BucketMembers(files: seq<string>, d: Date, f: string)
    requires f in Bucket(files, d)
    ensures f in files && ParseDate(f) == Parsed(d)
    decreases |files|
  {
    var init := files[..|files| - 1];
    if f in Bucket(init, d) {
      BucketMembers(init, d, f);
    }
  }

  /** Each name that parses to d is in d's bucket as often as it is in the
      input, and no other name is; with distinct directory entries every
      parsable name appears exactly once. */
  lemma {:induction false} BucketCount(files: seq<string>, d: Date, f: string)
    ensures multiset(Bucket(files, d))[f] == if ParseDate(f) == Parsed(d) then multiset(files)[f] else 0
    decreases |files|
  {
    if files != [] {
      var init, last := files[..|files| - 1], files[|files| - 1];
      BucketCount(init, d, f);
      assert files == init + [last];
    }
  }

  /** Bucketing keeps input order: the bucket of a concatenation is the
      concatenation of the buckets. */
  lemma {:induction false} BucketAppend(a: seq<string>, b: seq<string>, d: Date)
    ensures Bucket(a + b, d) == Bucket(a, d) + Bucket(b, d)
    decreases |b|
  {
    if b != [] {
      var ab := a + b;
      var init := b[..|b| - 1];
      assert ab[..|ab| - 1] == a + init;
      var tail := if ParseDate(b[|b| - 1]) == Parsed(d) then [b[|b| - 1]] else [];
      assert ab[|ab| - 1] == b[|b| - 1];
      BucketAppend(a, init, d);
      calc {
        Bucket(ab, d);
        Bucket(a + init, d) + tail;
        (Bucket(a, d) + Bucket(init, d)) + tail;
        Bucket(a, d) + (Bucket(init, d) + tail);
        Bucket(a, d) + Bucket(b, d);
      }
    } else {
      assert a + b == a;
    }
  }

  /** The grouping as a whole: every bucket is non-empty and holds only names
      of its own date, and every date that occurs has a bucket. */
  lemma GroupingShape(files: seq<string>)
    ensures BucketsOf(files).Keys == DatesOf(files)
    ensures forall d :: d in BucketsOf(files) ==> BucketsOf(files)[d] != []
    ensures forall d, f :: d in BucketsOf(files) && f in BucketsOf(files)[d] ==> f in files && ParseDate(f) == Parsed(d)
  {
    forall d | d in BucketsOf(files) ensures BucketsOf(files)[d] != [] {
      BucketEmptyIffNoDate(files, d);
    }
    forall d, f | d in BucketsOf(files) && f in BucketsOf(files)[d] ensures f in files && ParseDate(f) == Parsed(d) {
      BucketMembers(files, d, f);
    }
  }

  /** select_one_per_day, with random.choice modelled as an arbitrary member
      of the list. */
  method SelectOnePerDay(grouped: map<Date, seq<string>>) returns (selected: map<Date, string>)
    ensures forall d :: d in selected <==> d in grouped && grouped[d] != []
    ensures forall d :: d in selected ==> selected[d] in grouped[d]
    ensures forall d :: d in selected && |grouped[d]| == 1 ==> selected[d] == grouped[d][0]
  {
    selected := map[];
    var pending := grouped.Keys;
    while pending != {}
      invariant pending <= grouped.Keys
      invariant forall d :: d in selected <==> d in grouped && d !in pending && grouped[d] != []
      invariant forall d :: d in selected ==> selected[d] in grouped[d]
      decreases pending
    {
      var date :| date in pending;
      var videos := grouped[date];
      if videos != [] {
        assert videos[0] in videos;
        var choice :| choice in videos;
        selected := selected[date := choice];
      }
      pending := pending - {date};
    }
  }

  /** A selection over the grouping of `files` picks, for exactly the dates
      that occur, one of the input names carrying that date. */
  lemma SelectionOfGrouping(files: seq<string>, selected: map<Date, string>)
    requires forall d :: d in selected <==> d in BucketsOf(files) && BucketsOf(files)[d] != []
    requires forall d :: d in selected ==> selected[d] in BucketsOf(files)[d]
    ensures selected.Keys == DatesOf(files)
    ensures forall d :: d in selected ==> selected[d] in files && ParseDate(selected[d]) == Parsed(d)
  {
    forall d ensures d in selected <==> d in DatesOf(files) {
      BucketEmptyIffNoDate(files, d);
    }
    forall d | d in selected ensures selected[d] in files && ParseDate(selected[d]) == Parsed(d) {
      BucketMembers(files, d, selected[d]);
    }
  }
}
