// validate_clip's decision, taken over what ffprobe reported about an
// extracted clip once its JSON has been read.

module Validation {
  import opened Wrappers

  /** The parts of ffprobe's report that validate_clip looks at: the
      codec_type of each stream (None when a stream has no such key) and the
      format's duration (None when absent), as an exact number of seconds. */
  datatype Probe = Probe(codecTypes: seq<Option<string>>, duration: Option<real>)

  /** Shortest clip accepted, in seconds. */
  const MinDuration: real := 0.5

  /** Which check turned the clip down, in the order validate_clip runs them;
      validate_clip returns True exactly for Accepted. */
  datatype Verdict = Accepted | NoVideoStream | NoAudioStream | BadDuration

  predicate HasStream(codecTypes: seq<Option<string>>, kind: string)
  {
    exists i :: 0 <= i < |codecTypes| && codecTypes[i] == Some(kind)
  }

  predicate DurationOk(duration: Option<real>)
  {
    duration.Some? && duration.value >= MinDuration
  }

  /** The verdict as a function of the report: video first, then audio, then
      the duration. */
  function Judge(p: Probe): (v: Verdict)
    ensures v == Accepted <==> HasStream(p.codecTypes, "video") && HasStream(p.codecTypes, "audio") && DurationOk(p.duration)
    ensures v == NoVideoStream <==> !HasStream(p.codecTypes, "video")
    ensures v == NoAudioStream <==> HasStream(p.codecTypes, "video") && !HasStream(p.codecTypes, "audio")
    ensures v == BadDuration <==> HasStream(p.codecTypes, "video") && HasStream(p.codecTypes, "audio") && !DurationOk(p.duration)
  {
    if !HasStream(p.codecTypes, "video") then NoVideoStream
    else if !HasStream(p.codecTypes, "audio") then NoAudioStream
    else if !DurationOk(p.duration) then BadDuration
    else Accepted
  }

  method ValidateClip(p: Probe) returns (v: Verdict)
    ensures v == Judge(p)
    ensures v == Accepted <==> HasStream(p.codecTypes, "video") && HasStream(p.codecTypes, "audio") && DurationOk(p.duration)
  {
    var hasVideo, hasAudio := false, false;
    for i := 0 to |p.codecTypes|
      invariant hasVideo <==> HasStream(p.codecTypes[..i], "video")
      invariant hasAudio <==> HasStream(p.codecTypes[..i], "audio")
    {
      assert p.codecTypes[..i + 1] == p.codecTypes[..i] + [p.codecTypes[i]];
      if p.codecTypes[i] == Some("video") {
        hasVideo := true;
      } else if p.codecTypes[i] == Some("audio") {
        hasAudio := true;
      }
    }
    assert p.codecTypes[..|p.codecTypes|] == p.codecTypes;
    if !hasVideo {
      return NoVideoStream;
    }
    if !hasAudio {
      return NoAudioStream;
    }
    if p.duration.None? || p.duration.value < MinDuration {
      return BadDuration;
    }
    return Accepted;
  }

  /** Streams of any other codec type (subtitle, data, or none given) do not
      change the verdict, wherever they stand. */
  lemma OtherStreamsIgnored(a: seq<Option<string>>, b: seq<Option<string>>, other: Option<string>, duration: Option<real>)
    requires other != Some("video") && other != Some("audio")
    ensures Judge(Probe(a + [other] + b, duration)) == Judge(Probe(a + b, duration))
  {
    var with, without := a + [other] + b, a + b;
    forall kind | kind == "video" || kind == "audio"
      ensures HasStream(with, kind) <==> HasStream(without, kind)
    {
      if HasStream(with, kind) {
        var i :| 0 <= i < |with| && with[i] == Some(kind);
        if i < |a| {
          assert without[i] == Some(kind);
        } else {
          assert i > |a| && without[i - 1] == Some(kind);
        }
      }
      if HasStream(without, kind) {
        var i :| 0 <= i < |without| && without[i] == Some(kind);
        if i < |a| {
          assert with[i] == Some(kind);
        } else {
          assert with[i + 1] == Some(kind);
        }
      }
    }
  }

  /** The verdict depends only on which codec types occur, not on how many
      streams carry them or in what order. */
  lemma OnlyCodecSetMatters(p: Probe, q: Probe)
    requires forall t :: t in p.codecTypes <==> t in q.codecTypes
    requires p.duration == q.duration
    ensures Judge(p) == Judge(q)
  {
    forall kind | kind == "video" || kind == "audio"
      ensures HasStream(p.codecTypes, kind) <==> HasStream(q.codecTypes, kind)
    {
      if HasStream(p.codecTypes, kind) {
        var i :| 0 <= i < |p.codecTypes| && p.codecTypes[i] == Some(kind);
        assert Some(kind) in q.codecTypes;
      }
      if HasStream(q.codecTypes, kind) {
        var i :| 0 <= i < |q.codecTypes| && q.codecTypes[i] == Some(kind);
        assert Some(kind) in p.codecTypes;
      }
    }
  }
}
