/** `capture_video_frames`: one camera session, a warm-up, then a fixed number
    of attempts whose failures are dropped. */
module Capture {
  import opened Wrappers
  import opened Profile

  const WARMUP_FRAMES: nat := 5
  const FRAMES_PER_CAPTURE: nat := 15
  const NO_FACES: string := "No processable faces captured"

  /** A camera session as the helper sees it. `Unavailable` is a session whose
      device could not be found, opened or configured, with the reason.
      `Streaming(attempt)` gives, for the n-th capture call of the session, the
      template that capture, decoding and preprocessing produced, or `None`
      when any of the three failed. */
  datatype Device = Unavailable(reason: string) | Streaming(attempt: nat -> Option<Template>)

  /** The successful templates among `outcomes`, in order. */
  function Survivors(outcomes: seq<Option<Template>>): (r: seq<Template>)
    ensures |r| <= |outcomes|
    ensures r == [] <==> forall k :: 0 <= k < |outcomes| ==> outcomes[k].None?
  {
    if outcomes == [] then []
    else
      var prefix := Survivors(outcomes[..|outcomes| - 1]);
      match outcomes[|outcomes| - 1]
      case Some(t) => prefix + [t]
      case None => prefix
  }

  /** `idx` picks out, in increasing order, every successful outcome and
      nothing else, and `picked` is what those outcomes hold. */
  ghost predicate SelectsSuccesses(outcomes: seq<Option<Template>>, idx: seq<nat>, picked: seq<Template>) {
    && |idx| == |picked|
    && (forall k :: 0 <= k < |idx| ==> idx[k] < |outcomes| && outcomes[idx[k]] == Some(picked[k]))
    && (forall j, k :: 0 <= j < k < |idx| ==> idx[j] < idx[k])
    && (forall i :: 0 <= i < |outcomes| && outcomes[i].Some? ==> i in idx)
  }

  /** The positions of the survivors: the survivors are the in-order
      subsequence of the successful outcomes. */
  ghost function SurvivorPositions(outcomes: seq<Option<Template>>): (idx: seq<nat>)
    ensures SelectsSuccesses(outcomes, idx, Survivors(outcomes))
  {
    if outcomes == [] then []
    else
      var last := |outcomes| - 1;
      var idx := SurvivorPositions(outcomes[..last]);
      SelectsOneMore(outcomes, idx, Survivors(outcomes[..last]));
      if outcomes[last].Some? then idx + [last] else idx
  }

  /** A selection of the successes of a prefix extends by the last outcome. */
  lemma SelectsOneMore(outcomes: seq<Option<Template>>, idx: seq<nat>, picked: seq<Template>)
    requires outcomes != []
    requires SelectsSuccesses(outcomes[..|outcomes| - 1], idx, picked)
    ensures var last := |outcomes| - 1;
      && (outcomes[last].Some? ==> SelectsSuccesses(outcomes, idx + [last], picked + [outcomes[last].value]))
      && (outcomes[last].None? ==> SelectsSuccesses(outcomes, idx, picked))
  {
    var last := |outcomes| - 1;
    var init := outcomes[..last];
    assert forall i :: 0 <= i < last ==> outcomes[i] == init[i];
    if outcomes[last].Some? {
      var idx', picked' := idx + [last], picked + [outcomes[last].value];
      assert forall k :: 0 <= k < |idx| ==> idx'[k] == idx[k] && picked'[k] == picked[k];
      assert forall i :: 0 <= i < |outcomes| && outcomes[i].Some? ==> i in idx' by {
        forall i | 0 <= i < |outcomes| && outcomes[i].Some? ensures i in idx' {
          if i < last {
            assert init[i].Some?;
            assert i in idx;
          } else {
            assert idx'[|idx|] == i;
          }
        }
      }
    } else {
      forall i | 0 <= i < |outcomes| && outcomes[i].Some? ensures i in idx {
        assert i != last;
        assert init[i].Some?;
      }
    }
  }

  /** The outcomes of the attempts that follow the warm-up. */
  function PostWarmup(attempt: nat -> Option<Template>): (outcomes: seq<Option<Template>>)
    ensures |outcomes| == FRAMES_PER_CAPTURE
  {
    seq(FRAMES_PER_CAPTURE, k requires 0 <= k < FRAMES_PER_CAPTURE => attempt(WARMUP_FRAMES + k))
  }

  /** What `capture_video_frames` returns for a session. */
  function CaptureFrames(device: Device): Result<seq<Template>, string> {
    match device
    case Unavailable(reason) => Err(reason)
    case Streaming(attempt) =>
      var templates := Survivors(PostWarmup(attempt));
      if templates == [] then Err(NO_FACES) else Ok(templates)
  }

  /** A session yields between 1 and 15 templates, or an error exactly when
      the device failed or every attempt after the warm-up failed. */
  lemma CaptureFramesOutcome(device: Device)
    ensures CaptureFrames(device).Ok? ==> 1 <= |CaptureFrames(device).value| <= FRAMES_PER_CAPTURE
    ensures CaptureFrames(device).Err? <==>
      device.Unavailable? || forall k :: 0 <= k < FRAMES_PER_CAPTURE ==> PostWarmup(device.attempt)[k].None?
  {
  }

  /** The warm-up frames are discarded: two sessions that agree after the
      warm-up capture the same result. */
  lemma WarmupIgnored(a1: nat -> Option<Template>, a2: nat -> Option<Template>)
    requires forall k :: WARMUP_FRAMES <= k < WARMUP_FRAMES + FRAMES_PER_CAPTURE ==> a1(k) == a2(k)
    ensures CaptureFrames(Streaming(a1)) == CaptureFrames(Streaming(a2))
  {
    assert PostWarmup(a1) == PostWarmup(a2);
  }

  /** A session whose every attempt succeeds with `t` gives 15 copies of `t`. */
  lemma {:induction false} AllAttemptsSucceed(t: Template, n: nat, outcomes: seq<Option<Template>>)
    requires |outcomes| == n
    requires forall k :: 0 <= k < n ==> outcomes[k] == Some(t)
    ensures |Survivors(outcomes)| == n
    ensures forall k :: 0 <= k < n ==> Survivors(outcomes)[k] == t
  {
    if n > 0 {
      AllAttemptsSucceed(t, n - 1, outcomes[..n - 1]);
    }
  }

  /** `capture_video_frames`, loop for loop. */
  method CaptureVideoFrames(device: Device) returns (r: Result<seq<Template>, string>)
    ensures r == CaptureFrames(device)
  {
    if device.Unavailable? {
      return Err(device.reason);
    }
    var next: nat := 0;
    while next < WARMUP_FRAMES
      invariant next <= WARMUP_FRAMES
    {
      var _ := device.attempt(next);
      next := next + 1;
    }
    ghost var outcomes := PostWarmup(device.attempt);
    var templates: seq<Template> := [];
    for k := 0 to FRAMES_PER_CAPTURE
      invariant next == WARMUP_FRAMES + k
      invariant templates == Survivors(outcomes[..k])
    {
      assert outcomes[..k + 1][..k] == outcomes[..k];
      match device.attempt(next) {
        case Some(template) =>
          templates := templates + [template];
        case None =>
      }
      next := next + 1;
    }
    assert outcomes[..FRAMES_PER_CAPTURE] == outcomes;
    if templates == [] {
      return Err(NO_FACES);
    }
    return Ok(templates);
  }
}
