/** `enroll_user`: three capture rounds, then a profile if enough templates
    were collected. */
module Enrollment {
  import opened Wrappers
  import opened Profile
  import opened Environment
  import opened Capture
  import opened ProfileStore

  const ENROLLMENT_CAPTURES: nat := 3
  const MIN_TEMPLATES: nat := 10

  datatype EnrollError = InsufficientFrames(collected: nat)

  /** What one round contributes: its templates, or nothing when it failed. */
  function RoundTemplates(device: Device): seq<Template> {
    match CaptureFrames(device)
    case Ok(ts) => ts
    case Err(_) => []
  }

  /** The templates of the first `rounds` rounds, in round order. `session(i)`
      is the camera session of round i + 1. */
  function Collected(session: nat -> Device, rounds: nat): (all: seq<Template>)
    ensures |all| <= rounds * FRAMES_PER_CAPTURE
  {
    if rounds == 0 then []
    else
      CaptureFramesOutcome(session(rounds - 1));
      Collected(session, rounds - 1) + RoundTemplates(session(rounds - 1))
  }

  /** The profile enrollment builds, or why it builds none. */
  function EnrollProfile(username: string, session: nat -> Device, now: string): Result<FaceProfile, EnrollError> {
    var all := Collected(session, ENROLLMENT_CAPTURES);
    if |all| < MIN_TEMPLATES then Err(InsufficientFrames(|all|))
    else Ok(FaceProfile(username, all, now))
  }

  /** Enrollment writes a profile exactly when the three rounds together gave at
      least 10 templates; the profile holds them all (at most 45), is owned by
      the enrolled user and is stamped with the enrollment time. */
  lemma EnrollProfileOutcome(username: string, session: nat -> Device, now: string)
    ensures var all := Collected(session, ENROLLMENT_CAPTURES);
      && |all| <= ENROLLMENT_CAPTURES * FRAMES_PER_CAPTURE
      && (EnrollProfile(username, session, now).Ok? <==> |all| >= MIN_TEMPLATES)
      && (EnrollProfile(username, session, now).Ok? ==>
            EnrollProfile(username, session, now).value == FaceProfile(username, all, now))
  {
  }

  /** A failed round adds nothing but still uses up its turn: the collection
      is the successful rounds' templates only, in round order. */
  lemma FailedRoundContributesNothing(session: nat -> Device, failed: nat)
    requires failed < ENROLLMENT_CAPTURES && CaptureFrames(session(failed)).Err?
    ensures Collected(session, ENROLLMENT_CAPTURES)
         == (if failed == 0 then [] else RoundTemplates(session(0)))
          + (if failed == 1 then [] else RoundTemplates(session(1)))
          + (if failed == 2 then [] else RoundTemplates(session(2)))
  {
    assert Collected(session, 1) == RoundTemplates(session(0));
  }

  /** With every frame usable, three rounds of 15 give a 45-template profile. */
  lemma AllFramesUsable(username: string, t: Template, now: string)
    ensures var session := (i: nat) => Streaming((n: nat) => Some(t));
      && EnrollProfile(username, session, now).Ok?
      && |EnrollProfile(username, session, now).value.faceTemplates| == ENROLLMENT_CAPTURES * FRAMES_PER_CAPTURE
      && forall k :: 0 <= k < ENROLLMENT_CAPTURES * FRAMES_PER_CAPTURE ==>
           EnrollProfile(username, session, now).value.faceTemplates[k] == t
  {
    var session := (i: nat) => Streaming((n: nat) => Some(t));
    var outcomes := PostWarmup((n: nat) => Some(t));
    AllAttemptsSucceed(t, FRAMES_PER_CAPTURE, outcomes);
    var round := Survivors(outcomes);
    assert forall i: nat :: RoundTemplates(session(i)) == round;
    var all := Collected(session, ENROLLMENT_CAPTURES);
    assert all == round + round + round;
  }

  /** `enroll_user`, loop for loop. The profile is written to the record of
      `username` in the directory chosen from the environment. */
  method EnrollUser(username: string, env: Env, dirs: set<string>, session: nat -> Device, now: string,
                    store: ProfileFiles)
    returns (r: Result<FaceProfile, EnrollError>)
    modifies store
    ensures r == EnrollProfile(username, session, now)
    ensures store.records == if r.Ok? then old(store.records)[ProfilePath(DatasetDir(env, dirs), username) := r.value]
                             else old(store.records)
  {
    var datasetDir := DatasetDir(env, dirs);
    var allTemplates: seq<Template> := [];
    for captureNum := 1 to ENROLLMENT_CAPTURES + 1
      invariant allTemplates == Collected(session, captureNum - 1)
      invariant store.records == old(store.records)
    {
      var captured := CaptureVideoFrames(session(captureNum - 1));
      if captured.Err? {
        continue;
      }
      allTemplates := allTemplates + captured.value;
    }
    assert allTemplates == Collected(session, ENROLLMENT_CAPTURES);
    if |allTemplates| < MIN_TEMPLATES {
      return Err(InsufficientFrames(|allTemplates|));
    }
    var profile := FaceProfile(username, allTemplates, now);
    store.Save(ProfilePath(datasetDir, username), profile);
    return Ok(profile);
  }
}
