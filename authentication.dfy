/** `authenticate`: the attempt limiter in /tmp and the accept/deny decision. */
module Authentication {
  import opened Wrappers
  import opened Profile
  import opened Environment
  import opened Capture
  import opened ProfileStore
  import opened Similarity
  import opened AttemptCounter
  import opened Enrollment

  const MAX_ATTEMPTS: int := 3
  const THRESHOLD: real := 0.65
  const ATTEMPTS_PREFIX: string := "/tmp/sayhi-attempts-"

  /** The counter file of `username`. */
  function AttemptsPath(username: string): string {
    ATTEMPTS_PREFIX + username
  }

  /** Each user has a counter file of their own. */
  lemma AttemptsPathInjective(u1: string, u2: string)
    requires u1 != u2
    ensures AttemptsPath(u1) != AttemptsPath(u2)
  {
    assert AttemptsPath(u1)[|ATTEMPTS_PREFIX|..] == u1;
    assert AttemptsPath(u2)[|ATTEMPTS_PREFIX|..] == u2;
  }

  /** The counter files present in /tmp, by path, with their text. */
  class AttemptFiles {
    var files: map<string, string>

    constructor (initial: map<string, string>)
      ensures files == initial
    {
      files := initial;
    }

    /** `fs::write`: creates or replaces the file. */
    method Write(path: string, content: string)
      modifies this
      ensures files == old(files)[path := content]
    {
      files := files[path := content];
    }

    /** `fs::remove_file`: removing a file that is not there changes nothing. */
    method RemoveFile(path: string)
      modifies this
      ensures files == old(files) - {path}
    {
      files := files - {path};
    }
  }

  /** The counter of `username` as `authenticate` reads it: a missing file
      counts as 0, and so does unparsable text. */
  function Attempts(files: map<string, string>, username: string): (n: int)
    ensures InI32(n)
    ensures AttemptsPath(username) !in files ==> n == 0
  {
    var path := AttemptsPath(username);
    if path in files then ParseAttempts(files[path]) else 0
  }

  datatype AuthOutcome =
    | Blocked
    | ProfileNotFound
    | CaptureFailed(reason: string)
    | Granted(confidence: real)
    | Denied(confidence: real)

  /** The process exit status `authenticate` ends with. */
  function ExitStatus(outcome: AuthOutcome): (code: int)
    ensures code == 0 <==> outcome.Granted?
    ensures code == 0 || code == 1
  {
    if outcome.Granted? then 0 else 1
  }

  /** One call of `authenticate`: its outcome and the counter files afterwards.
      `records` are the profile records, `device` the camera session and
      `corr` the correlation of two templates. */
  function AuthStep(usernameArg: Option<string>, env: Env, dirs: set<string>,
                    records: map<string, FaceProfile>, device: Device, corr: Correlator,
                    files: map<string, string>)
    : (res: (AuthOutcome, map<string, string>))
    // only the counter file of the resolved user may change
    ensures forall p :: p != AttemptsPath(ResolveUsername(usernameArg, env)) ==>
      (p in res.1 <==> p in files) && (p in files ==> res.1[p] == files[p])
    // the limit is checked first; reaching it refuses the attempt and deletes the counter
    ensures res.0.Blocked? <==> Attempts(files, ResolveUsername(usernameArg, env)) >= MAX_ATTEMPTS
    ensures res.0.Blocked? ==> AttemptsPath(ResolveUsername(usernameArg, env)) !in res.1
    // a missing profile or a failed capture is not charged
    ensures res.0.ProfileNotFound? <==>
      Attempts(files, ResolveUsername(usernameArg, env)) < MAX_ATTEMPTS
      && LoadUserProfile(records, env, dirs, ResolveUsername(usernameArg, env)).None?
    ensures res.0.ProfileNotFound? || res.0.CaptureFailed? ==> res.1 == files
    // a match clears the counter, a mismatch adds one to it
    ensures res.0.Granted? ==>
      res.0.confidence >= THRESHOLD && AttemptsPath(ResolveUsername(usernameArg, env)) !in res.1
    ensures res.0.Denied? ==>
      && res.0.confidence < THRESHOLD
      && Attempts(res.1, ResolveUsername(usernameArg, env)) == Attempts(files, ResolveUsername(usernameArg, env)) + 1
    // once past the limit and the profile lookup, the capture decides: a failed
    // capture is reported as such, and a successful one is judged by its batch score
    ensures var u := ResolveUsername(usernameArg, env);
      var p := LoadUserProfile(records, env, dirs, u);
      Attempts(files, u) < MAX_ATTEMPTS && p.Some? ==>
        && (res.0.CaptureFailed? <==> CaptureFrames(device).Err?)
        && (CaptureFrames(device).Ok? ==>
              var s := BatchScore(CaptureFrames(device).value, p.value.faceTemplates, corr);
              res.0 == (if s >= THRESHOLD then Granted(s) else Denied(s)))
  {
    var username := ResolveUsername(usernameArg, env);
    var path := AttemptsPath(username);
    var current := Attempts(files, username);
    if current >= MAX_ATTEMPTS then (Blocked, files - {path})
    else
      match LoadUserProfile(records, env, dirs, username)
      case None => (ProfileNotFound, files)
      case Some(profile) =>
        match CaptureFrames(device)
        case Err(e) => (CaptureFailed(e), files)
        case Ok(live) => Verdict(BatchScore(live, profile.faceTemplates, corr), current, path, files)
  }

  /** The decision once a score is known: accept and delete the counter file,
      or deny and store the counter plus one. */
  function Verdict(similarity: real, current: int, path: string, files: map<string, string>)
    : (res: (AuthOutcome, map<string, string>))
    requires InI32(current) && current < MAX_ATTEMPTS
    ensures res.0 == (if similarity >= THRESHOLD then Granted(similarity) else Denied(similarity))
    ensures res.0.Granted? ==> res.1 == files - {path}
    ensures res.0.Denied? ==>
      && res.1 == files[path := Render(current + 1)]
      && ParseAttempts(res.1[path]) == current + 1
  {
    if similarity >= THRESHOLD then (Granted(similarity), files - {path})
    else
      RenderParseRoundTrip(current + 1);
      (Denied(similarity), files[path := Render(current + 1)])
  }

  /** `authenticate`, statement for statement. */
  method Authenticate(usernameArg: Option<string>, env: Env, dirs: set<string>, profiles: ProfileFiles,
                      device: Device, corr: Correlator, counters: AttemptFiles)
    returns (outcome: AuthOutcome)
    modifies counters
    ensures (outcome, counters.files) == AuthStep(usernameArg, env, dirs, profiles.records, device, corr, old(counters.files))
  {
    ghost var files0 := counters.files;
    var username := ResolveUsername(usernameArg, env);
    var attemptsFile := AttemptsPath(username);
    var currentAttempts := 0;
    if attemptsFile in counters.files {
      currentAttempts := ParseAttempts(counters.files[attemptsFile]);
    }
    assert currentAttempts == Attempts(files0, username);
    if currentAttempts >= MAX_ATTEMPTS {
      counters.RemoveFile(attemptsFile);
      return Blocked;
    }
    var profile := LoadUserProfile(profiles.records, env, dirs, username);
    if profile.None? {
      return ProfileNotFound;
    }
    var captured := CaptureVideoFrames(device);
    if captured.Err? {
      return CaptureFailed(captured.error);
    }
    var similarity := CompareTemplatesBatch(captured.value, profile.value.faceTemplates, corr);
    ghost var verdict := Verdict(similarity, currentAttempts, attemptsFile, files0);
    assert AuthStep(usernameArg, env, dirs, profiles.records, device, corr, files0) == verdict;
    if similarity >= THRESHOLD {
      counters.RemoveFile(attemptsFile);
      return Granted(similarity);
    }
    currentAttempts := currentAttempts + 1;
    counters.Write(attemptsFile, Render(currentAttempts));
    return Denied(similarity);
  }

  /** Starting with no counter, three denied attempts in a row make the fourth
      attempt refused, whatever profile and camera it would have met, and that
      refusal deletes the counter again. */
  lemma ThreeDenialsBlockTheFourth(usernameArg: Option<string>, env: Env, dirs: set<string>,
                                   records: map<string, FaceProfile>, corr: Correlator,
                                   d1: Device, d2: Device, d3: Device, d4: Device,
                                   records4: map<string, FaceProfile>, files: map<string, string>)
    requires AttemptsPath(ResolveUsername(usernameArg, env)) !in files
    requires AuthStep(usernameArg, env, dirs, records, d1, corr, files).0.Denied?
    requires var f1 := AuthStep(usernameArg, env, dirs, records, d1, corr, files).1;
      AuthStep(usernameArg, env, dirs, records, d2, corr, f1).0.Denied?
    requires var f1 := AuthStep(usernameArg, env, dirs, records, d1, corr, files).1;
      var f2 := AuthStep(usernameArg, env, dirs, records, d2, corr, f1).1;
      AuthStep(usernameArg, env, dirs, records, d3, corr, f2).0.Denied?
    ensures var f1 := AuthStep(usernameArg, env, dirs, records, d1, corr, files).1;
      var f2 := AuthStep(usernameArg, env, dirs, records, d2, corr, f1).1;
      var f3 := AuthStep(usernameArg, env, dirs, records, d3, corr, f2).1;
      var (o4, f4) := AuthStep(usernameArg, env, dirs, records4, d4, corr, f3);
      && Attempts(f3, ResolveUsername(usernameArg, env)) == MAX_ATTEMPTS
      && o4 == Blocked
      && AttemptsPath(ResolveUsername(usernameArg, env)) !in f4
  {
  }

  /** A granted attempt at any point before the limit starts the count over. */
  lemma GrantResetsCount(usernameArg: Option<string>, env: Env, dirs: set<string>,
                         records: map<string, FaceProfile>, device: Device, corr: Correlator,
                         files: map<string, string>)
    requires AuthStep(usernameArg, env, dirs, records, device, corr, files).0.Granted?
    ensures Attempts(AuthStep(usernameArg, env, dirs, records, device, corr, files).1,
                     ResolveUsername(usernameArg, env)) == 0
  {
  }

  /** The counter file is trusted as it is: a negative value is accepted, and
      then more than three denials pass before the lockout. */
  lemma NegativeCounterAccepted(files: map<string, string>, username: string)
    requires AttemptsPath(username) in files && files[AttemptsPath(username)] == "-5"
    ensures Attempts(files, username) == -5
  {
    assert DigitChar(5) == '5';
    assert NatToDecimal(5) == "5";
    assert Render(-5) == "-5";
    RenderParseRoundTrip(-5);
  }

  /** Enrolling with three rounds of one usable frame repeated, then
      authenticating the same user, in the same environment, against that frame
      with perfect self-correlation is granted with confidence 1 and leaves no
      counter behind. */
  lemma EnrollThenAuthenticate(username: string, env: Env, dirs: set<string>, t: Template, now: string,
                               records: map<string, FaceProfile>, corr: Correlator,
                               files: map<string, string>)
    requires BoundedCorrelator(corr) && corr(t, t) == Coefficient(1.0)
    requires Attempts(files, username) < MAX_ATTEMPTS
    ensures var session := (i: nat) => Streaming((n: nat) => Some(t));
      var enrolled := EnrollProfile(username, session, now);
      && enrolled.Ok?
      && var records' := records[ProfilePath(DatasetDir(env, dirs), username) := enrolled.value];
         AuthStep(Some(username), env, dirs, records', Streaming((n: nat) => Some(t)), corr, files)
           == (Granted(1.0), files - {AttemptsPath(username)})
  {
    var session := (i: nat) => Streaming((n: nat) => Some(t));
    AllFramesUsable(username, t, now);
    var enrolled := EnrollProfile(username, session, now);
    var records' := records[ProfilePath(DatasetDir(env, dirs), username) := enrolled.value];
    var device := Streaming((n: nat) => Some(t));
    var outcomes := PostWarmup((n: nat) => Some(t));
    AllAttemptsSucceed(t, FRAMES_PER_CAPTURE, outcomes);
    var live := Survivors(outcomes);
    assert CaptureFrames(device) == Ok(live);
    UniformBatchesScore(live, enrolled.value.faceTemplates, t, corr);
  }
}
