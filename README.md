# SayHi face authentication, modelled in Dafny

SayHi is a small camera-based face-authentication helper for Linux (`src/main.rs`).
`enroll <user>` records templates in three capture rounds and writes them as a JSON profile.
`auth [user]` captures a live batch and scores it against the enrolled templates.
It accepts at a score of 0.65 or more. A per-user counter in `/tmp` refuses the fourth attempt after three failures.

This project models the decision and aggregation logic around the camera, image and JSON libraries:

- `environment.dfy` (module `Environment`): the username chain, i.e. the argument, then `PAM_USER`, then `USER`, then `"unknown"`. It also holds the dataset-directory policy of `get_dataset_dir` and the profile file name.
- `profile.dfy`, `profile_store.dfy`: the `FaceProfile` record and the profile files, which `load_user_profile` reads and enrollment writes.
- `similarity.dfy`: the guard structure of `compare_templates`. It also holds `compare_templates_batch` as a method with the real nested strided loops, proved equal to a specification `BatchScore`, with lemmas about sampling, best matches and the mean.
- `capture.dfy`: `capture_video_frames` as a method: 5 warm-up captures, then 15 attempts whose failures are dropped. It is proved equal to a fold that keeps the successes in order.
- `attempt_counter.dfy`: the text of the counter file. Writing is `i32::to_string`. Reading is `trim` (Unicode White_Space), then `parse::<i32>`, with 0 on failure. Reading what was written gives the counter back.
- `enrollment.dfy`: `enroll_user` as a method over three rounds with the minimum of 10 templates.
- `authentication.dfy`: `authenticate` as a method over the `/tmp` counter files, proved equal to a transition function `AuthStep`, and the limiter properties of that function.

The Pearson arithmetic is abstract. A `Correlator` maps two templates to the coefficient, or to `Degenerate` when the denominator is zero.
A camera session is a `Device`. It is either `Unavailable(reason)`, or `Streaming(attempt)`, which maps the n-th capture call of the session to the template that capture, decoding and preprocessing produced, or to `None` when any of them failed.
The clock (`get_timestamp`) is a `now` parameter. The existing paths that `get_dataset_dir` probes are a `dirs` parameter.

Some consequences of the code that the model makes explicit:
- `created_at` is the decimal count of seconds since the epoch, kept as a `String`.
- The live stride is `max(1, len/5)`. So 6 to 9 live templates are all sampled, and at most 9 live templates are ever sampled. The stored stride is `max(1, len/10)`, which gives at most 19 stored samples (`NineLiveTemplatesNineSamples`, `LiveSamplesAtMostNine`, `StoredSamplesAtMostNineteen`).
- The profile directory is chosen from the acting identity in the environment. The file name is the user asked about (`ProfileLookedUpInActingUsersDir`).
- The counter is parsed as an `i32`. A negative value in the counter file is accepted, which allows more than three failures before the lockout (`NegativeCounterAccepted`).

## Model

| member | source | states |
|---|---|---|
| Environment.ActingUser | src/main.rs:35-37 | the acting identity is PAM_USER if set, else USER if set, else "unknown" |
| Environment.ResolveUsername | src/main.rs:167-171 | the `auth` user is the command-line argument when given, otherwise exactly the acting identity |
| Environment.SharedDirOnlyWhenPrivileged | src/main.rs:39-52 | the dataset directory is the bare `/var/lib/sayhilinux` if and only if the acting identity is `root` or `unknown`; every other branch yields a different path |
| Environment.DatasetDir | src/main.rs:33-53 | every dataset directory is the shared `/var/lib/sayhilinux`, a path below it, or ends in the per-user `/.local/share/sayhilinux` |
| Environment.UserDirShape | src/main.rs:43-52 | for an ordinary user, HOME wins whatever exists on the machine and gives `HOME/.local/share/sayhilinux`; without HOME, `/home/<user>/.local/share/sayhilinux` is used exactly when `/home/<user>` exists, and `/var/lib/sayhilinux/<user>` otherwise |
| Environment.FallbackDirsDistinct | src/main.rs:47-52 | two different ordinary user names with no HOME and no home directory get different fallback directory strings |
| Environment.ProfilePathInjective | src/main.rs:351 | different user names give different profile path strings in one dataset directory |
| ProfileStore.LoadUserProfile | src/main.rs:350-356 | a profile is found exactly when the record `<dataset dir>/<username>.json` is present (and parses), and it is that record |
| ProfileStore.ProfileLookedUpInActingUsersDir | src/main.rs:351 | for an ordinary acting user with HOME, the profile of any user asked about is looked up in `HOME/.local/share/sayhilinux/<asked user>.json` |
| ProfileStore.ProfileFiles.Save | src/main.rs:153-156 | writing a profile replaces exactly the record at its path |
| Similarity.CompareTemplates | src/main.rs:327-348 | unequal lengths score 0; a zero denominator scores 0; a coefficient in [-1,1] gives a score in [0,1]; the score is 1 iff lengths agree and the coefficient is 1; the coefficient is recovered as 2s-1 |
| Similarity.Stride | src/main.rs:313-314 | the stride is at least 1, is len/divisor from the divisor on, and 1 below it |
| Similarity.StepBy | src/main.rs:315 | every index visited by `step_by` lies inside the batch |
| Similarity.StepByMembers | src/main.rs:315-317 | the visited indices are exactly the multiples of the stride below the length |
| Similarity.StepByIncreasing | src/main.rs:315-317 | the visited indices are strictly increasing |
| Similarity.LiveSamplesAtMostNine | src/main.rs:313-315 | the live batch is sampled at most 9 times |
| Similarity.StoredSamplesAtMostNineteen | src/main.rs:314-317 | the stored batch is sampled at most 19 times |
| Similarity.SmallLiveBatchFullySampled | src/main.rs:313-315 | a live batch of fewer than 10 templates is sampled at every index |
| Similarity.NineLiveTemplatesNineSamples | src/main.rs:313-315 | 9 live templates give 9 samples |
| Similarity.BestMatch | src/main.rs:316-320 | the best match is at least 0 and at least every score, and is 0 or one of the scores (the maximum of 0 and the scores) |
| Similarity.BestMatchAgainst | src/main.rs:316-320 | the inner loop computes the best match of a live template over the sampled stored templates |
| Similarity.CompareTemplatesBatch | src/main.rs:310-325 | the nested loops compute the mean of the per-live-sample best matches over the strided samples (`BatchScore`) |
| Similarity.EmptyLiveBatchScoresZero | src/main.rs:324 | an empty live batch scores 0 |
| Similarity.EmptyStoredBatchScoresZero | src/main.rs:316-324 | an empty enrolled batch scores 0, because every best match stays 0 |
| Similarity.BestMatchDominates | src/main.rs:316-320 | each sampled live template's best match is non-negative, dominates its score against every sampled stored template, and is 0 or one of them |
| Similarity.BatchScoreInUnitInterval | src/main.rs:310-325 | with coefficients in [-1,1] the batch score lies in [0,1] |
| Similarity.UniformBatchesScore | src/main.rs:310-325 | batches made of one template score that template's self-score |
| Similarity.SmallBatchAgainstItselfScoresOne | src/main.rs:313-324 | a batch of fewer than 20 templates scored against itself scores 1 when each template correlates perfectly with itself |
| Similarity.BatchScoreAsymmetric | src/main.rs:313-324 | swapping live and enrolled batches can change the score (0.5 one way, 1 the other) |
| Capture.Survivors | src/main.rs:250-258 | the kept templates are no more than the attempts, and none are kept iff every attempt failed |
| Capture.SurvivorPositions | src/main.rs:250-258 | the kept templates are the in-order subsequence of the successful attempts, with every success kept |
| Capture.CaptureFramesOutcome | src/main.rs:244-264 | a session yields 1 to 15 templates, or an error exactly when the device failed or all 15 post-warm-up attempts failed |
| Capture.WarmupIgnored | src/main.rs:246-249 | the 5 warm-up captures do not influence the result |
| Capture.AllAttemptsSucceed | src/main.rs:251-258 | when every attempt succeeds with one template, every attempt's template is kept |
| Capture.CaptureVideoFrames | src/main.rs:244-265 | the warm-up and capture loops return the capture fold's result |
| AttemptCounter.TrimStart | src/main.rs:180 | trimming the front removes exactly the leading whitespace and leaves a suffix starting with a non-whitespace character |
| AttemptCounter.TrimEnd | src/main.rs:180 | trimming the back removes exactly the trailing whitespace and leaves a prefix ending with a non-whitespace character |
| AttemptCounter.ParseI32 | src/main.rs:180 | a successful parse yields a value in the i32 range |
| AttemptCounter.ParseAttempts | src/main.rs:179-181 | the counter read is an i32, and unparsable text counts as 0 |
| AttemptCounter.NatToDecimal | src/main.rs:215 | the rendering is a non-empty run of digits without a leading zero |
| AttemptCounter.DecimalRoundTrip | src/main.rs:215 | the decimal digits written for a number read back as that number |
| AttemptCounter.RenderParseRoundTrip | src/main.rs:180-215 | a counter written with `to_string` is read back by trim-and-parse as the same counter |
| Enrollment.Collected | src/main.rs:118-140 | after n rounds at most 15·n templates have been collected |
| Enrollment.EnrollProfileOutcome | src/main.rs:142-151 | at most 45 templates; a profile is made iff at least 10 were collected, and it holds all of them, the enrolled username and the time |
| Enrollment.FailedRoundContributesNothing | src/main.rs:128-137 | a failed round adds nothing and still uses one of the three rounds |
| Enrollment.AllFramesUsable | src/main.rs:118-151 | three rounds of 15 usable frames give a 45-template profile |
| Enrollment.EnrollUser | src/main.rs:108-163 | the round loop returns the enrollment result and writes the profile only on success, at `<dataset dir>/<username>.json` |
| Authentication.AttemptsPathInjective | src/main.rs:175 | different user names give different counter path strings |
| Authentication.Attempts | src/main.rs:177-181 | the counter read is an i32, and 0 when the file is missing |
| Authentication.ExitStatus | src/main.rs:183-227 | the process exits 0 exactly on a granted attempt, 1 otherwise |
| Authentication.AuthStep | src/main.rs:165-229 | only the user's counter file changes; the attempt is blocked iff the counter is at least 3, and then the file is deleted; a missing profile or a capture error leaves the files unchanged; granted implies score ≥ 0.65 and the file deleted; denied implies score < 0.65 and the counter read next time is one higher; below the limit with a profile found, the outcome is `CaptureFailed` exactly when the capture fails, and otherwise it is granted or denied on the batch score of the live templates against the profile's templates |
| Authentication.Verdict | src/main.rs:203-222 | at or above 0.65 grant and delete the file; below, deny and store the counter plus one, which parses back as such |
| Authentication.Authenticate | src/main.rs:165-229 | the imperative `authenticate` produces `AuthStep`'s outcome and counter files |
| Authentication.ThreeDenialsBlockTheFourth | src/main.rs:179-222 | from no counter, three denials in a row leave the counter at 3, and the fourth attempt is blocked whatever profile or camera it would meet, deleting the counter |
| Authentication.GrantResetsCount | src/main.rs:205-206 | after a granted attempt the counter reads as 0 |
| Authentication.NegativeCounterAccepted | src/main.rs:179-183 | a counter file holding "-5" is read as -5, not rejected |
| Authentication.EnrollThenAuthenticate | src/main.rs:189-212 | enrolling with three rounds of a repeated frame and then authenticating against that frame is granted with confidence 1 and leaves no counter |
| Authentication.AttemptFiles.Write | src/main.rs:215 | writing the counter replaces exactly that file |
| Authentication.AttemptFiles.RemoveFile | src/main.rs:185 | removing the counter deletes exactly that file |

## Left out

- The Pearson arithmetic of `compare_templates` (f32 sums, `sqrt`, rounding) is not modelled. The coefficient is an abstract `Correlator`, and `BoundedCorrelator` states the [-1, 1] range that Pearson's coefficient has. Scores and the 0.65 comparison are exact reals, not f32.
- Similarity.CompareTemplates: with two empty templates the f32 code divides by n = 0 and returns NaN rather than 0. The model returns whatever the correlator gives. `process_face_image` makes 64×64 = 4096-sample templates, so only a profile record holding empty templates could reach this. Template lengths are not constrained in the model, because the preprocessing is not modelled.
- `process_face_image` (image library resize and adaptive threshold), `image::load_from_memory` and the camera capture are folded into the `Option<Template>` outcome of each attempt. They call libraries outside the model.
- `setup_camera` (device discovery among `/dev/video0` and `/dev/video1`, format configuration) becomes `Device.Unavailable(reason)`. The sleeps between captures are not modelled. All of this is device I/O.
- `capture_frame`, `test_camera` and `analyze_image_quality` are not modelled. They are a diagnostic self-test with float statistics.
- The serde JSON encoding and decoding of `FaceProfile` is not modelled. Profile records are held already parsed, and a record that does not parse is absent, because `load_user_profile` treats both alike.
- A counter file that cannot be read as UTF-8 is not distinguished from a missing file. Both give 0 in the code.
- Failures of `fs::write` and `fs::remove_file` on the counter file are ignored by the code (`let _`), and the model assumes they succeed. The failures of `create_dir_all` and of the profile `fs::write` in `enroll_user` exit with status 1. The model assumes the writes succeed (file-system I/O).
- `log_pam`, `main`'s argument dispatch, the stdin prompt before each enrollment round, and console output are not modelled. They are process and terminal plumbing. `process::exit` is modelled as the returned outcome and `ExitStatus`.
- Paths are compared as strings: `/`, `.` and `..` inside a user name are not resolved. So `Environment.ProfilePathInjective`, `Environment.FallbackDirsDistinct` and `Authentication.AttemptsPathInjective` show that different names give different path strings, not different files. For example, `enroll ./alice` and `enroll alice` write the same file.
- The counter file is read, modified and written without a lock, so concurrent `auth` runs for one user can lose updates. The model covers single-threaded transitions only.
