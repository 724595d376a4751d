/** The profile records on disk, one JSON file per enrolled user. */
module ProfileStore {
  import opened Wrappers
  import opened Profile
  import opened Environment

  /** The parsed profile records by path. A record that is missing or whose text
      does not parse as a profile is absent: loading treats both alike. */
  class ProfileFiles {
    var records: map<string, FaceProfile>

    constructor (initial: map<string, FaceProfile>)
      ensures records == initial
    {
      records := initial;
    }

    /** Writes (or overwrites) one record. */
    method Save(path: string, profile: FaceProfile)
      modifies this
      ensures records == old(records)[path := profile]
    {
      records := records[path := profile];
    }
  }

  /** `load_user_profile`: the record named after `username`, in the directory
      chosen from the acting identity, if there is one. */
  function LoadUserProfile(records: map<string, FaceProfile>, env: Env, dirs: set<string>, username: string)
    : (p: Option<FaceProfile>)
    ensures p.Some? <==> ProfilePath(DatasetDir(env, dirs), username) in records
    ensures p.Some? ==> p.value == records[ProfilePath(DatasetDir(env, dirs), username)]
  {
    var path := ProfilePath(DatasetDir(env, dirs), username);
    if path in records then Some(records[path]) else None
  }

  /** The directory comes from the environment, the file name from the user
      asked about: asking for another user's profile while acting as an
      ordinary user with a HOME looks in that user's own data directory. */
  lemma ProfileLookedUpInActingUsersDir(records: map<string, FaceProfile>, env: Env, dirs: set<string>, username: string)
    requires !Privileged(ActingUser(env)) && env.home.Some?
    ensures LoadUserProfile(records, env, dirs, username)
         == (var path := env.home.value + USER_DATA_SUFFIX + "/" + username + ".json";
             if path in records then Some(records[path]) else None)
  {
    assert ProfilePath(DatasetDir(env, dirs), username) == env.home.value + USER_DATA_SUFFIX + "/" + username + ".json";
  }
}
