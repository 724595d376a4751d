/** Who the helper acts for, and where it keeps the enrolled profiles. */
module Environment {
  import opened Wrappers

  /** The environment variables the helper consults; `None` is an unset
      (or non-Unicode) variable. */
  datatype Env = Env(pamUser: Option<string>, user: Option<string>, home: Option<string>)

  const SHARED_DIR: string := "/var/lib/sayhilinux"
  const USER_DATA_SUFFIX: string := "/.local/share/sayhilinux"
  const HOME_ROOT: string := "/home/"
  const UNKNOWN_USER: string := "unknown"
  const ROOT_USER: string := "root"

  /** The acting identity: PAM_USER, else USER, else "unknown". */
  function ActingUser(env: Env): (u: string)
    ensures env.pamUser.Some? ==> u == env.pamUser.value
    ensures env.pamUser.None? && env.user.Some? ==> u == env.user.value
    ensures env.pamUser.None? && env.user.None? ==> u == UNKNOWN_USER
  {
    match env.pamUser
    case Some(p) => p
    case None =>
      match env.user
      case Some(u) => u
      case None => UNKNOWN_USER
  }

  /** The user `auth` works for: the command-line argument, else the acting identity. */
  function ResolveUsername(usernameArg: Option<string>, env: Env): (u: string)
    ensures usernameArg.Some? ==> u == usernameArg.value
    ensures usernameArg.None? ==> u == ActingUser(env)
  {
    match usernameArg
    case Some(a) => a
    case None => ActingUser(env)
  }

  predicate Privileged(user: string) {
    user == ROOT_USER || user == UNKNOWN_USER
  }

  /** Where profiles are kept. `dirs` is the set of paths that exist on the machine;
      only "/home/<user>" is ever asked about. */
  function DatasetDir(env: Env, dirs: set<string>): (d: string)
    // every choice is the shared directory, a path below it, or a per-user data directory
    ensures || (|d| >= |SHARED_DIR| && d[..|SHARED_DIR|] == SHARED_DIR)
            || (|d| >= |USER_DATA_SUFFIX| && d[|d| - |USER_DATA_SUFFIX|..] == USER_DATA_SUFFIX)
  {
    var user := ActingUser(env);
    if Privileged(user) then SHARED_DIR
    else if env.home.Some? then env.home.value + USER_DATA_SUFFIX
    else
      var homePath := HOME_ROOT + user;
      if homePath in dirs then homePath + USER_DATA_SUFFIX
      else SHARED_DIR + "/" + user
  }

  /** The bare shared directory is used exactly for root and for an unresolved
      identity: every other case yields a longer path. */
  lemma SharedDirOnlyWhenPrivileged(env: Env, dirs: set<string>)
    ensures DatasetDir(env, dirs) == SHARED_DIR <==> Privileged(ActingUser(env))
  {
    var d := DatasetDir(env, dirs);
    if !Privileged(ActingUser(env)) {
      assert |SHARED_DIR| < |USER_DATA_SUFFIX|;
      assert |d| > |SHARED_DIR|;
    }
  }

  /** For an ordinary user: HOME wins whatever exists on the machine; without
      HOME the data directory under "/home/<user>" is used exactly when that
      home directory exists, and otherwise the user's directory below the
      shared one. */
  lemma UserDirShape(env: Env, dirs: set<string>)
    requires !Privileged(ActingUser(env))
    ensures env.home.Some? ==> DatasetDir(env, dirs) == env.home.value + USER_DATA_SUFFIX
    ensures env.home.None? ==>
      (DatasetDir(env, dirs) == HOME_ROOT + ActingUser(env) + USER_DATA_SUFFIX
       <==> HOME_ROOT + ActingUser(env) in dirs)
    ensures env.home.None? && HOME_ROOT + ActingUser(env) !in dirs ==>
      DatasetDir(env, dirs) == SHARED_DIR + "/" + ActingUser(env)
  {
    var d := DatasetDir(env, dirs);
    if env.home.None? && HOME_ROOT + ActingUser(env) !in dirs {
      // "/var/..." and "/home/..." differ in their second character
      var h := HOME_ROOT + ActingUser(env) + USER_DATA_SUFFIX;
      assert d[1] == 'v' && h[1] == 'h';
    }
  }

  /** Two ordinary users with no HOME and no home directory get distinct
      fallback directories under the shared one. */
  lemma FallbackDirsDistinct(env1: Env, env2: Env, dirs: set<string>)
    requires !Privileged(ActingUser(env1)) && !Privileged(ActingUser(env2))
    requires env1.home.None? && env2.home.None?
    requires HOME_ROOT + ActingUser(env1) !in dirs && HOME_ROOT + ActingUser(env2) !in dirs
    requires ActingUser(env1) != ActingUser(env2)
    ensures DatasetDir(env1, dirs) != DatasetDir(env2, dirs)
  {
    var p := SHARED_DIR + "/";
    var d1, d2 := DatasetDir(env1, dirs), DatasetDir(env2, dirs);
    assert d1[|p|..] == ActingUser(env1);
    assert d2[|p|..] == ActingUser(env2);
  }

  /** The profile record of `username` inside dataset directory `dir`. */
  function ProfilePath(dir: string, username: string): string {
    dir + "/" + username + ".json"
  }

  /** The record name keeps the whole user name: distinct users in one
      directory have distinct records. */
  lemma ProfilePathInjective(dir: string, u1: string, u2: string)
    requires u1 != u2
    ensures ProfilePath(dir, u1) != ProfilePath(dir, u2)
  {
    var p1, p2 := ProfilePath(dir, u1), ProfilePath(dir, u2);
    var n := |dir| + 1;
    assert p1[n..n + |u1|] == u1;
    if |u1| == |u2| {
      assert p2[n..n + |u1|] == u2;
    } else {
      assert |p1| != |p2|;
    }
  }
}
