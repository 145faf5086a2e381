/** The `NODE_ENV` selector of npm_rs: its default, the mapping from a Cargo
    build profile name, and the value `with_node_env` requests for the
    `NODE_ENV` variable. */
module NodeEnvs {

  datatype NodeEnv = Development | Production | Custom(value: string)

  /** Name of the environment variable `with_node_env` sets. */
  const NodeEnvKey: string := "NODE_ENV"

  /** The variable value each selector stands for (the match in `with_node_env`). */
  function Value(e: NodeEnv): string
  {
    match e
    case Development => "development"
    case Production => "production"
    case Custom(c) => c
  }

  /** The pure match of `from_cargo_profile`, on an already-read profile name. */
  function FromProfile(profile: string): (e: NodeEnv)
    ensures e.Custom? <==> profile != "debug" && profile != "release"
  {
    if profile == "debug" then Development
    else if profile == "release" then Production
    else Custom(profile)
  }

  /** `NodeEnv::default()`: the same selector a debug build gets, and it
      renders as "development". */
  function Default(): (e: NodeEnv)
    ensures e == FromProfile("debug")
    ensures Value(e) == "development"
  {
    Development
  }

  /** The key/value pair `with_node_env` hands to `with_env`. */
  function NodeEnvVariable(e: NodeEnv): (kv: (string, string))
    ensures kv.0 == "NODE_ENV"
    ensures e.Development? ==> kv.1 == "development"
    ensures e.Production? ==> kv.1 == "production"
    ensures e.Custom? ==> kv.1 == e.value
  {
    (NodeEnvKey, Value(e))
  }

  /** Reference inverse of `FromProfile`: the profile name a selector came from. */
  function ProfileName(e: NodeEnv): string
  {
    match e
    case Development => "debug"
    case Production => "release"
    case Custom(c) => c
  }

  /** No profile name is lost: reading the name back from the selector gives
      the profile again. */
  lemma ProfileRoundTrip(profile: string)
    ensures ProfileName(FromProfile(profile)) == profile
  {
  }

  /** Distinct profile names give distinct selectors. */
  lemma FromProfileInjective(p: string, q: string)
    ensures FromProfile(p) == FromProfile(q) <==> p == q
  {
  }

  /** The selectors a profile can produce are exactly those other than
      `Custom("debug")` and `Custom("release")`. */
  lemma FromProfileRange(e: NodeEnv)
    ensures (exists p :: FromProfile(p) == e) <==> e != Custom("debug") && e != Custom("release")
  {
    if e != Custom("debug") && e != Custom("release") {
      assert FromProfile(ProfileName(e)) == e;
    }
  }

  /** Profile followed by rendering: "debug" becomes "development",
      "release" becomes "production", every other name passes through. */
  lemma ProfileValue(profile: string)
    ensures Value(FromProfile(profile)) ==
      if profile == "debug" then "development"
      else if profile == "release" then "production"
      else profile
  {
  }

  /** The `NODE_ENV` value requested from a profile equals the profile name
      itself exactly when the profile is neither "debug" nor "release". */
  lemma ProfileVariable(profile: string)
    ensures NodeEnvVariable(FromProfile(profile)).0 == "NODE_ENV"
    ensures NodeEnvVariable(FromProfile(profile)).1 == profile <==> profile != "debug" && profile != "release"
  {
  }

  /** Rendering forgets the variant: `Custom("development")` requests the
      same value as `Development`. */
  lemma ValueNotInjective()
    ensures exists a: NodeEnv, b: NodeEnv :: a != b && Value(a) == Value(b)
  {
    assert Custom("development") != Development && Value(Custom("development")) == Value(Development);
  }
}
