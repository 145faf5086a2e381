/** Whole fluent chains on the `Npm` builder: a chain is a sequence of
    builder calls, `Fragment` says independently which text each call
    queues, and the lemmas relate a chain to the string `exec` hands to
    the shell. */
module NpmChain {
  import opened Options
  import opened Strings
  import opened NpmRs

  /** One fluent builder call together with its arguments. */
  datatype Call =
    | InitCall
    | InstallCall(pkgs: Option<seq<string>>)
    | UninstallCall(names: seq<string>)
    | UpdateCall(updates: Option<seq<string>>)
    | RunCall(script: string)
    | CustomCall(command: string, args: Option<seq<string>>)

  /** The text a call queues, written out directly rather than through the
      builder's own joins. */
  function Fragment(c: Call): string
  {
    match c
    case InitCall => "npm init -y"
    case InstallCall(p) => "npm install" + Prefixed(" ", OrEmpty(p))
    case UninstallCall(p) => "npm uninstall" + Prefixed(" ", p)
    case UpdateCall(p) => "npm update" + Prefixed(" ", OrEmpty(p))
    case RunCall(s) => "npm run " + s
    case CustomCall(cmd, a) => "npm " + cmd + Prefixed(" ", OrEmpty(a))
  }

  /** The fragments of a chain, in call order. */
  function Fragments(calls: seq<Call>): (fs: seq<string>)
    ensures |fs| == |calls|
    ensures forall i :: 0 <= i < |calls| ==> fs[i] == Fragment(calls[i])
  {
    seq(|calls|, i requires 0 <= i < |calls| => Fragment(calls[i]))
  }

  /** Perform one call on the builder. */
  function Step<C>(n: Npm<C>, c: Call): (n2: Npm<C>)
    ensures AppendsOne(n, n2, Fragment(c))
  {
    match c
    case InitCall => Init(n)
    case InstallCall(p) => Install(n, p)
    case UninstallCall(p) => Uninstall(n, p)
    case UpdateCall(p) => Update(n, p)
    case RunCall(s) => Run(n, s)
    case CustomCall(cmd, a) => Custom(n, cmd, a)
  }

  /** Perform a whole chain of calls, first call first. */
  function Apply<C>(n: Npm<C>, calls: seq<Call>): Npm<C>
    decreases |calls|
  {
    if |calls| == 0 then n else Apply(Step(n, calls[0]), calls[1..])
  }

  /** A chain only ever adds to the queue: the handle stays the same, the
      old fragments stay in front, and each call contributes its own
      fragment, in call order. */
  lemma {:induction false} ApplyQueuesFragments<C>(n: Npm<C>, calls: seq<Call>)
    ensures Apply(n, calls).cmd == n.cmd
    ensures Apply(n, calls).args == n.args + Fragments(calls)
    decreases |calls|
  {
    if |calls| > 0 {
      var n1 := Step(n, calls[0]);
      ApplyQueuesFragments(n1, calls[1..]);
      assert n1.args == n.args + [Fragment(calls[0])];
      assert Fragments(calls) == [Fragment(calls[0])] + Fragments(calls[1..]);
    } else {
      assert Fragments(calls) == [];
    }
  }

  /** `exec` after a chain started from a fresh `init_env`: the shell gets
      exactly the fragments in call order separated by " && ", and the
      configured handle is the one `init_env` received. */
  lemma ExecAfterChain<C>(env: NpmEnv<C>, calls: seq<Call>)
    ensures Exec(Apply(InitEnv(env), calls)) == Invocation(env.cmd, Join(" && ", Fragments(calls)))
  {
    ApplyQueuesFragments(InitEnv(env), calls);
    assert [] + Fragments(calls) == Fragments(calls);
  }

  /** One more call extends the shell string by " && " and the new fragment,
      or makes it that fragment alone when nothing was queued before. */
  lemma ExecAfterStep<C>(n: Npm<C>, c: Call)
    ensures Exec(Step(n, c)).cmd == n.cmd
    ensures |n.args| == 0 ==> Exec(Step(n, c)).arg == Fragment(c)
    ensures |n.args| > 0 ==> Exec(Step(n, c)).arg == Exec(n).arg + " && " + Fragment(c)
  {
    var n2 := Step(n, c);
    assert n2.args == n.args + [Fragment(c)];
    if |n.args| == 0 {
      assert n2.args == [Fragment(c)];
    } else {
      JoinSnoc(AndSeparator, n.args, Fragment(c));
    }
  }

  /** `install`, `uninstall`, `update` and `init` are `custom` with the fixed
      command name, because all of them go through `npm_append`; `run`
      queues the same text as `custom("run", Some([script]))`. */
  lemma BuildersAreCustom<C>(n: Npm<C>, pkgs: Option<seq<string>>, pkg: seq<string>, script: string)
    ensures Install(n, pkgs) == Custom(n, "install", pkgs)
    ensures Uninstall(n, pkg) == Custom(n, "uninstall", Some(pkg))
    ensures Update(n, pkgs) == Custom(n, "update", pkgs)
    ensures Init(n) == Custom(n, "init", Some(["-y"]))
    ensures Run(n, script) == Custom(n, "run", Some([script]))
  {
    assert Prefixed(" ", [script]) == " " + script;
    assert "npm " + "run" == "npm run";
    assert "npm run" + (" " + script) == "npm run " + script;
    assert "npm " + "run" + Prefixed(" ", [script]) == "npm run " + script;
  }

  /** A missing package list and an empty one queue the same bare command. */
  lemma NoneIsEmptyList<C>(n: Npm<C>)
    ensures Install(n, None) == Install(n, Some([]))
    ensures Update(n, None) == Update(n, Some([]))
    ensures Custom(n, "audit", None) == Custom(n, "audit", Some([]))
  {
  }

  /** Every fragment a builder call queues starts with "npm ". */
  lemma FragmentStartsWithNpm(c: Call)
    ensures "npm " <= Fragment(c)
  {
  }

  /** `install(None).run("build")` hands the shell "npm install && npm run build". */
  lemma InstallThenRunBuild<C>(env: NpmEnv<C>)
    ensures Exec(Run(Install(InitEnv(env), None), "build")).arg == "npm install && npm run build"
  {
  }

  /** Concrete single calls, each on a fresh builder, and the string `exec`
      hands the shell for each; "npm audit" is the crate's own documented
      example. */
  lemma SingleCallExamples<C>(env: NpmEnv<C>)
    ensures Exec(Custom(InitEnv(env), "audit", None)).arg == "npm audit"
    ensures Exec(Install(InitEnv(env), Some(["a", "b"]))).arg == "npm install a b"
    ensures Exec(Uninstall(InitEnv(env), ["x"])).arg == "npm uninstall x"
    ensures Exec(Run(InitEnv(env), "build")).arg == "npm run build"
    ensures Exec(Init(InitEnv(env))).arg == "npm init -y"
    ensures Exec(InitEnv(env)).arg == ""
  {
  }
}
