/** The `Npm` command builder of npm_rs: a queue of npm command fragments,
    each fluent call appending one, and `exec`, which joins the queue with
    " && " into the single argument handed to the shell.

    The process handle (Rust's `std::process::Command`, already configured
    with shell, flag, working directory and environment) is a type parameter
    `C`: the builder never looks inside it, and every builder call provably
    hands it on unchanged. */
module NpmRs {
  import opened Options
  import opened Strings

  const NpmProgram: string := "npm"
  const InitCommand: string := "init"
  const InstallCommand: string := "install"
  const UninstallCommand: string := "uninstall"
  const UpdateCommand: string := "update"
  const RunCommand: string := "run"

  /** Separator `exec` puts between queued fragments. */
  const AndSeparator: string := " && "

  /** The configured environment, before any command is queued. */
  datatype NpmEnv<C> = NpmEnv(cmd: C)

  /** The builder: the process handle and the queued fragments, oldest first. */
  datatype Npm<C> = Npm(cmd: C, args: seq<string>)

  /** What `exec` spawns: the handle with the joined fragments as its last argument. */
  datatype Invocation<C> = Invocation(cmd: C, arg: string)

  /** `n2` is `n` with exactly fragment `f` added at the end of its queue and
      the handle untouched. */
  ghost predicate AppendsOne<C>(n: Npm<C>, n2: Npm<C>, f: string)
  {
    && n2.cmd == n.cmd
    && n2.args == n.args + [f]
  }

  /** `init_env`: move the configured handle into a builder with an empty queue. */
  function InitEnv<C>(env: NpmEnv<C>): (n: Npm<C>)
    ensures n.cmd == env.cmd
    ensures |n.args| == 0
  {
    Npm(env.cmd, [])
  }

  /** The fragment `npm_append(cmd, chain)` pushes: "npm", `cmd` and the
      arguments joined by single spaces. It reads "npm " + cmd followed by
      " " + a for each argument a, and so always starts with "npm ". */
  function AppendFragment(cmd: string, chain: seq<string>): (f: string)
    ensures f == "npm " + cmd + Prefixed(" ", chain)
    ensures "npm " <= f
  {
    assert [NpmProgram, cmd] + chain == [NpmProgram] + ([cmd] + chain);
    JoinIsHeadPrefixed(" ", NpmProgram, [cmd] + chain);
    assert ([cmd] + chain)[1..] == chain;
    Join(" ", [NpmProgram, cmd] + chain)
  }

  /** `npm_append`: push one fragment onto the queue. */
  function NpmAppend<C>(n: Npm<C>, cmd: string, chain: seq<string>): (n2: Npm<C>)
    ensures AppendsOne(n, n2, "npm " + cmd + Prefixed(" ", chain))
  {
    Npm(n.cmd, n.args + [AppendFragment(cmd, chain)])
  }

  /** `init`: queue `npm init -y`. */
  function Init<C>(n: Npm<C>): (n2: Npm<C>)
    ensures AppendsOne(n, n2, "npm init -y")
  {
    assert Prefixed(" ", ["-y"]) == " -y";
    assert "npm " + InitCommand + " -y" == "npm init -y";
    NpmAppend(n, InitCommand, ["-y"])
  }

  /** `install`: queue `npm install` followed by the packages, if any. */
  function Install<C>(n: Npm<C>, args: Option<seq<string>>): (n2: Npm<C>)
    ensures AppendsOne(n, n2, "npm install" + Prefixed(" ", OrEmpty(args)))
    ensures args.None? ==> AppendsOne(n, n2, "npm install")
  {
    assert "npm " + InstallCommand == "npm install";
    assert "npm install" + Prefixed(" ", []) == "npm install";
    NpmAppend(n, InstallCommand, OrEmpty(args))
  }

  /** `uninstall`: queue `npm uninstall` followed by the packages. */
  function Uninstall<C>(n: Npm<C>, pkg: seq<string>): (n2: Npm<C>)
    ensures AppendsOne(n, n2, "npm uninstall" + Prefixed(" ", pkg))
  {
    assert "npm " + UninstallCommand == "npm uninstall";
    NpmAppend(n, UninstallCommand, pkg)
  }

  /** `update`: queue `npm update` followed by the packages, if any. */
  function Update<C>(n: Npm<C>, pkg: Option<seq<string>>): (n2: Npm<C>)
    ensures AppendsOne(n, n2, "npm update" + Prefixed(" ", OrEmpty(pkg)))
    ensures pkg.None? ==> AppendsOne(n, n2, "npm update")
  {
    assert "npm " + UpdateCommand == "npm update";
    assert "npm update" + Prefixed(" ", []) == "npm update";
    NpmAppend(n, UpdateCommand, OrEmpty(pkg))
  }

  /** `run`: queue `npm run <command>`, built by its own three-word join. */
  function Run<C>(n: Npm<C>, command: string): (n2: Npm<C>)
    ensures AppendsOne(n, n2, "npm run " + command)
  {
    var f := Join(" ", [NpmProgram, RunCommand, command]);
    assert [NpmProgram, RunCommand, command][1..] == [RunCommand, command];
    assert [RunCommand, command][1..] == [command];
    assert Join(" ", [RunCommand, command]) == RunCommand + " " + command;
    assert f == "npm run " + command;
    Npm(n.cmd, n.args + [f])
  }

  /** `custom`: queue `npm <command>` followed by the arguments, if any. */
  function Custom<C>(n: Npm<C>, command: string, args: Option<seq<string>>): (n2: Npm<C>)
    ensures AppendsOne(n, n2, "npm " + command + Prefixed(" ", OrEmpty(args)))
  {
    NpmAppend(n, command, OrEmpty(args))
  }

  /** `exec` up to the spawn: the handle gets the queue joined by " && " as
      one more argument. */
  function Exec<C>(n: Npm<C>): (call: Invocation<C>)
    ensures call.cmd == n.cmd
    ensures |n.args| == 0 ==> call.arg == ""
    ensures |n.args| > 0 ==> n.args[0] <= call.arg
    ensures |n.args| > 0 ==> call.arg == n.args[0] + Prefixed(AndSeparator, n.args[1..])
  {
    JoinHeadRest(AndSeparator, n.args);
    Invocation(n.cmd, Join(AndSeparator, n.args))
  }
}
