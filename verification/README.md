# npm_rs command builder, modelled in Dafny

npm_rs is a Rust crate that runs `npm` from build scripts with a fluent API.
An `NpmEnv` configures a process handle: the shell, its working directory and
its environment variables. `init_env` turns it into an `Npm` builder. Each
builder call (`init`, `install`, `uninstall`, `update`, `run`, `custom`) adds
one npm command line, called a *fragment*, to a queue. `exec` joins the queue
with `" && "` and passes the result to the shell as one argument.

This project models the part of that logic that is not delegation to
`std::process::Command`:

- `strings.dfy` (module `Strings`): string joining. `Join` is the definition.
  `Prefixed` is an independent description: every element preceded by the
  separator. `JoinLoop` is the loop that Rust's slice `join` runs.
- `options.dfy` (module `Options`): the optional argument lists, and
  `unwrap_or_default`.
- `npm.dfy` (module `NpmRs`): the `Npm` builder as an immutable record of a
  process handle and a `seq<string>` queue. It covers `npm_append`, the six
  builder calls, `init_env`, and the invocation built by `exec`. The process
  handle is a type parameter `C`, so the model never looks inside it, and
  every call provably passes it on unchanged.
- `npm_chain.dfy` (module `NpmChain`): whole chains of builder calls.
  `Fragment` states independently the text each call queues. The lemmas relate
  a chain to the queue it builds and to the string handed to the shell. The
  examples from the crate's documentation are proved as concrete lemmas.
- `node_env.dfy` (module `NodeEnvs`): the `NodeEnv` selector. It covers the
  default, the match of `from_cargo_profile` on a given profile name, and the
  value `with_node_env` requests for `NODE_ENV`.

## Model

| member | source | states |
|---|---|---|
| Strings.Join | src/lib.rs:301-302 | joining nothing gives the empty string; a joined string starts with the first element and its length is the sum of the element lengths plus one separator between each pair of neighbours |
| Strings.JoinIsHeadPrefixed | src/lib.rs:225-233 | a joined string is the first element followed by each later element preceded by the separator |
| Strings.PrefixedSnoc | src/lib.rs:225-233 | adding an element at the end of a separator-prefixed concatenation appends only the separator and that element |
| Strings.JoinHeadRest | src/lib.rs:301-302 | a non-empty joined string is its first element followed by each later element preceded by the separator |
| Strings.JoinSnoc | src/lib.rs:291-302 | for a non-empty queue, joining one more fragment gives the old joined string, then the separator, then the new fragment |
| Strings.JoinConcat | src/lib.rs:291-302 | joining two non-empty halves in sequence gives the two joined halves with one separator between them |
| Strings.JoinLoop | src/lib.rs:301-302 | the left-to-right "push separator, push element" loop computes exactly `Join` |
| NpmRs.InitEnv | src/lib.rs:210-215 | `init_env` keeps the configured handle and starts with an empty queue |
| NpmRs.AppendFragment | src/lib.rs:225-233 | an `npm_append` fragment is "npm " + cmd followed by " " + a for each argument a, in order, so it always starts with "npm " |
| NpmRs.NpmAppend | src/lib.rs:225-234 | `npm_append` adds exactly that one fragment at the end of the queue; earlier fragments and the handle are unchanged |
| NpmRs.Init | src/lib.rs:238-241 | `init` adds exactly "npm init -y" at the end of the queue and changes nothing else |
| NpmRs.Install | src/lib.rs:246-249 | `install` adds "npm install" followed by " p" for each package; with no list it adds exactly "npm install"; nothing else changes |
| NpmRs.Uninstall | src/lib.rs:253-256 | `uninstall` adds "npm uninstall" followed by " p" for each package and changes nothing else |
| NpmRs.Update | src/lib.rs:261-264 | `update` adds "npm update" followed by " p" for each package; with no list it adds exactly "npm update"; nothing else changes |
| NpmRs.Run | src/lib.rs:268-271 | `run(c)` adds exactly "npm run " + c and changes nothing else |
| NpmRs.Custom | src/lib.rs:286-289 | `custom(cmd, args)` adds "npm " + cmd followed by " " + a for each argument a and changes nothing else |
| NpmRs.Exec | src/lib.rs:301-302 | `exec` passes the handle on unchanged; an empty queue gives the empty argument; otherwise the argument is the first queued fragment followed by " && " + f for each later fragment f, in queue order |
| NpmChain.Step | src/lib.rs:238-289 | every builder call adds exactly its own fragment at the end of the queue and leaves the handle untouched |
| NpmChain.ApplyQueuesFragments | src/lib.rs:225-289 | a chain of builder calls keeps the handle and the old queue, and adds each call's fragment after them, in call order |
| NpmChain.ExecAfterChain | src/lib.rs:291-302 | after `init_env` and any chain of calls, `exec` hands the shell the fragments in call order separated by " && ", using the original handle |
| NpmChain.ExecAfterStep | src/lib.rs:291-302 | one more call extends the shell argument by " && " and the new fragment, or makes it that fragment alone when the queue was empty |
| NpmChain.BuildersAreCustom | src/lib.rs:238-289 | `install`, `uninstall`, `update` and `init` equal `custom` with the fixed command name; `run(s)` equals `custom("run", Some([s]))` |
| NpmChain.NoneIsEmptyList | src/lib.rs:246-264 | a missing argument list and an empty one queue the same bare command |
| NpmChain.FragmentStartsWithNpm | src/lib.rs:225-271 | every fragment any builder call queues starts with "npm " |
| NpmChain.InstallThenRunBuild | src/lib.rs:291-302 | `install(None).run("build")` hands the shell "npm install && npm run build" |
| NpmChain.SingleCallExamples | src/lib.rs:236-289 | concrete single calls: `custom("audit", None)` gives "npm audit", `init` gives "npm init -y", `run("build")` gives "npm run build", and similar; an empty builder gives "" |
| NodeEnvs.FromProfile | src/lib.rs:120-126 | a profile maps to `Custom` exactly when it is neither "debug" nor "release" |
| NodeEnvs.Default | src/lib.rs:107-111 | the default selector is the one a "debug" profile yields, and it renders as "development" |
| NodeEnvs.NodeEnvVariable | src/lib.rs:151-158 | `with_node_env` requests key "NODE_ENV" with value "development" for `Development`, "production" for `Production`, and `c` unchanged for `Custom(c)` |
| NodeEnvs.ProfileRoundTrip | src/lib.rs:120-126 | reading the profile name back from the selector gives the original profile, so no profile is lost |
| NodeEnvs.FromProfileInjective | src/lib.rs:120-126 | two profiles give the same selector if and only if they are the same profile |
| NodeEnvs.FromProfileRange | src/lib.rs:120-126 | a selector comes from some profile if and only if it is not `Custom("debug")` or `Custom("release")` |
| NodeEnvs.ProfileValue | src/lib.rs:113-158 | profile then rendering: "debug" gives "development", "release" gives "production", and any other name is unchanged |
| NodeEnvs.ProfileVariable | src/lib.rs:114-125 | the `NODE_ENV` value requested from a profile equals the profile name itself if and only if the profile is neither "debug" nor "release" |
| NodeEnvs.ValueNotInjective | src/lib.rs:151-158 | rendering loses the variant: two different selectors can request the same `NODE_ENV` value |

## Left out

- Process spawning and the exit status (`Command::status`, `ExitStatus`, the I/O error at src/lib.rs:303) are OS I/O. `Exec` stops at the handle plus the argument that would be spawned.
- `with_env`, `with_envs`, `clear_envs` and `remove_env` (src/lib.rs:162-195) are left out. They pass straight to `std::process::Command`, whose environment-map semantics are not part of this model. `with_node_env` is modelled only as the key/value pair it requests (`NodeEnvVariable`).
- `set_path` and the default working directory `current_dir().unwrap()` (src/lib.rs:131-133, 198-204) are filesystem and OS state.
- `NpmEnv::default` and `Npm::default` (src/lib.rs:129-137, 218-222) are left out: the handle they build depends on the platform and the current directory. `Npm::default()` is `InitEnv` applied to such a handle.
- The `Clone` impl for `NpmEnv` (src/lib.rs:139-147) is left out. It depends on `Command` getters.
- The platform shell choice through `cfg_if!` (src/lib.rs:48-56) is compile-time configuration. The shell and its flag live inside the opaque handle.
- Reading the `PROFILE` variable and its `VarError` in `from_cargo_profile` (src/lib.rs:121) is left out. `FromProfile` takes the already-read profile name.
- No shell quoting or escaping is modelled, because the crate does none. Fragments are plain concatenations.
