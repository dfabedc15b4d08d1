/** The arguments of `myrun run` and `myrun create`: one list of tokens read twice,
first for `--config`, then on top of the file it names (`src/cli.rs`). */
module Cli {
  import opened Wrappers
  import opened Text
  import Env

  // -------------------------------------------------------------------------
  // Flags
  // -------------------------------------------------------------------------

  datatype Kind =
    | EndOfFlags | Help | ConfigFile | Detach
    | Scalar(field: string)                       // takes a value, the last one counts
    | Switch(field: string, value: string)        // takes none
    | Choice(field: string)                       // takes an inline value only
    | Listed(field: string)                       // values add up
    | Setting                                     // an environment variable

  function KindOf(flag: string): Option<Kind> {
    if flag == "--" then Some(EndOfFlags)
    else if flag == "-h" || flag == "--help" then Some(Help)
    else if flag == "--config" || flag == "-c" then Some(ConfigFile)
    else if flag == "-d" || flag == "--detach" then Some(Detach)
    else if flag == "-e" || flag == "--env" then Some(Setting)
    else if flag == "--name" then Some(Scalar("name"))
    else if flag == "--rootfs" then Some(Scalar("rootfs"))
    else if flag == "-w" || flag == "--workdir" || flag == "--cwd" then Some(Scalar("cwd"))
    else if flag == "--hostname" then Some(Scalar("hostname"))
    else if flag == "--rm" then Some(Switch("auto_remove", "true"))
    else if flag == "--read-only" then Some(Switch("read_only", "true"))
    else if flag == "-v" || flag == "--volume" || flag == "--mount" then Some(Listed("mounts"))
    else if flag == "--label" then Some(Listed("labels"))
    else ResourceKind(flag)
  }

  function ResourceKind(flag: string): Option<Kind> {
    if flag == "-m" || flag == "--memory" then Some(Scalar("memory"))
    else if flag == "--memory-swap" then Some(Scalar("memory_swap"))
    else if flag == "--cpus" then Some(Scalar("cpus"))
    else if flag == "--cpu-weight" || flag == "--cpu-shares" then Some(Scalar("cpu_weight"))
    else if flag == "--pids" || flag == "--pids-limit" then Some(Scalar("pids"))
    else NetworkKind(flag)
  }

  function NetworkKind(flag: string): Option<Kind> {
    if flag == "--network" || flag == "--net" then Some(Scalar("mode"))
    else if flag == "--bridge" then Some(Scalar("bridge"))
    else if flag == "--subnet" then Some(Scalar("subnet"))
    else if flag == "--ip" then Some(Scalar("ip"))
    else if flag == "--gateway" then Some(Scalar("gateway"))
    else if flag == "--mtu" then Some(Scalar("mtu"))
    else if flag == "-p" || flag == "--publish" then Some(Listed("publish"))
    else if flag == "--no-nat" then Some(Switch("nat", "false"))
    else if flag == "--dns" then Some(Scalar("dns"))
    else SecurityKind(flag)
  }

  function SecurityKind(flag: string): Option<Kind> {
    if flag == "--cap-add" then Some(Listed("cap_add"))
    else if flag == "--cap-drop" then Some(Listed("cap_drop"))
    else if flag == "--seccomp" then Some(Scalar("seccomp"))
    else if flag == "--privileged" then Some(Switch("privileged", "true"))
    else if flag == "--no-new-privs" then Some(Choice("no_new_privs"))
    else if flag == "--user" || flag == "-u" then Some(Scalar("user"))
    else if flag == "--no-pid-ns" then Some(Switch("pid_ns", "false"))
    else if flag == "--no-ipc-ns" then Some(Switch("ipc_ns", "false"))
    else if flag == "--no-uts-ns" then Some(Switch("uts_ns", "false"))
    else if flag == "--no-cgroup-ns" then Some(Switch("cgroup_ns", "false"))
    else None
  }

  /** `split_flag`. */
  function SplitFlag(arg: string): (string, Option<string>) {
    var parts := SplitOnce(arg, '=');
    if parts.Some? && parts.value.0 != [] && parts.value.0[0] == '-'
    then (parts.value.0, Some(parts.value.1)) else (arg, None)
  }

  // -------------------------------------------------------------------------
  // Configurations
  // -------------------------------------------------------------------------

  /** A configuration, every scalar as text; absent ones are empty. */
  datatype Config = Config(scalars: map<string, string>, lists: map<string, seq<string>>, env: seq<string>)

  function ScalarOf(c: Config, field: string): string {
    if field in c.scalars then c.scalars[field] else []
  }

  function ListOf(c: Config, field: string): seq<string> {
    if field in c.lists then c.lists[field] else []
  }

  datatype Action = SetScalar(field: string, value: string) | Add(field: string, value: string) | SetEnv(kv: string)

  function Act(c: Config, a: Action): Config {
    match a
    case SetScalar(f, v) => c.(scalars := c.scalars[f := v])
    case Add(f, v) => c.(lists := c.lists[f := ListOf(c, f) + [v]])
    case SetEnv(kv) => c.(env := Env.Set(c.env, kv))
  }

  function ActAll(c: Config, actions: seq<Action>): Config {
    if actions == [] then c else Act(ActAll(c, actions[..|actions| - 1]), actions[|actions| - 1])
  }

  // -------------------------------------------------------------------------
  // Reading tokens
  // -------------------------------------------------------------------------

  /** What some tokens amount to, whatever configuration they are applied to. */
  datatype Piece = Piece(actions: seq<Action>, positional: seq<string>, config: Option<string>, detach: bool)

  const EMPTY := Piece([], [], None, false)

  function Join(a: Piece, b: Piece): Piece {
    Piece(a.actions + b.actions, a.positional + b.positional,
          if b.config.Some? then b.config else a.config, a.detach || b.detach)
  }

  /** Which texts a field accepts: `parse_size`, `PortMapping::parse` and the like. */
  type Accepts = (string, string) -> bool

  /** The effect of one argument, how many tokens it took, and the scanner after
      it: past `--`, and how many positional arguments there were.  `done` means
      that the rest belongs to the command. */
  datatype Token = Token(piece: Piece, used: nat, ended: bool, seen: nat, done: bool)

  function Valued(kind: Kind, value: string, used: nat, seen: nat, ok: Accepts): Result<Token> {
    match kind
    case ConfigFile => Ok(Token(EMPTY.(config := Some(value)), used, false, seen, false))
    case Scalar(f) =>
      if ok(f, value) then Ok(Token(EMPTY.(actions := [SetScalar(f, value)]), used, false, seen, false)) else Err
    case Listed(f) =>
      if ok(f, value) then Ok(Token(EMPTY.(actions := [Add(f, value)]), used, false, seen, false)) else Err
    case _ => Ok(Token(EMPTY.(actions := [SetEnv(value)]), used, false, seen, false))
  }

  predicate TakesValue(kind: Kind) { kind.ConfigFile? || kind.Scalar? || kind.Listed? || kind.Setting? }

  predicate IsPositional(raw: string, ended: bool) {
    ended || raw == [] || raw[0] != '-' || raw == "-"
  }

  /** The first argument of a non-empty list. */
  function First(args: seq<string>, ended: bool, seen: nat, ok: Accepts): (r: Result<Token>)
    requires args != []
    ensures r.Ok? ==> 1 <= r.value.used <= |args| && (r.value.done ==> r.value.used == |args|)
  {
    var raw := args[0];
    if IsPositional(raw, ended) then
      if seen >= 1 then Ok(Token(EMPTY.(positional := args), |args|, ended, seen + 1, true))
      else Ok(Token(EMPTY.(positional := [raw]), 1, ended, seen + 1, false))
    else
      var (flag, inline) := SplitFlag(raw);
      var kind := KindOf(flag);
      if kind.None? || kind.value.Help? then Err
      else if TakesValue(kind.value) then
        if inline.Some? then Valued(kind.value, inline.value, 1, seen, ok)
        else if |args| < 2 then Err
        else Valued(kind.value, args[1], 2, seen, ok)
      else Valueless(kind.value, inline, seen, ok)
  }

  function Valueless(kind: Kind, inline: Option<string>, seen: nat, ok: Accepts): (r: Result<Token>)
    ensures r.Ok? ==> r.value.used == 1 && !r.value.done
  {
    match kind
    case EndOfFlags => Ok(Token(EMPTY, 1, true, seen, false))
    case Detach => Ok(Token(EMPTY.(detach := true), 1, false, seen, false))
    case Switch(f, v) => Ok(Token(EMPTY.(actions := [SetScalar(f, v)]), 1, false, seen, false))
    case Choice(f) =>
      var v := if inline.Some? then inline.value else "true";
      if inline.Some? && !ok(f, v) then Err
      else Ok(Token(EMPTY.(actions := [SetScalar(f, v)]), 1, false, seen, false))
    case _ => Err
  }

  function Joined(a: Piece, b: Result<Piece>): Result<Piece> {
    if b.Ok? then Ok(Join(a, b.value)) else Err
  }

  function Scan(args: seq<string>, ended: bool, seen: nat, ok: Accepts): Result<Piece>
    decreases |args|
  {
    if args == [] then Ok(EMPTY)
    else
      var t := First(args, ended, seen, ok);
      if t.Err? then Err
      else if t.value.done then Ok(t.value.piece)
      else Joined(t.value.piece, Scan(args[t.value.used..], t.value.ended, t.value.seen, ok))
  }

  // -------------------------------------------------------------------------
  // The two passes
  // -------------------------------------------------------------------------

  datatype RunArgs = RunArgs(config: Config, detach: bool)

  /** `<rootfs> <command> [args...]`, or just the command if a root was given. */
  function Placed(c: Config, positional: seq<string>): Config {
    if positional == [] then c
    else if ScalarOf(c, "rootfs") != [] then c.(lists := c.lists["command" := positional])
    else
      var d := c.(scalars := c.scalars["rootfs" := positional[0]]);
      if |positional| == 1 then d else d.(lists := d.lists["command" := positional[1..]])
  }

  function Finished(base: Config, p: Piece): RunArgs {
    RunArgs(Placed(ActAll(base, p.actions), p.positional), p.detach)
  }

  /** The configuration a list of arguments stands for. */
  function Meaning(args: seq<string>, base: Config, load: string -> Result<Config>, ok: Accepts): Result<RunArgs> {
    var p := Scan(args, false, 0, ok);
    if p.Err? then Err
    else if p.value.config.None? then Ok(Finished(base, p.value))
    else
      var file := load(p.value.config.value);
      if file.Err? then Err else Ok(Finished(file.value, p.value))
  }

  lemma JoinAssociates(a: Piece, b: Piece, c: Piece)
    ensures Join(Join(a, b), c) == Join(a, Join(b, c))
  {
    assert a.actions + b.actions + c.actions == a.actions + (b.actions + c.actions);
    assert a.positional + b.positional + c.positional == a.positional + (b.positional + c.positional);
  }

  lemma JoinEmpty(a: Piece)
    ensures Join(a, EMPTY) == a && Join(EMPTY, a) == a
  {
  }

  lemma {:induction false} ActConcat(c: Config, a: seq<Action>, b: seq<Action>)
    ensures ActAll(c, a + b) == ActAll(ActAll(c, a), b)
  {
    if b == [] {
      assert a + b == a;
    } else {
      var n := |b| - 1;
      ActConcat(c, a, b[..n]);
      assert (a + b)[..|a + b| - 1] == a + b[..n];
    }
  }

  /** `parse_run_pass`: the loop applies each flag as it meets it. */
  method ParsePass(args: seq<string>, base: Config, ok: Accepts) returns (r: Result<(RunArgs, Option<string>)>)
    ensures
      var p := Scan(args, false, 0, ok);
      r == if p.Err? then Err else Ok((Finished(base, p.value), p.value.config))
  {
    hide First, KindOf;
    var cfg := base;
    var config: Option<string> := None;
    var detach := false;
    var positional: seq<string> := [];
    var ended, seen, pos := false, 0, 0;
    ghost var so := EMPTY;
    var done := false;
    assert args[0..] == args;
    JoinsWithEmpty(Scan(args, false, 0, ok));
    while pos < |args| && !done
      invariant pos <= |args|
      invariant done ==> Scan(args, false, 0, ok) == Ok(so)
      invariant !done ==> Scan(args, false, 0, ok) == Joined(so, Scan(args[pos..], ended, seen, ok))
      invariant cfg == ActAll(base, so.actions) && config == so.config && detach == so.detach
                && positional == so.positional
      decreases |args| - pos, !done
    {
      var t := First(args[pos..], ended, seen, ok);
      if t.Err? {
        return Err;
      }
      var piece := t.value.piece;
      ActConcat(base, so.actions, piece.actions);
      JoinsAssociate(so, piece, Scan(args[pos..][t.value.used..], t.value.ended, t.value.seen, ok));
      assert args[pos..][t.value.used..] == args[pos + t.value.used..];
      cfg := ActAll(cfg, piece.actions);
      config := if piece.config.Some? then piece.config else config;
      detach := detach || piece.detach;
      positional := positional + piece.positional;
      so := Join(so, piece);
      ended, seen, done := t.value.ended, t.value.seen, t.value.done;
      pos := pos + t.value.used;
    }
    if !done {
      assert args[pos..] == [];
      JoinEmpty(so);
    }
    r := Ok((RunArgs(Placed(cfg, positional), detach), config));
  }

  lemma JoinsWithEmpty(r: Result<Piece>)
    ensures Joined(EMPTY, r) == r
  {
    if r.Ok? { JoinEmpty(r.value); }
  }

  lemma JoinsAssociate(a: Piece, b: Piece, r: Result<Piece>)
    ensures Joined(a, Joined(b, r)) == Joined(Join(a, b), r)
  {
    if r.Ok? { JoinAssociates(a, b, r.value); }
  }

  /** `parse_run`: both passes read the tokens alike, whatever they start from. */
  method ParseRun(args: seq<string>, defaults: Config, load: string -> Result<Config>, ok: Accepts)
    returns (r: Result<RunArgs>)
    ensures r == Meaning(args, defaults, load, ok)
  {
    var probe := ParsePass(args, defaults, ok);
    if probe.Err? {
      return Err;
    }
    var base := defaults;
    if probe.value.1.Some? {
      var file := load(probe.value.1.value);
      if file.Err? {
        return Err;
      }
      base := file.value;
    }
    var second := ParsePass(args, base, ok);
    if second.Err? {
      return Err;
    }
    r := Ok(second.value.0);
  }

  // -------------------------------------------------------------------------
  // The order of arguments
  // -------------------------------------------------------------------------

  /** Reading `args` as a beginning: whole arguments, no `--` and no command among
      them.  Gives their effect and how many positional arguments there were. */
  function Beginning(args: seq<string>, seen: nat, ok: Accepts): Option<(Piece, nat)>
    decreases |args|
  {
    if args == [] then Some((EMPTY, seen))
    else
      var t := First(args, false, seen, ok);
      if t.Err? || t.value.done || t.value.ended then None
      else
        var rest := Beginning(args[t.value.used..], t.value.seen, ok);
        if rest.None? then None else Some((Join(t.value.piece, rest.value.0), rest.value.1))
  }

  /** What follows a whole argument does not change how it is read. */
  lemma FirstIsLocal(args: seq<string>, more: seq<string>, ended: bool, seen: nat, ok: Accepts)
    requires args != [] && First(args, ended, seen, ok).Ok? && !First(args, ended, seen, ok).value.done
    ensures First(args + more, ended, seen, ok) == First(args, ended, seen, ok)
  {
    hide KindOf;
  }

  lemma {:induction false} BeginningThen(a: seq<string>, b: seq<string>, seen: nat, ok: Accepts)
    requires Beginning(a, seen, ok).Some?
    ensures
      var (p, after) := Beginning(a, seen, ok).value;
      Scan(a + b, false, seen, ok) == Joined(p, Scan(b, false, after, ok))
    decreases |a|
  {
    hide First, Joined;
    if a == [] {
      assert a + b == b;
      JoinsWithEmpty(Scan(b, false, seen, ok));
    } else {
      var t := First(a, false, seen, ok).value;
      FirstIsLocal(a, b, false, seen, ok);
      BeginningThen(a[t.used..], b, t.seen, ok);
      assert (a + b)[t.used..] == a[t.used..] + b;
      var (p, after) := Beginning(a[t.used..], t.seen, ok).value;
      JoinsAssociate(t.piece, p, Scan(b, false, after, ok));
    }
  }

  predicate IsConfigFlag(flag: string) { flag == "--config" || flag == "-c" }

  /** The option that names the file, in two words or in one. */
  ghost predicate NamesConfig(option: seq<string>, file: string) {
    exists flag :: IsConfigFlag(flag) && (option == [flag, file] || option == [flag + (['='] + file)])
  }

  lemma ConfigOptionIs(option: seq<string>, file: string, seen: nat, ok: Accepts)
    requires NamesConfig(option, file)
    ensures Beginning(option, seen, ok) == Some((EMPTY.(config := Some(file)), seen))
  {
    var flag :| IsConfigFlag(flag) && (option == [flag, file] || option == [flag + (['='] + file)]);
    FlagNamesConfig(flag, file);
    hide KindOf, SplitFlag;
    assert First(option, false, seen, ok) == Ok(Token(EMPTY.(config := Some(file)), |option|, false, seen, false));
    assert option[|option|..] == [];
    JoinEmpty(EMPTY.(config := Some(file)));
  }

  lemma FlagNamesConfig(flag: string, file: string)
    requires IsConfigFlag(flag)
    ensures SplitFlag(flag) == (flag, None) && KindOf(flag) == Some(ConfigFile) && !IsPositional(flag, false)
    ensures
      var inline := flag + (['='] + file);
      SplitFlag(inline) == (flag, Some(file)) && !IsPositional(inline, false)
  {
    WithoutSeparator(flag, '=');
    SplitOnceAt(flag, '=', file);
  }

  lemma {:induction false} WithoutSeparator(s: string, sep: char)
    requires sep !in s
    ensures SplitOnce(s, sep).None?
  {
    if s != [] {
      WithoutSeparator(s[1..], sep);
    }
  }

  /** Moving `--config file` or `--config=file` past other arguments changes nothing,
      as long as it stays before `--` and the command and does not pass another
      `--config`. */
  lemma ConfigMayStandAnywhere(
    a: seq<string>, option: seq<string>, file: string, b: seq<string>, c: seq<string>,
    defaults: Config, load: string -> Result<Config>, ok: Accepts)
    requires NamesConfig(option, file)
    requires Beginning(a, 0, ok).Some?
    requires Beginning(b, Beginning(a, 0, ok).value.1, ok).Some?
    requires Beginning(b, Beginning(a, 0, ok).value.1, ok).value.0.config.None?
    ensures Meaning(a + (option + (b + c)), defaults, load, ok) == Meaning(a + (b + (option + c)), defaults, load, ok)
  {
    hide Beginning, First, Scan, NamesConfig;
    var (pa, na) := Beginning(a, 0, ok).value;
    var (pb, nb) := Beginning(b, na, ok).value;
    var pp := EMPTY.(config := Some(file));
    var rest := Scan(c, false, nb, ok);
    ConfigOptionIs(option, file, na, ok);
    ConfigOptionIs(option, file, nb, ok);
    BeginningThen(a, option + (b + c), 0, ok);
    BeginningThen(option, b + c, na, ok);
    BeginningThen(b, c, na, ok);
    BeginningThen(a, b + (option + c), 0, ok);
    BeginningThen(b, option + c, na, ok);
    BeginningThen(option, c, nb, ok);
    if rest.Ok? {
      ConfigCommutes(pp, pb, rest.value);
    }
  }

  lemma ConfigCommutes(pp: Piece, pb: Piece, rest: Piece)
    requires pp.actions == [] && pp.positional == [] && !pp.detach && pb.config.None?
    ensures Join(pp, Join(pb, rest)) == Join(pb, Join(pp, rest))
  {
  }

  /** From the second positional argument on, tokens are the command's own: they
      are handed over as they are, flags and all. */
  lemma CommandIsNotRead(a: seq<string>, command: seq<string>, ok: Accepts)
    requires Beginning(a, 0, ok).Some? && Beginning(a, 0, ok).value.1 == 1
    requires command != [] && IsPositional(command[0], false)
    ensures Scan(a + command, false, 0, ok) == Ok(Join(Beginning(a, 0, ok).value.0, EMPTY.(positional := command)))
  {
    BeginningThen(a, command, 0, ok);
    hide KindOf;
    assert First(command, false, 1, ok) == Ok(Token(EMPTY.(positional := command), |command|, false, 2, true));
  }

  /** ... and after `--` no token is a flag. */
  lemma {:induction false} NothingIsAFlagAfterEnd(args: seq<string>, seen: nat, ok: Accepts)
    requires seen <= 1
    ensures Scan(args, true, seen, ok) == Ok(EMPTY.(positional := args))
    decreases |args|
  {
    hide KindOf;
    if args != [] {
      assert First(args, true, seen, ok) ==
        if seen >= 1 then Ok(Token(EMPTY.(positional := args), |args|, true, seen + 1, true))
        else Ok(Token(EMPTY.(positional := [args[0]]), 1, true, 1, false));
      if seen == 0 {
        NothingIsAFlagAfterEnd(args[1..], 1, ok);
        assert [args[0]] + args[1..] == args;
        assert Join(EMPTY.(positional := [args[0]]), EMPTY.(positional := args[1..])) == EMPTY.(positional := args);
      }
    }
  }

  // -------------------------------------------------------------------------
  // Who decides an option
  // -------------------------------------------------------------------------

  /** The value the last action for a field sets. */
  function LastSet(actions: seq<Action>, field: string): Option<string> {
    if actions == [] then None
    else
      var a := actions[|actions| - 1];
      if a.SetScalar? && a.field == field then Some(a.value) else LastSet(actions[..|actions| - 1], field)
  }

  function Added(actions: seq<Action>, field: string): seq<string> {
    if actions == [] then []
    else
      var a := actions[|actions| - 1];
      Added(actions[..|actions| - 1], field) + if a.Add? && a.field == field then [a.value] else []
  }

  function Settings(actions: seq<Action>): seq<string> {
    if actions == [] then []
    else
      var a := actions[|actions| - 1];
      Settings(actions[..|actions| - 1]) + if a.SetEnv? then [a.kv] else []
  }

  lemma {:induction false} SettingsDecideEnv(base: Config, actions: seq<Action>)
    ensures ActAll(base, actions).env == Env.SetAll(base.env, Settings(actions))
  {
    if actions != [] {
      var n := |actions| - 1;
      SettingsDecideEnv(base, actions[..n]);
      var before, s := Settings(actions[..n]), Settings(actions);
      if actions[n].SetEnv? {
        assert s[..|s| - 1] == before && s[|s| - 1] == actions[n].kv;
      } else {
        assert s == before;
      }
    }
  }

  lemma {:induction false} FlagsAddToLists(base: Config, actions: seq<Action>, field: string)
    ensures ListOf(ActAll(base, actions), field) == ListOf(base, field) + Added(actions, field)
  {
    if actions != [] {
      var n := |actions| - 1;
      FlagsAddToLists(base, actions[..n], field);
      if actions[n].Add? && actions[n].field == field {
        assert ListOf(base, field) + Added(actions[..n], field) + [actions[n].value]
            == ListOf(base, field) + Added(actions, field);
      }
    }
  }

  /** A scalar is the last flag's value if there is one and the file's or the
      default otherwise; lists grow after those of the file; environment
      variables are set over the file's. */
  lemma {:induction false} LastFlagWins(base: Config, actions: seq<Action>, field: string)
    ensures ScalarOf(ActAll(base, actions), field) ==
            if LastSet(actions, field).Some? then LastSet(actions, field).value else ScalarOf(base, field)
    ensures ListOf(ActAll(base, actions), field) == ListOf(base, field) + Added(actions, field)
    ensures ActAll(base, actions).env == Env.SetAll(base.env, Settings(actions))
  {
    FlagsAddToLists(base, actions, field);
    SettingsDecideEnv(base, actions);
    if actions != [] {
      LastFlagWins(base, actions[..|actions| - 1], field);
    }
  }

  /** What the flags and the configuration under them make of a scalar. */
  function Chosen(base: Config, actions: seq<Action>, field: string): string {
    if LastSet(actions, field).Some? then LastSet(actions, field).value else ScalarOf(base, field)
  }

  function Base(p: Piece, defaults: Config, load: string -> Result<Config>): Config
    requires p.config.Some? ==> load(p.config.value).Ok?
  {
    if p.config.Some? then load(p.config.value).value else defaults
  }

  /** So in the end: every scalar is the last flag's value, else the file's if there
      is one, else the default; only a root file system that none of them gives is the
      first positional argument.  The command is what is left of the positional
      arguments, or the file's if nothing is; other lists and the environment are the
      file's with those of the flags after. */
  lemma WhoDecides(args: seq<string>, defaults: Config, load: string -> Result<Config>, ok: Accepts, field: string)
    requires Meaning(args, defaults, load, ok).Ok?
    ensures
      var p := Scan(args, false, 0, ok).value;
      var base, config := Base(p, defaults, load), Meaning(args, defaults, load, ok).value.config;
      var root, words := Chosen(base, p.actions, "rootfs"), p.positional;
      && ScalarOf(config, field) ==
         (if field == "rootfs" && root == [] && words != [] then words[0] else Chosen(base, p.actions, field))
      && ListOf(config, field) ==
         (if field != "command" || words == [] || (root == [] && |words| == 1)
          then ListOf(base, field) + Added(p.actions, field)
          else if root == [] then words[1..] else words)
      && config.env == Env.SetAll(base.env, Settings(p.actions))
      && Meaning(args, defaults, load, ok).value.detach == p.detach
  {
    hide Scan, LastSet, Added, Settings, Env.SetAll;
    var p := Scan(args, false, 0, ok).value;
    var base := Base(p, defaults, load);
    LastFlagWins(base, p.actions, field);
    LastFlagWins(base, p.actions, "rootfs");
  }
}
