/** The command line of `myrun run` as it is written: which arguments there are, and
what each of them asks for, independent of how they are read. */
module CliGrammar {
  import opened Wrappers
  import opened Text
  import opened Cli
  import Env

  // -------------------------------------------------------------------------
  // The flags
  // -------------------------------------------------------------------------

  /** Flags that give a field its value. */
  predicate Gives(flag: string, field: string) {
    GivesOwn(flag, field) || GivesLimit(flag, field) || GivesNetwork(flag, field)
  }

  predicate GivesOwn(flag: string, field: string) {
    || (field == "name" && flag == "--name")
    || (field == "rootfs" && flag == "--rootfs")
    || (field == "cwd" && (flag == "-w" || flag == "--workdir" || flag == "--cwd"))
    || (field == "hostname" && flag == "--hostname")
    || (field == "seccomp" && flag == "--seccomp")
    || (field == "user" && (flag == "-u" || flag == "--user"))
  }

  predicate GivesLimit(flag: string, field: string) {
    || (field == "memory" && (flag == "-m" || flag == "--memory"))
    || (field == "memory_swap" && flag == "--memory-swap")
    || (field == "cpus" && flag == "--cpus")
    || (field == "cpu_weight" && (flag == "--cpu-weight" || flag == "--cpu-shares"))
    || (field == "pids" && (flag == "--pids" || flag == "--pids-limit"))
  }

  predicate GivesNetwork(flag: string, field: string) { GivesLink(flag, field) || GivesAddress(flag, field) }

  predicate GivesLink(flag: string, field: string) {
    || (field == "mode" && (flag == "--network" || flag == "--net"))
    || (field == "bridge" && flag == "--bridge")
    || (field == "mtu" && flag == "--mtu")
  }

  predicate GivesAddress(flag: string, field: string) {
    || (field == "subnet" && flag == "--subnet")
    || (field == "ip" && flag == "--ip")
    || (field == "gateway" && flag == "--gateway")
    || (field == "dns" && flag == "--dns")
  }

  /** Flags that add to a list. */
  predicate Extends(flag: string, field: string) {
    || (field == "mounts" && (flag == "-v" || flag == "--volume" || flag == "--mount"))
    || (field == "labels" && flag == "--label")
    || (field == "publish" && (flag == "-p" || flag == "--publish"))
    || (field == "cap_add" && flag == "--cap-add")
    || (field == "cap_drop" && flag == "--cap-drop")
  }

  /** Flags that stand for a value. */
  predicate Turns(flag: string, field: string, value: string) {
    (value == "true" && TurnsOn(flag, field)) || (value == "false" && TurnsOff(flag, field))
  }

  predicate TurnsOn(flag: string, field: string) {
    || (field == "auto_remove" && flag == "--rm")
    || (field == "read_only" && flag == "--read-only")
    || (field == "privileged" && flag == "--privileged")
  }

  predicate TurnsOff(flag: string, field: string) {
    (field == "nat" && flag == "--no-nat") || LeavesNamespace(flag, field)
  }

  predicate LeavesNamespace(flag: string, field: string) {
    || (field == "pid_ns" && flag == "--no-pid-ns")
    || (field == "ipc_ns" && flag == "--no-ipc-ns")
    || (field == "uts_ns" && flag == "--no-uts-ns")
    || (field == "cgroup_ns" && flag == "--no-cgroup-ns")
  }

  predicate IsFlagOf(flag: string, kind: Kind) {
    match kind
    case EndOfFlags => flag == "--"
    case Help => flag == "-h" || flag == "--help"
    case ConfigFile => flag == "-c" || flag == "--config"
    case Detach => flag == "-d" || flag == "--detach"
    case Setting => flag == "-e" || flag == "--env"
    case Scalar(field) => Gives(flag, field)
    case Listed(field) => Extends(flag, field)
    case Switch(field, value) => Turns(flag, field, value)
    case Choice(field) => field == "no_new_privs" && flag == "--no-new-privs"
  }

  lemma LimitFlags(flag: string, field: string)
    requires GivesLimit(flag, field)
    ensures KindOf(flag) == Some(Scalar(field))
  {
  }

  lemma LinkFlags(flag: string, field: string)
    requires GivesLink(flag, field)
    ensures KindOf(flag) == Some(Scalar(field))
  {
  }

  lemma AddressFlags(flag: string, field: string)
    requires GivesAddress(flag, field)
    ensures KindOf(flag) == Some(Scalar(field))
  {
  }

  lemma NetworkFlags(flag: string, field: string)
    requires GivesNetwork(flag, field)
    ensures KindOf(flag) == Some(Scalar(field))
  {
    hide KindOf, GivesLink, GivesAddress;
    if GivesLink(flag, field) {
      LinkFlags(flag, field);
    } else {
      AddressFlags(flag, field);
    }
  }

  lemma OwnFlags(flag: string, field: string)
    requires GivesOwn(flag, field)
    ensures KindOf(flag) == Some(Scalar(field))
  {
  }

  lemma GivingFlags(flag: string, field: string)
    requires Gives(flag, field)
    ensures KindOf(flag) == Some(Scalar(field))
  {
    hide KindOf, GivesOwn, GivesLimit, GivesNetwork;
    if GivesLimit(flag, field) {
      LimitFlags(flag, field);
    } else if GivesNetwork(flag, field) {
      NetworkFlags(flag, field);
    } else {
      OwnFlags(flag, field);
    }
  }

  lemma ExtendingFlags(flag: string, field: string)
    requires Extends(flag, field)
    ensures KindOf(flag) == Some(Listed(field))
  {
  }

  lemma OnFlags(flag: string, field: string)
    requires TurnsOn(flag, field)
    ensures KindOf(flag) == Some(Switch(field, "true"))
  {
  }

  lemma NoNatFlag()
    ensures KindOf("--no-nat") == Some(Switch("nat", "false"))
  {
  }

  lemma PidAndIpcFlags()
    ensures KindOf("--no-pid-ns") == Some(Switch("pid_ns", "false"))
    ensures KindOf("--no-ipc-ns") == Some(Switch("ipc_ns", "false"))
  {
  }

  lemma UtsAndCgroupFlags()
    ensures KindOf("--no-uts-ns") == Some(Switch("uts_ns", "false"))
    ensures KindOf("--no-cgroup-ns") == Some(Switch("cgroup_ns", "false"))
  {
  }

  lemma NamespaceFlags(flag: string, field: string)
    requires LeavesNamespace(flag, field)
    ensures KindOf(flag) == Some(Switch(field, "false"))
  {
    hide KindOf;
    PidAndIpcFlags();
    UtsAndCgroupFlags();
  }

  lemma OffFlags(flag: string, field: string)
    requires TurnsOff(flag, field)
    ensures KindOf(flag) == Some(Switch(field, "false"))
  {
    hide KindOf, LeavesNamespace;
    if LeavesNamespace(flag, field) {
      NamespaceFlags(flag, field);
    } else {
      NoNatFlag();
    }
  }

  lemma TurningFlags(flag: string, field: string, value: string)
    requires Turns(flag, field, value)
    ensures KindOf(flag) == Some(Switch(field, value))
  {
    hide KindOf, TurnsOn, TurnsOff;
    if TurnsOn(flag, field) && value == "true" {
      OnFlags(flag, field);
    } else {
      OffFlags(flag, field);
    }
  }

  lemma PlainFlags(flag: string, kind: Kind)
    requires !kind.Scalar? && !kind.Listed? && !kind.Switch? && IsFlagOf(flag, kind)
    ensures KindOf(flag) == Some(kind)
  {
  }

  lemma LimitKinds(flag: string)
    ensures
      var kind := ResourceKind(flag);
      kind == NetworkKind(flag) || (kind.Some? && kind.value.Scalar? && GivesLimit(flag, kind.value.field))
  {
    hide NetworkKind;
  }

  lemma NetworkKinds(flag: string)
    ensures
      var kind := NetworkKind(flag);
      kind == SecurityKind(flag) || (kind.Some? && IsFlagOf(flag, kind.value))
  {
    hide SecurityKind, GivesLimit, GivesOwn;
  }

  lemma SecurityKinds(flag: string)
    ensures
      var kind := SecurityKind(flag);
      kind.Some? ==> IsFlagOf(flag, kind.value)
  {
    hide GivesLimit, GivesNetwork;
  }

  lemma OtherKinds(flag: string)
    ensures
      var kind := KindOf(flag);
      kind == ResourceKind(flag) || (kind.Some? && IsFlagOf(flag, kind.value))
  {
    hide ResourceKind, GivesLimit, GivesNetwork;
  }

  /** The reader knows exactly these flags, each for what it is. */
  lemma KnownFlags(flag: string, kind: Kind)
    ensures KindOf(flag) == Some(kind) <==> IsFlagOf(flag, kind)
  {
    hide KindOf, ResourceKind, NetworkKind, SecurityKind, Extends, Turns, GivesOwn, GivesLimit, GivesNetwork;
    OtherKinds(flag);
    LimitKinds(flag);
    NetworkKinds(flag);
    SecurityKinds(flag);
    if IsFlagOf(flag, kind) {
      match kind
      case Scalar(field) => GivingFlags(flag, field);
      case Listed(field) => ExtendingFlags(flag, field);
      case Switch(field, value) => TurningFlags(flag, field, value);
      case _ => PlainFlags(flag, kind);
    }
  }

  predicate Dashed(flag: string) { |flag| >= 2 && flag[0] == '-' && '=' !in flag }

  lemma FlagsAreDashed(flag: string, kind: Kind)
    requires IsFlagOf(flag, kind)
    ensures Dashed(flag)
  {
    match kind
    case Scalar(field) => GivingIsDashed(flag, field);
    case Listed(_) =>
    case Switch(_, _) =>
    case _ =>
  }

  lemma GivingIsDashed(flag: string, field: string)
    requires Gives(flag, field)
    ensures Dashed(flag)
  {
  }

  // -------------------------------------------------------------------------
  // Arguments
  // -------------------------------------------------------------------------

  /** One argument as it is written: a value in the next word or after an equals sign,
      which flags that take none ignore. */
  datatype Arg =
    | File(flag: string, path: string, inline: bool)
    | Give(flag: string, field: string, value: string, inline: bool)
    | Extend(flag: string, field: string, value: string, inline: bool)
    | SetVar(flag: string, kv: string, inline: bool)
    | Turn(flag: string, field: string, value: string, ignored: Option<string>)
    | Choose(flag: string, field: string, choice: Option<string>)
    | Background(flag: string, ignored: Option<string>)
    | Word(text: string)

  function WithValue(flag: string, value: string, inline: bool): seq<string> {
    if inline then [flag + (['='] + value)] else [flag, value]
  }

  function Alone(flag: string, value: Option<string>): string {
    if value.Some? then flag + (['='] + value.value) else flag
  }

  function Written(a: Arg): seq<string> {
    match a
    case File(flag, path, inline) => WithValue(flag, path, inline)
    case Give(flag, _, value, inline) => WithValue(flag, value, inline)
    case Extend(flag, _, value, inline) => WithValue(flag, value, inline)
    case SetVar(flag, kv, inline) => WithValue(flag, kv, inline)
    case Turn(flag, _, _, ignored) => [Alone(flag, ignored)]
    case Choose(flag, _, choice) => [Alone(flag, choice)]
    case Background(flag, ignored) => [Alone(flag, ignored)]
    case Word(text) => [text]
  }

  predicate IsArg(a: Arg, ok: Accepts) {
    match a
    case File(flag, _, _) => IsFlagOf(flag, ConfigFile)
    case Give(flag, field, value, _) => Gives(flag, field) && ok(field, value)
    case Extend(flag, field, value, _) => Extends(flag, field) && ok(field, value)
    case SetVar(flag, _, _) => IsFlagOf(flag, Setting)
    case Turn(flag, field, value, _) => Turns(flag, field, value)
    case Choose(flag, field, choice) => IsFlagOf(flag, Choice(field)) && (choice.Some? ==> ok(field, choice.value))
    case Background(flag, _) => IsFlagOf(flag, Detach)
    case Word(text) => IsPositional(text, false)
  }

  function KindOfArg(a: Arg): Kind
    requires !a.Word?
  {
    match a
    case File(_, _, _) => ConfigFile
    case Give(_, field, _, _) => Scalar(field)
    case Extend(_, field, _, _) => Listed(field)
    case SetVar(_, _, _) => Setting
    case Turn(_, field, value, _) => Switch(field, value)
    case Choose(_, field, _) => Choice(field)
    case Background(_, _) => Detach
  }

  /** What an argument asks for. */
  function EffectOf(a: Arg): Piece {
    match a
    case File(_, path, _) => EMPTY.(config := Some(path))
    case Give(_, field, value, _) => EMPTY.(actions := [SetScalar(field, value)])
    case Extend(_, field, value, _) => EMPTY.(actions := [Add(field, value)])
    case SetVar(_, kv, _) => EMPTY.(actions := [SetEnv(kv)])
    case Turn(_, field, value, _) => EMPTY.(actions := [SetScalar(field, value)])
    case Choose(_, field, choice) =>
      EMPTY.(actions := [SetScalar(field, if choice.Some? then choice.value else "true")])
    case Background(_, _) => EMPTY.(detach := true)
    case Word(text) => EMPTY.(positional := [text])
  }

  lemma FlagSplits(flag: string, value: Option<string>)
    requires Dashed(flag)
    ensures SplitFlag(Alone(flag, value)) == (flag, value) && !IsPositional(Alone(flag, value), false)
  {
    hide SplitOnce;
    WithoutSeparator(flag, '=');
    if value.Some? {
      SplitOnceAt(flag, '=', value.value);
    }
  }

  lemma ValueIsRead(flag: string, kind: Kind, value: string, inline: bool, seen: nat, ok: Accepts)
    requires IsFlagOf(flag, kind) && TakesValue(kind)
    ensures
      var tokens := WithValue(flag, value, inline);
      First(tokens, false, seen, ok) == Valued(kind, value, |tokens|, seen, ok)
  {
    hide KindOf, SplitFlag, IsFlagOf, IsPositional, Valued;
    KnownFlags(flag, kind);
    FlagsAreDashed(flag, kind);
    FlagSplits(flag, None);
    FlagSplits(flag, Some(value));
  }

  lemma NoValueIsRead(flag: string, kind: Kind, value: Option<string>, seen: nat, ok: Accepts)
    requires IsFlagOf(flag, kind) && !TakesValue(kind) && !kind.Help?
    ensures First([Alone(flag, value)], false, seen, ok) == Valueless(kind, value, seen, ok)
  {
    hide KindOf, SplitFlag, IsFlagOf, IsPositional, Valueless;
    KnownFlags(flag, kind);
    FlagsAreDashed(flag, kind);
    FlagSplits(flag, value);
  }

  lemma ArgIsRead(a: Arg, seen: nat, ok: Accepts)
    requires IsArg(a, ok) && (a.Word? ==> seen == 0)
    ensures First(Written(a), false, seen, ok)
         == Ok(Token(EffectOf(a), |Written(a)|, false, if a.Word? then 1 else seen, false))
  {
    if !a.Word? {
      hide First, WithValue, Alone, Gives, Extends, Turns;
      var kind := KindOfArg(a);
      match a
      case File(flag, path, inline) => ValueIsRead(flag, kind, path, inline, seen, ok);
      case Give(flag, _, value, inline) => ValueIsRead(flag, kind, value, inline, seen, ok);
      case Extend(flag, _, value, inline) => ValueIsRead(flag, kind, value, inline, seen, ok);
      case SetVar(flag, kv, inline) => ValueIsRead(flag, kind, kv, inline, seen, ok);
      case Turn(flag, _, _, ignored) => NoValueIsRead(flag, kind, ignored, seen, ok);
      case Choose(flag, _, choice) => NoValueIsRead(flag, kind, choice, seen, ok);
      case Background(flag, ignored) => NoValueIsRead(flag, kind, ignored, seen, ok);
    }
  }

  // -------------------------------------------------------------------------
  // Command lines
  // -------------------------------------------------------------------------

  /** Arguments, and what comes after the last of them: nothing, the marker `--` with
      words that are no flags, or a command with words of its own. */
  datatype Line = Line(args: seq<Arg>, rest: Rest)

  datatype Rest = Nothing | Marked(ignored: Option<string>, words: seq<string>) | Command(words: seq<string>)

  function Tokens(args: seq<Arg>): seq<string> {
    if args == [] then [] else Written(args[0]) + Tokens(args[1..])
  }

  function RestTokens(rest: Rest): seq<string> {
    match rest
    case Nothing => []
    case Marked(ignored, words) => [Alone("--", ignored)] + words
    case Command(words) => words
  }

  function LineTokens(l: Line): seq<string> { Tokens(l.args) + RestTokens(l.rest) }

  /** The positional arguments. */
  function Words(args: seq<Arg>): seq<string> {
    if args == [] then [] else (if args[0].Word? then [args[0].text] else []) + Words(args[1..])
  }

  function RestWords(rest: Rest): seq<string> { if rest.Nothing? then [] else rest.words }

  predicate AreArgs(args: seq<Arg>, ok: Accepts) { forall i :: 0 <= i < |args| ==> IsArg(args[i], ok) }

  /** A line that follows `seen` positional arguments: the second one begins the
      command. */
  predicate IsLineAfter(l: Line, seen: nat, ok: Accepts) {
    && AreArgs(l.args, ok) && seen + |Words(l.args)| <= 1
    && (l.rest.Command? ==>
          seen + |Words(l.args)| == 1 && l.rest.words != [] && IsPositional(l.rest.words[0], false))
  }

  predicate IsLine(l: Line, ok: Accepts) { IsLineAfter(l, 0, ok) }

  function Effects(args: seq<Arg>): Piece {
    if args == [] then EMPTY else Join(EffectOf(args[0]), Effects(args[1..]))
  }

  function LineEffect(l: Line): Piece { Join(Effects(l.args), EMPTY.(positional := RestWords(l.rest))) }

  lemma ArgBegins(a: Arg, more: seq<string>, seen: nat, ok: Accepts)
    requires IsArg(a, ok) && (a.Word? ==> seen == 0)
    ensures
      var rest := Beginning(more, if a.Word? then 1 else seen, ok);
      Beginning(Written(a) + more, seen, ok) ==
      if rest.None? then None else Some((Join(EffectOf(a), rest.value.0), rest.value.1))
  {
    hide First, IsArg, EffectOf, Written, Join;
    IsNotEmpty(a);
    ArgIsRead(a, seen, ok);
    FirstIsLocal(Written(a), more, false, seen, ok);
    assert (Written(a) + more)[|Written(a)|..] == more;
  }

  lemma CountWords(args: seq<Arg>)
    requires args != []
    ensures |Words(args)| == (if args[0].Word? then 1 else 0) + |Words(args[1..])|
    ensures Tokens(args) == Written(args[0]) + Tokens(args[1..])
  {
  }

  lemma {:induction false} ArgsBegin(args: seq<Arg>, seen: nat, ok: Accepts)
    requires AreArgs(args, ok) && seen + |Words(args)| <= 1
    ensures Beginning(Tokens(args), seen, ok) == Some((Effects(args), seen + |Words(args)|))
  {
    hide First, IsArg, EffectOf, Written, Join;
    if args != [] {
      hide Beginning, Words, Tokens;
      CountWords(args);
      ArgsBegin(args[1..], if args[0].Word? then 1 else seen, ok);
      ArgBegins(args[0], Tokens(args[1..]), seen, ok);
    }
  }

  lemma IsNotEmpty(a: Arg)
    ensures Written(a) != []
  {
  }

  /** After `--` nothing is a flag: what follows are positional arguments, whatever
      came before it. */
  lemma MarkerEndsFlags(a: seq<string>, ignored: Option<string>, b: seq<string>, ok: Accepts)
    requires Beginning(a, 0, ok).Some? && Beginning(a, 0, ok).value.1 <= 1
    ensures Scan(a + ([Alone("--", ignored)] + b), false, 0, ok)
         == Ok(Join(Beginning(a, 0, ok).value.0, EMPTY.(positional := b)))
  {
    hide Beginning;
    var n := Beginning(a, 0, ok).value.1;
    BeginningThen(a, [Alone("--", ignored)] + b, 0, ok);
    MarkedIsRead(ignored, b, n, ok);
  }

  lemma MarkedIsRead(ignored: Option<string>, b: seq<string>, seen: nat, ok: Accepts)
    requires seen <= 1
    ensures Scan([Alone("--", ignored)] + b, false, seen, ok) == Ok(EMPTY.(positional := b))
  {
    var tokens := [Alone("--", ignored)] + b;
    MarkerIsRead(ignored, b, seen, ok);
    hide First;
    assert tokens[1..] == b;
    NothingIsAFlagAfterEnd(b, seen, ok);
    JoinEmpty(EMPTY.(positional := b));
  }

  lemma MarkerIsRead(ignored: Option<string>, b: seq<string>, seen: nat, ok: Accepts)
    ensures First([Alone("--", ignored)] + b, false, seen, ok) == Ok(Token(EMPTY, 1, true, seen, false))
  {
    hide KindOf, SplitFlag, IsPositional;
    KnownFlags("--", EndOfFlags);
    FlagSplits("--", ignored);
  }

  lemma RestIsRead(rest: Rest, seen: nat, ok: Accepts)
    requires seen <= 1
    requires rest.Command? ==> seen == 1 && rest.words != [] && IsPositional(rest.words[0], false)
    ensures Scan(RestTokens(rest), false, seen, ok) == Ok(EMPTY.(positional := RestWords(rest)))
  {
    match rest
    case Nothing =>
    case Marked(ignored, words) => MarkedIsRead(ignored, words, seen, ok);
    case Command(words) =>
      hide KindOf;
      assert First(words, false, 1, ok) == Ok(Token(EMPTY.(positional := words), |words|, false, 2, true));
  }

  /** Every line is read for what it asks for. */
  lemma LineIsRead(l: Line, ok: Accepts)
    requires IsLine(l, ok)
    ensures Scan(LineTokens(l), false, 0, ok) == Ok(LineEffect(l))
  {
    hide Beginning, Scan, Effects, IsPositional;
    ArgsBegin(l.args, 0, ok);
    BeginningThen(Tokens(l.args), RestTokens(l.rest), 0, ok);
    RestIsRead(l.rest, |Words(l.args)|, ok);
  }

  // -------------------------------------------------------------------------
  // Nothing else is read
  // -------------------------------------------------------------------------

  lemma SplitFlagIs(raw: string)
    ensures
      var (flag, inline) := SplitFlag(raw);
      raw == Alone(flag, inline)
  {
    hide SplitOnce;
    SplitOnceIs(raw, '=');
  }

  /** The argument a flag that is read was written as. */
  lemma FlagIsWritten(args: seq<string>, seen: nat, ok: Accepts) returns (a: Arg)
    requires args != [] && !IsPositional(args[0], false)
    requires First(args, false, seen, ok).Ok? && !First(args, false, seen, ok).value.ended
    ensures
      var t := First(args, false, seen, ok).value;
      IsArg(a, ok) && !a.Word? && Written(a) == args[..t.used] && t.seen == seen && !t.done
  {
    hide KindOf, SplitFlag, Gives, Extends, Turns;
    var (flag, inline) := SplitFlag(args[0]);
    SplitFlagIs(args[0]);
    var kind := KindOf(flag).value;
    KnownFlags(flag, kind);
    var value := if inline.Some? then inline.value else if |args| >= 2 then args[1] else [];
    match kind {
      case ConfigFile => a := File(flag, value, inline.Some?);
      case Scalar(field) => a := Give(flag, field, value, inline.Some?);
      case Listed(field) => a := Extend(flag, field, value, inline.Some?);
      case Setting => a := SetVar(flag, value, inline.Some?);
      case Switch(field, v) => a := Turn(flag, field, v, inline);
      case Choice(field) => a := Choose(flag, field, inline);
      case Detach => a := Background(flag, inline);
      case _ =>
    }
  }

  lemma MarkerIsWritten(args: seq<string>, seen: nat, ok: Accepts)
    requires args != [] && !IsPositional(args[0], false)
    requires First(args, false, seen, ok).Ok? && First(args, false, seen, ok).value.ended
    ensures args[0] == Alone("--", SplitFlag(args[0]).1)
  {
    hide KindOf, SplitFlag;
    var (flag, inline) := SplitFlag(args[0]);
    SplitFlagIs(args[0]);
    KnownFlags(flag, EndOfFlags);
  }

  lemma {:induction false} ReadIsWritten(args: seq<string>, seen: nat, ok: Accepts) returns (l: Line)
    requires seen <= 1 && Scan(args, false, seen, ok).Ok?
    ensures IsLineAfter(l, seen, ok) && LineTokens(l) == args
    decreases |args|
  {
    hide IsArg, Written, First;
    if args == [] {
      l := Line([], Nothing);
    } else if IsPositional(args[0], false) && seen == 1 {
      l := Line([], Command(args));
    } else {
      var t := First(args, false, seen, ok).value;
      if IsPositional(args[0], false) {
        WordIsRead(args, ok);
        var rest := ReadIsWritten(args[1..], 1, ok);
        l := After(Word(args[0]), rest, seen, ok);
        assert args == [args[0]] + args[1..];
      } else if t.ended {
        MarkerIsWritten(args, seen, ok);
        l := Line([], Marked(SplitFlag(args[0]).1, args[1..]));
        assert args == [args[0]] + args[1..];
      } else {
        var a := FlagIsWritten(args, seen, ok);
        var rest := ReadIsWritten(args[t.used..], seen, ok);
        l := After(a, rest, seen, ok);
        assert args == args[..t.used] + args[t.used..];
      }
    }
  }

  lemma WordIsRead(args: seq<string>, ok: Accepts)
    requires args != [] && IsPositional(args[0], false)
    ensures First(args, false, 0, ok) == Ok(Token(EMPTY.(positional := [args[0]]), 1, false, 1, false))
    ensures IsArg(Word(args[0]), ok) && Written(Word(args[0])) == [args[0]]
  {
  }

  lemma After(a: Arg, rest: Line, seen: nat, ok: Accepts) returns (l: Line)
    requires IsArg(a, ok) && IsLineAfter(rest, if a.Word? then seen + 1 else seen, ok)
    ensures IsLineAfter(l, seen, ok) && LineTokens(l) == Written(a) + LineTokens(rest)
  {
    hide IsArg, Written;
    l := Line([a] + rest.args, rest.rest);
    assert l.args[1..] == rest.args;
  }

  /** The arguments that are accepted are exactly the lines. */
  lemma AcceptedExactly(args: seq<string>, ok: Accepts)
    ensures Scan(args, false, 0, ok).Ok? <==> exists l :: IsLine(l, ok) && LineTokens(l) == args
  {
    hide Scan, LineTokens, IsLineAfter;
    if Scan(args, false, 0, ok).Ok? {
      var l := ReadIsWritten(args, 0, ok);
      assert IsLine(l, ok) && LineTokens(l) == args;
    }
    if l :| IsLine(l, ok) && LineTokens(l) == args {
      LineIsRead(l, ok);
    }
  }

  // -------------------------------------------------------------------------
  // What a line means
  // -------------------------------------------------------------------------

  /** The value one argument sets a field to. */
  function GivenBy(a: Arg, field: string): Option<string> {
    match a
    case Give(_, f, value, _) => if f == field then Some(value) else None
    case Turn(_, f, value, _) => if f == field then Some(value) else None
    case Choose(_, f, choice) =>
      if f != field then None else if choice.Some? then choice else Some("true")
    case _ => None
  }

  /** The last argument that sets a field. */
  function LastGiven(args: seq<Arg>, field: string): Option<string> {
    if args == [] then None
    else
      var later := LastGiven(args[1..], field);
      if later.Some? then later else GivenBy(args[0], field)
  }

  function AllAdded(args: seq<Arg>, field: string): seq<string> {
    if args == [] then []
    else
      (if args[0].Extend? && args[0].field == field then [args[0].value] else []) + AllAdded(args[1..], field)
  }

  function Variables(args: seq<Arg>): seq<string> {
    if args == [] then [] else (if args[0].SetVar? then [args[0].kv] else []) + Variables(args[1..])
  }

  function LastFile(args: seq<Arg>): Option<string> {
    if args == [] then None
    else
      var later := LastFile(args[1..]);
      if later.Some? then later else if args[0].File? then Some(args[0].path) else None
  }

  predicate Detached(args: seq<Arg>) { exists i :: 0 <= i < |args| && args[i].Background? }

  lemma {:induction false} LastSetConcat(a: seq<Action>, b: seq<Action>, field: string)
    ensures LastSet(a + b, field) == if LastSet(b, field).Some? then LastSet(b, field) else LastSet(a, field)
  {
    if b == [] {
      assert a + b == a;
    } else {
      assert (a + b)[..|a + b| - 1] == a + b[..|b| - 1];
      LastSetConcat(a, b[..|b| - 1], field);
    }
  }

  lemma {:induction false} AddedConcat(a: seq<Action>, b: seq<Action>, field: string)
    ensures Added(a + b, field) == Added(a, field) + Added(b, field)
  {
    if b == [] {
      assert a + b == a;
    } else {
      assert (a + b)[..|a + b| - 1] == a + b[..|b| - 1];
      AddedConcat(a, b[..|b| - 1], field);
    }
  }

  lemma {:induction false} SettingsConcat(a: seq<Action>, b: seq<Action>)
    ensures Settings(a + b) == Settings(a) + Settings(b)
  {
    if b == [] {
      assert a + b == a;
    } else {
      assert (a + b)[..|a + b| - 1] == a + b[..|b| - 1];
      SettingsConcat(a, b[..|b| - 1]);
    }
  }

  lemma OneEffect(a: Arg, field: string)
    ensures
      var p := EffectOf(a);
      && LastSet(p.actions, field) == GivenBy(a, field)
      && Added(p.actions, field) == (if a.Extend? && a.field == field then [a.value] else [])
      && Settings(p.actions) == (if a.SetVar? then [a.kv] else [])
      && p.config == (if a.File? then Some(a.path) else None)
      && p.positional == (if a.Word? then [a.text] else [])
      && p.detach == a.Background?
  {
  }

  lemma {:induction false} ActionsAre(args: seq<Arg>, field: string)
    ensures
      var actions := Effects(args).actions;
      && LastSet(actions, field) == LastGiven(args, field)
      && Added(actions, field) == AllAdded(args, field)
      && Settings(actions) == Variables(args)
  {
    if args != [] {
      hide EffectOf, LastSet, Added, Settings, GivenBy;
      var p, rest := EffectOf(args[0]), Effects(args[1..]);
      OneEffect(args[0], field);
      ActionsAre(args[1..], field);
      LastSetConcat(p.actions, rest.actions, field);
      AddedConcat(p.actions, rest.actions, field);
      SettingsConcat(p.actions, rest.actions);
    }
  }

  /** The arguments together ask for what each of them asks for. */
  lemma {:induction false} EffectsAre(args: seq<Arg>, field: string)
    ensures
      var p := Effects(args);
      && LastSet(p.actions, field) == LastGiven(args, field)
      && Added(p.actions, field) == AllAdded(args, field)
      && Settings(p.actions) == Variables(args)
      && p.config == LastFile(args) && p.positional == Words(args) && p.detach == Detached(args)
  {
    hide LastSet, Added, Settings, LastGiven, AllAdded, Variables, GivenBy, EffectOf;
    ActionsAre(args, field);
    if args != [] {
      OneEffect(args[0], field);
      EffectsAre(args[1..], field);
      assert forall i :: 0 <= i < |args| - 1 ==> args[1..][i] == args[i + 1];
      assert Detached(args) <==> args[0].Background? || Detached(args[1..]);
    }
  }

  function Decided(base: Config, args: seq<Arg>, field: string): string {
    if LastGiven(args, field).Some? then LastGiven(args, field).value else ScalarOf(base, field)
  }

  /** The configuration a line stands for, field by field: the last argument that sets
      it decides a scalar, else the last file named, else the default; a root file
      system nobody gives is the first word, and the command the words that are left;
      lists and variables are the file's with the line's after. */
  predicate Says(l: Line, base: Config, field: string, r: RunArgs) {
    var root, words := Decided(base, l.args, "rootfs"), Words(l.args) + RestWords(l.rest);
    && ScalarOf(r.config, field) ==
       (if field == "rootfs" && root == [] && words != [] then words[0] else Decided(base, l.args, field))
    && ListOf(r.config, field) ==
       (if field != "command" || words == [] || (root == [] && |words| == 1)
        then ListOf(base, field) + AllAdded(l.args, field)
        else if root == [] then words[1..] else words)
    && r.config.env == Env.SetAll(base.env, Variables(l.args))
    && r.detach == Detached(l.args)
  }

  lemma LineMeans(l: Line, defaults: Config, load: string -> Result<Config>, ok: Accepts, field: string)
    requires IsLine(l, ok)
    ensures
      var file := LastFile(l.args);
      var r := Meaning(LineTokens(l), defaults, load, ok);
      if file.Some? && load(file.value).Err? then r.Err?
      else r.Ok? && Says(l, if file.Some? then load(file.value).value else defaults, field, r.value)
  {
    hide Scan, LastSet, Added, Settings, Env.SetAll, LineTokens, Effects, LastGiven, Words, AllAdded, Variables,
      Detached, LastFile, IsLine;
    LineIsRead(l, ok);
    EffectsAre(l.args, field);
    EffectsAre(l.args, "rootfs");
    assert LineEffect(l).actions == Effects(l.args).actions;
    if Meaning(LineTokens(l), defaults, load, ok).Ok? {
      WhoDecides(LineTokens(l), defaults, load, ok, field);
    }
  }

  /** A flag that gives a field a value, in two words or in one, decides it, whatever
      else the line and the file say before; after it there is no other for that
      field.  (An empty root file system counts as none.) */
  lemma FlagDecides(xs: seq<Arg>, x: Arg, ys: seq<Arg>, rest: Rest, field: string, value: string,
                    defaults: Config, load: string -> Result<Config>, ok: Accepts)
    requires IsLine(Line(xs + ([x] + ys), rest), ok)
    requires GivenBy(x, field) == Some(value) && (field == "rootfs" ==> value != [])
    requires forall y :: y in ys ==> GivenBy(y, field).None?
    ensures
      var r := Meaning(LineTokens(Line(xs + ([x] + ys), rest)), defaults, load, ok);
      r.Ok? ==> ScalarOf(r.value.config, field) == value
  {
    hide IsLine, Meaning, LineTokens, GivenBy;
    LastGivenIs(xs, x, ys, field);
    LineMeans(Line(xs + ([x] + ys), rest), defaults, load, ok, field);
  }

  lemma {:induction false} LastGivenIs(xs: seq<Arg>, x: Arg, ys: seq<Arg>, field: string)
    requires GivenBy(x, field).Some? && forall y :: y in ys ==> GivenBy(y, field).None?
    ensures LastGiven(xs + ([x] + ys), field) == GivenBy(x, field)
    decreases |xs|
  {
    hide GivenBy;
    var all := xs + ([x] + ys);
    if xs == [] {
      assert all[1..] == ys;
      NothingGiven(ys, field);
    } else {
      assert all[1..] == xs[1..] + ([x] + ys);
      LastGivenIs(xs[1..], x, ys, field);
    }
  }

  lemma {:induction false} NothingGiven(ys: seq<Arg>, field: string)
    requires forall y :: y in ys ==> GivenBy(y, field).None?
    ensures LastGiven(ys, field).None?
  {
    if ys != [] {
      NothingGiven(ys[1..], field);
    }
  }
}
