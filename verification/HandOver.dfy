/** From the command line to init: the configuration made of defaults, file and flags
is the one init reads from `config.json`. */
module HandOver {
  import opened Wrappers
  import Cli
  import Config
  import Env
  import Json

  /** Every file is read into a configuration the way `from_file` does. */
  ghost predicate ReadsFiles(load: string -> Result<Cli.Config>) {
    forall path :: load(path).Ok? ==> exists j :: load(path).value.env == Config.EnvFrom(j)
  }

  /** The environment of a configuration once `finalize_and_validate` has added the
      host name. */
  function FinalEnv(c: Cli.Config, hostname: string): seq<string> {
    Env.Set(c.env, "HOSTNAME=" + hostname)
  }

  /** Defaults, a file, flags and the final host name give an environment that is
      settings over the defaults. */
  lemma ToolEnvWasSet(
    args: seq<string>, defaults: Cli.Config, load: string -> Result<Cli.Config>, ok: Cli.Accepts, hostname: string)
    requires defaults.env == Env.DEFAULT_ENV && ReadsFiles(load)
    requires Cli.Meaning(args, defaults, load, ok).Ok?
    ensures Env.WasSet(FinalEnv(Cli.Meaning(args, defaults, load, ok).value.config, hostname))
  {
    hide Env.WasSet, Cli.Scan;
    var config := Cli.Meaning(args, defaults, load, ok).value.config;
    var p := Cli.Scan(args, false, 0, ok).value;
    var base := Cli.Base(p, defaults, load);
    if p.config.Some? {
      var j :| load(p.config.value).value.env == Config.EnvFrom(j);
      Config.ReadEnvWasSet(j);
    } else {
      Env.DefaultWasSet();
    }
    Cli.WhoDecides(args, defaults, load, ok, "rootfs");
    Env.StillWasSet(base.env, Cli.Settings(p.actions));
    Env.StillWasSet(config.env, ["HOSTNAME=" + hostname]);
    SetOne(config.env, "HOSTNAME=" + hostname);
  }

  lemma SetOne(env: seq<string>, kv: string)
    ensures Env.SetAll(env, [kv]) == Env.Set(env, kv)
  {
    assert [kv][..0] == [];
    assert Env.SetAll(env, []) == env;
  }

  /** So what init reads is what the tool made of its arguments, its file and its
      defaults, exactly if limits are below 2^63 and label keys distinct. */
  lemma ToolConfigurationIsHandedOver(
    args: seq<string>, defaults: Cli.Config, load: string -> Result<Cli.Config>, ok: Cli.Accepts, hostname: string,
    c: Config.Container, f: Config.Readers)
    requires defaults.env == Env.DEFAULT_ENV && ReadsFiles(load)
    requires Cli.Meaning(args, defaults, load, ok).Ok?
    requires c.env == FinalEnv(Cli.Meaning(args, defaults, load, ok).value.config, hostname) && Config.Typed(c)
    ensures
      var read := Json.Parse(Json.Print(Config.ToJson(c), Some(2), 0));
      && read.Ok?
      && (Config.FromJson(read.value, f) == Ok(c.(detach := false)) <==>
            Config.ResourcesFit(c.resources) && Config.Distinct(Config.LabelKeys(c.labels)))
  {
    hide Env.WasSet, Cli.Meaning, Json.Parse, Json.Print, Config.ToJson, Config.FromJson, Config.Distinct, Config.Typed;
    ToolEnvWasSet(args, defaults, load, ok, hostname);
    Config.DocumentParses(c);
    Config.ConfigurationSurvives(c, f);
  }
}
