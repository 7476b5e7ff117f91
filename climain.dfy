// The `bbblb` command group: `-c KEY=VALUE` overrides and `-v` verbosity.

module CliMain {
  import opened Base

  /** Python's `s.partition("=")` without the separator: the text before
      the first '=' and the text after it ("" when there is no '='). */
  function Partition(s: string): (r: (string, string))
    ensures '=' !in r.0
    ensures '=' in s ==> s == r.0 + "=" + r.1
    ensures '=' !in s ==> r == (s, "")
  {
    if '=' in s then
      var i := IndexOf(s, '=');
      assert s == s[..i] + "=" + s[i + 1..];
      (s[..i], s[i + 1..])
    else (s, "")
  }

  /** The option name a `-c` argument refers to. */
  function ConfigName(kv: string): string {
    Upper(Partition(kv).0)
  }

  /** The environment variable a `-c` argument sets or unsets. */
  function EnvName(kv: string): string {
    "BBBLB_" + ConfigName(kv)
  }

  /** The process environment after some `-c` arguments, and the
      ConfigError message if one was raised. */
  datatype Applied = Applied(env: map<string, string>, error: Option<string>)

  /** The effect of `-c` arguments applied in order: a non-empty value sets
      the variable, an empty one deletes it, and the first unknown option
      name raises, keeping the changes made before it. */
  function ApplyAll(env: map<string, string>, kvs: seq<string>, options: set<string>): (r: Applied)
    ensures r.error.Some? ==> kvs != []
  {
    if kvs == [] then Applied(env, None)
    else
      var init := kvs[..|kvs| - 1];
      var kv := kvs[|kvs| - 1];
      var p := ApplyAll(env, init, options);
      if p.error.Some? then p else ApplyOne(p.env, kv, options)
  }

  /** The arguments raise exactly when one of them names an unknown option. */
  lemma {:induction false} ApplyAllFails(env: map<string, string>, kvs: seq<string>, options: set<string>)
    ensures ApplyAll(env, kvs, options).error.Some? <==> exists i :: 0 <= i < |kvs| && ConfigName(kvs[i]) !in options
  {
    if kvs != [] {
      var init := kvs[..|kvs| - 1];
      ApplyAllFails(env, init, options);
      assert forall i :: 0 <= i < |init| ==> init[i] == kvs[i];
      if exists i :: 0 <= i < |kvs| && ConfigName(kvs[i]) !in options {
        var i :| 0 <= i < |kvs| && ConfigName(kvs[i]) !in options;
        if i < |init| {
          assert ConfigName(init[i]) !in options;
        }
      }
    }
  }

  /** The error raised is the one of the first argument naming an unknown option. */
  lemma {:induction false} FirstUnknownRaises(env: map<string, string>, kvs: seq<string>, options: set<string>, i: nat)
    requires i < |kvs| && ConfigName(kvs[i]) !in options
    requires forall j :: 0 <= j < i ==> ConfigName(kvs[j]) in options
    ensures ApplyAll(env, kvs, options).error == Some("Unknown config parameter: " + ConfigName(kvs[i]))
    decreases |kvs|
  {
    var init := kvs[..|kvs| - 1];
    assert forall j :: 0 <= j < |init| ==> init[j] == kvs[j];
    if i == |kvs| - 1 {
      ApplyAllFails(env, init, options);
    } else {
      FirstUnknownRaises(env, init, options, i);
    }
  }

  /** A variable no argument names keeps its presence and its value. */
  lemma {:induction false} ApplyAllUntouched(env: map<string, string>, kvs: seq<string>, options: set<string>, key: string)
    requires forall i :: 0 <= i < |kvs| ==> EnvName(kvs[i]) != key
    ensures var r := ApplyAll(env, kvs, options);
      (key in r.env <==> key in env) && (key in env ==> r.env[key] == env[key])
  {
    if kvs != [] {
      var init := kvs[..|kvs| - 1];
      assert forall i :: 0 <= i < |init| ==> init[i] == kvs[i];
      ApplyAllUntouched(env, init, options, key);
    }
  }

  /** The effect of one `-c` argument. */
  function ApplyOne(env: map<string, string>, kv: string, options: set<string>): (r: Applied)
    ensures r.error.Some? <==> ConfigName(kv) !in options
    ensures r.error.Some? ==> r.env == env && r.error.value == "Unknown config parameter: " + ConfigName(kv)
    ensures r.error.None? && Partition(kv).1 != "" ==> EnvName(kv) in r.env && r.env[EnvName(kv)] == Partition(kv).1
    ensures r.error.None? && Partition(kv).1 == "" ==> EnvName(kv) !in r.env
  {
    var name := ConfigName(kv);
    if name !in options then Applied(env, Some("Unknown config parameter: " + name))
    else if Partition(kv).1 != "" then Applied(env[EnvName(kv) := Partition(kv).1], None)
    else Applied(env - {EnvName(kv)}, None)
  }

  /** The value of the last `-c` argument for variable `key`, if any. */
  function LastFor(kvs: seq<string>, key: string): (r: Option<string>)
    ensures r.None? <==> forall i :: 0 <= i < |kvs| ==> EnvName(kvs[i]) != key
  {
    if kvs == [] then None
    else
      var kv := kvs[|kvs| - 1];
      if EnvName(kv) == key then Some(Partition(kv).1)
      else
        var init := kvs[..|kvs| - 1];
        assert forall i :: 0 <= i < |init| ==> init[i] == kvs[i];
        LastFor(init, key)
  }

  /** Without an unknown option the last argument for a variable wins: it is
      set to a non-empty value and absent after an empty one. */
  lemma {:induction false} ApplyAllLastWins(env: map<string, string>, kvs: seq<string>, options: set<string>, key: string)
    requires ApplyAll(env, kvs, options).error.None?
    ensures var r := ApplyAll(env, kvs, options);
      && (LastFor(kvs, key).Some? && LastFor(kvs, key).value != "" ==> key in r.env && r.env[key] == LastFor(kvs, key).value)
      && (LastFor(kvs, key) == Some("") ==> key !in r.env)
  {
    if kvs != [] {
      var init := kvs[..|kvs| - 1];
      var kv := kvs[|kvs| - 1];
      if EnvName(kv) != key {
        ApplyAllLastWins(env, init, options, key);
      }
    }
  }

  /** `os.environ`. */
  class Environ {
    var vars: map<string, string>

    constructor (vars: map<string, string>)
      ensures this.vars == vars
    {
      this.vars := vars;
    }
  }

  /** `--config-file` (when non-empty) is stored in `BBBLB_CONFIG`, then the
      `-c` arguments are applied in order; an unknown name stops the loop
      with its ConfigError. */
  method ApplyConfig(environ: Environ, configFile: Option<string>, config: seq<string>, options: set<string>)
    returns (error: Option<string>)
    modifies environ
    ensures var start := if configFile.Some? && configFile.value != "" then old(environ.vars)["BBBLB_CONFIG" := configFile.value] else old(environ.vars);
      Applied(environ.vars, error) == ApplyAll(start, config, options)
  {
    if configFile.Some? && configFile.value != "" {
      environ.vars := environ.vars["BBBLB_CONFIG" := configFile.value];
    }
    ghost var start := environ.vars;
    var i := 0;
    while i < |config|
      invariant 0 <= i <= |config|
      invariant ApplyAll(start, config[..i], options) == Applied(environ.vars, None)
    {
      ghost var next := ApplyOne(environ.vars, config[i], options);
      ApplyAllStep(start, config, options, i);
      assert ApplyAll(start, config[..i + 1], options) == next;
      error := SetFromArgument(environ, config[i], options);
      assert Applied(environ.vars, error) == next;
      if error.Some? {
        AppliedStaysFailed(start, config, options, i + 1);
        return;
      }
      assert next == Applied(environ.vars, None);
      i := i + 1;
    }
    assert config[..i] == config;
    return None;
  }

  /** One iteration of the loop: an unknown name raises, a non-empty value
      sets the variable and an empty one deletes it if present. */
  method SetFromArgument(environ: Environ, kv: string, options: set<string>) returns (error: Option<string>)
    modifies environ
    ensures Applied(environ.vars, error) == ApplyOne(old(environ.vars), kv, options)
  {
    var (name, value) := Partition(kv);
    name := Upper(name);
    if name !in options {
      return Some("Unknown config parameter: " + name);
    }
    var envName := "BBBLB_" + name;
    if value != "" {
      environ.vars := environ.vars[envName := value];
    } else if envName in environ.vars {
      environ.vars := environ.vars - {envName};
    } else {
      assert environ.vars - {envName} == environ.vars;
    }
    return None;
  }

  /** The effect of one more `-c` argument after arguments that all named
      known options. */
  lemma ApplyAllStep(env: map<string, string>, kvs: seq<string>, options: set<string>, i: nat)
    requires i < |kvs|
    requires ApplyAll(env, kvs[..i], options).error.None?
    ensures ApplyAll(env, kvs[..i + 1], options) == ApplyOne(ApplyAll(env, kvs[..i], options).env, kvs[i], options)
  {
    assert kvs[..i + 1][..i] == kvs[..i];
  }

  /** After the first unknown name, later arguments change nothing. */
  lemma {:induction false} AppliedStaysFailed(env: map<string, string>, kvs: seq<string>, options: set<string>, n: nat)
    requires n <= |kvs|
    requires ApplyAll(env, kvs[..n], options).error.Some?
    ensures ApplyAll(env, kvs, options) == ApplyAll(env, kvs[..n], options)
    decreases |kvs| - n
  {
    if n < |kvs| {
      assert kvs[..n + 1][..n] == kvs[..n];
      AppliedStaysFailed(env, kvs, options, n + 1);
    } else {
      assert kvs[..n] == kvs;
    }
  }

  /** Logging levels, with Python's numeric values. */
  datatype Level = Debug | Info | Warning

  function LevelValue(l: Level): int {
    match l
    case Debug => 10
    case Info => 20
    case Warning => 30
  }

  /** The level the `bbblb` loggers log at for a number of `-v` flags. */
  function BbblbLevel(verbose: nat): Level {
    if verbose == 0 then Warning else if verbose == 1 then Info else Debug
  }

  /** The level the `sqlalchemy.engine` logger logs at: SQL statements are
      logged from three `-v` on. */
  function EngineLevel(verbose: nat): Level {
    if verbose >= 3 then Debug else Warning
  }

  /** More `-v` flags never make a logger quieter. */
  lemma VerbosityMonotone(v: nat, w: nat)
    requires v <= w
    ensures LevelValue(BbblbLevel(w)) <= LevelValue(BbblbLevel(v))
    ensures LevelValue(EngineLevel(w)) <= LevelValue(EngineLevel(v))
  {
  }

  /** The root logger and the two named loggers `main` configures; a named
      logger without a level of its own inherits the root's. */
  class Loggers {
    var root: Level
    var bbblb: Option<Level>
    var engine: Option<Level>

    constructor ()
      ensures root == Warning && bbblb.None? && engine.None?
    {
      root := Warning;
      bbblb := None;
      engine := None;
    }

    function Effective(own: Option<Level>): Level
      reads this
    {
      if own.Some? then own.value else root
    }

    /** `logging.basicConfig(level=WARNING)` and the verbosity if-chain. */
    method SetVerbosity(verbose: nat)
      modifies this
      ensures root == (if verbose >= 4 then Debug else Warning)
      ensures bbblb == (if verbose >= 4 then old(bbblb) else Some(BbblbLevel(verbose)))
      ensures engine == (if verbose == 3 then Some(Debug) else old(engine))
      ensures old(bbblb).None? && old(engine).None? ==>
        Effective(bbblb) == BbblbLevel(verbose) && Effective(engine) == EngineLevel(verbose)
    {
      root := Warning;
      if verbose == 0 {
        bbblb := Some(Warning);
      } else if verbose == 1 {
        bbblb := Some(Info);
      } else if verbose == 2 {
        bbblb := Some(Debug);
      } else if verbose == 3 {
        bbblb := Some(Debug);
        engine := Some(Debug);
      } else {
        root := Debug;
      }
    }
  }
}
