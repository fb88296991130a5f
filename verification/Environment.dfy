/**
  The layers of the container's environment (internal/endpoint/environment.go,
  internal/endpoint/server.go, internal/endpoint/env.go, internal/config/config.go).

  The endpoint applies every update to its own process environment; an interactive shell reloads
  the published environment before every prompt by evaluating the text of `--shell-env`.
*/
module Environment {
  import opened Common
  import opened ShellText

  type Env = map<string, string>

  const PREFIX := "_DWORM_"
  const BASE := "_DWORM_BASE"
  const OVERRIDES := "_DWORM_OVERRIDES"
  const KEYS := "_DWORM_KEYS"

  predicate IsInternal(name: string) {
    PREFIX <= name
  }

  /** config.Validate. */
  predicate Validates(env: Env) {
    forall k :: k in env ==> IsName(k) && !IsInternal(k) && '\0' !in env[k]
  }

  /** What os.Setenv accepts. */
  predicate CanSet(name: string, value: string) {
    name != [] && '=' !in name && '\0' !in name && '\0' !in value
  }

  lemma ValidCanBeSet(env: Env, name: string)
    requires Validates(env) && name in env
    ensures CanSet(name, env[name])
  {
    forall i | 0 <= i < |name| ensures name[i] != '=' && name[i] != '\0' {
      assert NameChar(name[i]);
    }
  }

  // ---------------------------------------------------------------- the endpoint's own environment

  /** What became of an update. */
  datatype Outcome = Updated | Invalid | NotStored

  /** The endpoint server, as far as it keeps its process environment. */
  class Server {
    var osEnv: Env
    var baseEnv: Env
    var envVars: Env
    var published: Env

    /** The process environment is the base overlaid with the latest update only. */
    ghost predicate Valid()
      reads this
    {
      osEnv == baseEnv + envVars && Validates(envVars) && published == envVars
    }

    /**
      `waitForInit`: an invalid environment, one that cannot be stored, and a host that cannot be told
      that the environment is ready end the server before it changes its own environment. `before` is
      what an earlier server published.
    */
    constructor (inherited: Env, before: Env, initial: Env, stored: bool, told: bool)
      ensures baseEnv == inherited
      ensures Validates(initial) && stored && told ==> Valid() && envVars == initial
      ensures !(Validates(initial) && stored && told) ==> osEnv == inherited
      ensures published == if Validates(initial) && stored then initial else before
    {
      osEnv, baseEnv, envVars, published := inherited, inherited, initial, before;
      new;
      if Validates(initial) && stored {
        published := initial;
        if told {
          SetEnvironment(initial);
        }
      }
    }

    /** Sets the variables in any order. */
    method SetEnvironment(env: Env)
      requires Validates(env)
      modifies `osEnv
      ensures osEnv == old(osEnv) + env
    {
      var rest := env.Keys;
      while rest != {}
        invariant rest <= env.Keys
        invariant osEnv == old(osEnv) + map k | k in env && k !in rest :: env[k]
      {
        var key :| key in rest;
        ValidCanBeSet(env, key);
        osEnv := osEnv[key := env[key]];
        rest := rest - {key};
      }
      assert env == map k | k in env && k !in rest :: env[k];
    }

    /**
      An environment update: variables that it drops get their base value back or are unset, then
      its own are set. An invalid update, or one that the file system does not let it store, is an
      error and changes nothing.
    */
    method Update(env: Env, stored: bool) returns (outcome: Outcome)
      requires Valid()
      modifies `osEnv, `envVars, `published
      ensures Valid()
      ensures outcome == if !Validates(env) then Invalid else if stored then Updated else NotStored
      ensures envVars == if outcome.Updated? then env else old(envVars)
      ensures !outcome.Updated? ==> osEnv == old(osEnv) && published == old(published)
    {
      if !Validates(env) { return Invalid; }
      if !stored { return NotStored; }
      hide Validates, Lookup;
      published := env;
      ghost var was := osEnv;
      RestoreDropped(env);
      RestoringMakesLayers(was, baseEnv, envVars, osEnv, env);
      SetEnvironment(env);
      envVars := env;
      return Updated;
    }

    /** Variables that the new environment drops get their base value back, or are unset. */
    method RestoreDropped(env: Env)
      modifies `osEnv
      ensures forall k :: Lookup(osEnv, k) == Lookup(if k in envVars && k !in env then baseEnv else old(osEnv), k)
    {
      var rest := envVars.Keys;
      while rest != {}
        invariant rest <= envVars.Keys
        invariant forall k ::
          Lookup(osEnv, k) == Lookup(if k in envVars && k !in rest && k !in env then baseEnv else old(osEnv), k)
      {
        var key :| key in rest;
        if key !in env {
          ghost var was := osEnv;
          osEnv := if key in baseEnv then osEnv[key := baseEnv[key]] else osEnv - {key};
          assert forall k :: k != key ==> Lookup(osEnv, k) == Lookup(was, k);
        }
        rest := rest - {key};
      }
    }
  }

  /** Variables dropped by `env` have their base value again, so setting its own gives the new layers. */
  lemma RestoringMakesLayers(was: Env, base: Env, vars: Env, restored: Env, env: Env)
    requires was == base + vars
    requires forall k :: Lookup(restored, k) == Lookup(if k in vars && k !in env then base else was, k)
    ensures restored + env == base + env
  {
    forall k ensures Lookup(restored + env, k) == Lookup(base + env, k) {
      assert Lookup(restored, k) == Lookup(if k in vars && k !in env then base else was, k);
    }
    SameLookup(restored + env, base + env);
  }

  // ---------------------------------------------------------------- interactive shells

  /** JSON encoding of an environment, as far as it matters here. */
  datatype Json = Json(encode: Env -> string, decode: string -> Option<Env>)
  {
    ghost predicate Valid() {
      forall env :: decode(encode(env)) == Some(env)
    }
  }

  function Lookup(vars: Env, name: string): Option<string> {
    if name in vars then Some(vars[name]) else None
  }

  function Execute(vars: Env, command: Command): Env {
    match command
    case Export(name, value) => vars[name := value]
    case Unset(name) => vars - {name}
  }

  function ExecuteAll(vars: Env, commands: seq<Command>): Env {
    if commands == [] then vars
    else Execute(ExecuteAll(vars, commands[..|commands| - 1]), commands[|commands| - 1])
  }

  /** Evaluating a text changes the variables only if the text is understood. */
  function Evaluate(vars: Env, text: string): Env {
    var commands := Understood(text);
    if commands.Some? then ExecuteAll(vars, commands.value) else vars
  }

  /** The state that a shell carries in its internal variables. */
  datatype Carried = Carried(base: Env, overrides: Env, previous: Env)

  function Decoded(vars: Env, name: string, json: Json): Option<Env> {
    if name in vars then json.decode(vars[name]) else None
  }

  function CarriedBy(vars: Env, json: Json): Option<Carried> {
    var base, overrides, previous := Decoded(vars, BASE, json), Decoded(vars, OVERRIDES, json), Decoded(vars, KEYS, json);
    if base.Some? && overrides.Some? && previous.Some? && Validates(previous.value) && Validates(overrides.value) then
      Some(Carried(base.value, overrides.value, previous.value))
    else None
  }

  /** What a reload does with one managed name. */
  function CommandFor(name: string, current: Env, base: Env): Command {
    if name in current then Export(name, current[name])
    else if name in base then Export(name, base[name])
    else Unset(name)
  }

  function CommandsFor(names: seq<string>, current: Env, base: Env): seq<Command> {
    if names == [] then []
    else CommandsFor(names[..|names| - 1], current, base) + [CommandFor(names[|names| - 1], current, base)]
  }

  /** The commands for all names managed before or now, in any order, then the names managed now. */
  ghost predicate IsShellText(text: string, carried: Carried, current: Env, keys: string) {
    exists names: seq<string> ::
      && (forall k :: k in names <==> k in carried.previous || k in current)
      && text == Lines(CommandsFor(names, current, carried.base) + [Export(KEYS, keys)])
  }

  /**
    `--shell-env`: for each name managed before or now, its command; then the names managed now.
    The names can come in any order. `published` is None if the published environment cannot be read.
  */
  method ShellEnvironment(vars: Env, published: Option<Env>, json: Json) returns (text: Option<string>)
    ensures text.Some? <==> published.Some? && Validates(published.value) && CarriedBy(vars, json).Some?
    ensures text.Some? ==>
      var carried := CarriedBy(vars, json).value;
      var current := published.value + carried.overrides;
      IsShellText(text.value, carried, current, json.encode(current))
  {
    if published.None? || !Validates(published.value) { return None; }
    var state := CarriedBy(vars, json);
    if state.None? { return None; }
    var Carried(base, overrides, previous) := state.value;
    var current := published.value + overrides;
    var names: seq<string> := [];
    var rest := previous.Keys + current.Keys;
    var out := "";
    while rest != {}
      invariant rest <= previous.Keys + current.Keys
      invariant forall k :: k in names <==> (k in previous || k in current) && k !in rest
      invariant out == Lines(CommandsFor(names, current, base))
    {
      var name :| name in rest;
      var command := CommandFor(name, current, base);
      ghost var before := CommandsFor(names, current, base);
      assert (names + [name])[..|names|] == names;
      LinesAppend(before, [command]);
      LinesOne(command);
      out := out + Line(command);
      names := names + [name];
      rest := rest - {name};
    }
    var last := Export(KEYS, json.encode(current));
    LinesAppend(CommandsFor(names, current, base), [last]);
    LinesOne(last);
    return Some(out + Line(last));
  }

  /** The variables after a reload, name by name. */
  ghost predicate IsReloaded(vars': Env, vars: Env, carried: Carried, current: Env, keys: string) {
    forall k :: Lookup(vars', k) == Reloaded(vars, carried, current, keys, k)
  }

  function Reloaded(vars: Env, carried: Carried, current: Env, keys: string, k: string): Option<string> {
    if k == KEYS then Some(keys)
    else if k in current then Some(current[k])
    else if k in carried.previous then Lookup(carried.base, k)
    else Lookup(vars, k)
  }

  lemma {:induction false} ExecuteCommandsFor(vars: Env, names: seq<string>, current: Env, base: Env, k: string)
    ensures Lookup(ExecuteAll(vars, CommandsFor(names, current, base)), k)
         == if k !in names then Lookup(vars, k)
            else if k in current then Some(current[k])
            else Lookup(base, k)
    decreases |names|
  {
    if names != [] {
      var n := |names| - 1;
      var before, last := CommandsFor(names[..n], current, base), CommandFor(names[n], current, base);
      assert (before + [last])[..|before|] == before;
      ExecuteCommandsFor(vars, names[..n], current, base, k);
      ExecuteOne(ExecuteAll(vars, before), names[n], current, base, k);
      assert k in names <==> k in names[..n] || k == names[n];
      hide Execute, CommandFor, Lookup;
    }
  }

  lemma {:induction false} CommandsAreNamed(names: seq<string>, current: Env, base: Env)
    requires forall k :: k in names ==> IsName(k)
    ensures AllNamed(CommandsFor(names, current, base))
    decreases |names|
  {
    hide IsName;
    if names != [] {
      assert names[|names| - 1] in names;
      CommandsAreNamed(names[..|names| - 1], current, base);
    }
  }

  /** Evaluating the text of `--shell-env` does what is intended to every variable, whatever the values contain. */
  lemma EvaluateShellText(vars: Env, names: seq<string>, carried: Carried, current: Env, keys: string)
    requires Validates(carried.previous) && Validates(current)
    requires forall k :: k in names <==> k in carried.previous || k in current
    ensures var text := Lines(CommandsFor(names, current, carried.base) + [Export(KEYS, keys)]);
      IsReloaded(Evaluate(vars, Substituted(text)), vars, carried, current, keys)
  {
    var commands, last := CommandsFor(names, current, carried.base), Export(KEYS, keys);
    var text := Lines(commands + [last]);
    hide IsName, CommandsFor, Lines, Substituted, Understood, ExecuteAll, IsInternal, AllNamed, Lookup, Reloaded;
    TextIsNamed(names, carried, current, keys);
    TextReadsBack(commands + [last]);
    assert Evaluate(vars, Substituted(text)) == ExecuteAll(vars, commands + [last]);
    forall k ensures Lookup(ExecuteAll(vars, commands + [last]), k) == Reloaded(vars, carried, current, keys, k) {
      ExecuteText(vars, names, carried, current, keys, k);
    }
  }

  lemma ExecuteText(vars: Env, names: seq<string>, carried: Carried, current: Env, keys: string, k: string)
    requires forall k :: k in names <==> k in carried.previous || k in current
    ensures Lookup(ExecuteAll(vars, CommandsFor(names, current, carried.base) + [Export(KEYS, keys)]), k)
         == Reloaded(vars, carried, current, keys, k)
  {
    hide ExecuteAll, CommandsFor;
    ExecuteCommandsFor(vars, names, current, carried.base, k);
    ExecuteExport(vars, CommandsFor(names, current, carried.base), KEYS, keys, k);
  }

  lemma TextIsNamed(names: seq<string>, carried: Carried, current: Env, keys: string)
    requires Validates(carried.previous) && Validates(current)
    requires forall k :: k in names <==> k in carried.previous || k in current
    ensures AllNamed(CommandsFor(names, current, carried.base) + [Export(KEYS, keys)])
  {
    assert IsName(KEYS);
    hide IsName, IsInternal;
    CommandsAreNamed(names, current, carried.base);
  }

  lemma ExecuteExport(vars: Env, commands: seq<Command>, name: string, value: string, k: string)
    ensures Lookup(ExecuteAll(vars, commands + [Export(name, value)]), k)
         == if k == name then Some(value) else Lookup(ExecuteAll(vars, commands), k)
  {
    assert (commands + [Export(name, value)])[..|commands|] == commands;
  }

  lemma ExecuteOne(vars: Env, name: string, current: Env, base: Env, k: string)
    ensures Lookup(Execute(vars, CommandFor(name, current, base)), k)
         == if k != name then Lookup(vars, k) else if k in current then Some(current[k]) else Lookup(base, k)
  {
  }

  lemma EvaluateIsReload(vars: Env, text: string, carried: Carried, current: Env, keys: string)
    requires Validates(carried.previous) && Validates(current)
    requires IsShellText(text, carried, current, keys)
    ensures IsReloaded(Evaluate(vars, Substituted(text)), vars, carried, current, keys)
  {
    hide Validates, IsReloaded, Lines, CommandsFor;
    var names: seq<string> :|
      && (forall k :: k in names <==> k in carried.previous || k in current)
      && text == Lines(CommandsFor(names, current, carried.base) + [Export(KEYS, keys)]);
    EvaluateShellText(vars, names, carried, current, keys);
  }

  predicate NoInternals(env: Env) {
    forall k :: k in env ==> !IsInternal(k)
  }

  /** The variables that are not dworm's own. */
  function Visible(vars: Env): Env {
    map k | k in vars && !IsInternal(k) :: vars[k]
  }

  ghost predicate IsIntact(vars: Env, json: Json, base: Env, latest: Env, overrides: Env) {
    && json.Valid()
    && Validates(latest) && Validates(overrides) && NoInternals(base)
    && CarriedBy(vars, json) == Some(Carried(base, overrides, latest + overrides))
  }

  /** A shell started by RunWithEnvironment, and its prompt hook. */
  class Shell {
    const json: Json
    var vars: Env
    ghost const base: Env
    ghost const overrides: Env
    ghost var latest: Env        // the published environment at the last reload that worked

    /** The internal variables are the shell's own. */
    ghost predicate Intact()
      reads this
    {
      IsIntact(vars, json, base, latest, overrides)
    }

    /** Base, then published, then overrides: nothing else is visible, and nothing is missing. */
    ghost predicate Layered()
      reads this
    {
      Intact() && Visible(vars) == base + latest + overrides
    }

    constructor (inherited: Env, published: Env, overrides: Env, json: Json)
      requires json.Valid()
      requires Validates(published) && Validates(overrides)
      ensures Layered()
      ensures base == Visible(inherited) && latest == published && this.overrides == overrides
    {
      this.json := json;
      this.base, this.overrides, latest := Visible(inherited), overrides, published;
      vars := Launched(inherited, published, overrides, json);
      new;
      LaunchedIsLayered(inherited, published, overrides, json);
    }

    /** The user's commands change variables, but not dworm's own. */
    method UserRuns(changed: Env)
      requires Intact()
      requires forall k :: IsInternal(k) ==> Lookup(changed, k) == Lookup(vars, k)
      modifies `vars
      ensures Intact() && vars == changed
    {
      InternalNames();
      assert Lookup(changed, BASE) == Lookup(vars, BASE);
      assert Lookup(changed, OVERRIDES) == Lookup(vars, OVERRIDES);
      assert Lookup(changed, KEYS) == Lookup(vars, KEYS);
      vars := changed;
    }

    /**
      A reload before a prompt. Variables that are managed now get their value, those that are no
      longer managed get their base value back or disappear, and all others stay as they are.
    */
    method Reload(published: Option<Env>)
      requires Intact()
      modifies `vars, `latest
      ensures Intact()
      ensures latest == if published.Some? && Validates(published.value) then published.value else old(latest)
      ensures !(published.Some? && Validates(published.value)) ==> vars == old(vars)
      ensures published.Some? && Validates(published.value) ==>
        IsReloaded(vars, old(vars), Carried(base, overrides, old(latest) + overrides), latest + overrides,
                   json.encode(latest + overrides))
      ensures old(Layered()) ==> Layered()
    {
      hide IsShellText, IsReloaded, Evaluate, Substituted, CarriedBy, Validates, Visible;
      var text := ShellEnvironment(vars, published, json);
      if text.Some? {
        ReloadStep(vars, text.value, json, base, latest, overrides, published.value);
        vars := Evaluate(vars, Substituted(text.value));
        latest := published.value;
      }
    }
  }

  lemma MergeAssociates(a: Env, b: Env, c: Env)
    ensures a + (b + c) == a + b + c
  {
  }

  lemma MergeValidates(a: Env, b: Env)
    requires Validates(a) && Validates(b)
    ensures Validates(a + b)
  {
    hide IsName, IsInternal;
  }

  lemma ReloadStep(vars: Env, text: string, json: Json, base: Env, latest: Env, overrides: Env, published: Env)
    requires IsIntact(vars, json, base, latest, overrides) && Validates(published)
    requires IsShellText(text, Carried(base, overrides, latest + overrides), published + overrides,
                         json.encode(published + overrides))
    ensures var vars' := Evaluate(vars, Substituted(text));
      && IsIntact(vars', json, base, published, overrides)
      && IsReloaded(vars', vars, Carried(base, overrides, latest + overrides), published + overrides,
                    json.encode(published + overrides))
      && (Visible(vars) == base + latest + overrides ==> Visible(vars') == base + published + overrides)
  {
    hide IsShellText, IsReloaded, Evaluate, Substituted, CarriedBy, Validates, Visible, NoInternals;
    var carried, current := Carried(base, overrides, latest + overrides), published + overrides;
    MergeValidates(latest, overrides);
    MergeValidates(published, overrides);
    EvaluateIsReload(vars, text, carried, current, json.encode(current));
    ReloadKeepsLayers(Evaluate(vars, Substituted(text)), vars, carried, current, json);
    MergeAssociates(base, latest, overrides);
    MergeAssociates(base, published, overrides);
  }

  /** The environment that RunWithEnvironment gives to a shell. */
  function Launched(inherited: Env, published: Env, overrides: Env, json: Json): Env {
    inherited
      + map[BASE := json.encode(Visible(inherited)), OVERRIDES := json.encode(overrides),
            KEYS := json.encode(published + overrides)]
      + (published + overrides)
  }

  lemma LaunchedIsLayered(inherited: Env, published: Env, overrides: Env, json: Json)
    requires json.Valid() && Validates(published) && Validates(overrides)
    ensures var vars := Launched(inherited, published, overrides, json);
      && CarriedBy(vars, json) == Some(Carried(Visible(inherited), overrides, published + overrides))
      && Visible(vars) == Visible(inherited) + published + overrides
  {
    LaunchedCarries(inherited, published, overrides, json);
    hide CarriedBy, Visible, Validates;
    var vars := Launched(inherited, published, overrides, json);
    forall k ensures Lookup(Visible(vars), k) == Lookup(Visible(inherited) + published + overrides, k) {
      LaunchedLookup(inherited, published, overrides, json, k);
    }
    SameLookup(Visible(vars), Visible(inherited) + published + overrides);
  }

  lemma LaunchedLookup(inherited: Env, published: Env, overrides: Env, json: Json, k: string)
    requires Validates(published) && Validates(overrides)
    ensures Lookup(Visible(Launched(inherited, published, overrides, json)), k)
         == Lookup(Visible(inherited) + published + overrides, k)
  {
    InternalNames();
    hide IsInternal, IsName, Visible;
    VisibleLookup(Launched(inherited, published, overrides, json), k);
    VisibleLookup(inherited, k);
  }

  lemma LaunchedCarries(inherited: Env, published: Env, overrides: Env, json: Json)
    requires json.Valid() && Validates(published) && Validates(overrides)
    ensures CarriedBy(Launched(inherited, published, overrides, json), json)
         == Some(Carried(Visible(inherited), overrides, published + overrides))
  {
    InternalNames();
    hide IsInternal, IsName, Visible;
    var vars, managed := Launched(inherited, published, overrides, json), published + overrides;
    assert BASE !in managed && OVERRIDES !in managed && KEYS !in managed;
    assert BASE in vars && vars[BASE] == json.encode(Visible(inherited));
    assert OVERRIDES in vars && vars[OVERRIDES] == json.encode(overrides);
    assert KEYS in vars && vars[KEYS] == json.encode(managed);
  }

  lemma InternalNames()
    ensures IsInternal(BASE) && IsInternal(OVERRIDES) && IsInternal(KEYS)
  {
  }

  lemma ReloadKeepsLayers(vars': Env, vars: Env, carried: Carried, current: Env, json: Json)
    requires json.Valid() && CarriedBy(vars, json) == Some(carried)
    requires NoInternals(carried.base) && Validates(carried.previous) && Validates(current)
    requires IsReloaded(vars', vars, carried, current, json.encode(current))
    ensures CarriedBy(vars', json) == Some(Carried(carried.base, carried.overrides, current))
    ensures Visible(vars) == carried.base + carried.previous ==> Visible(vars') == carried.base + current
  {
    InternalNames();
    hide IsInternal, IsName;
    assert Lookup(vars', BASE) == Lookup(vars, BASE);
    assert Lookup(vars', OVERRIDES) == Lookup(vars, OVERRIDES);
    assert Lookup(vars', KEYS) == Some(json.encode(current));
    if Visible(vars) == carried.base + carried.previous {
      forall k ensures Lookup(Visible(vars'), k) == Lookup(carried.base + current, k) {
        assert Lookup(vars', k) == Reloaded(vars, carried, current, json.encode(current), k);
        VisibleLookup(vars', k);
        VisibleLookup(vars, k);
      }
      SameLookup(Visible(vars'), carried.base + current);
    }
  }

  lemma VisibleLookup(vars: Env, k: string)
    ensures Lookup(Visible(vars), k) == if IsInternal(k) then None else Lookup(vars, k)
  {
  }

  lemma SameLookup(a: Env, b: Env)
    requires forall k :: Lookup(a, k) == Lookup(b, k)
    ensures a == b
  {
    assert forall k :: k in a <==> Lookup(a, k).Some?;
    assert forall k :: k in b <==> Lookup(b, k).Some?;
    forall k | k in a ensures a[k] == b[k] {
      assert Lookup(a, k) == Some(a[k]) && Lookup(b, k) == Some(b[k]);
    }
  }
}
