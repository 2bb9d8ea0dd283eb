/** Parsing of the repeated `--build-env` arguments into the build
    environment map: `KEY=value`, or a bare `KEY` read from the environment. */
module EnvArgs {
  import opened GoStrings
  import opened PlanModel

  /** The (key, value) entry one argument contributes, if any: an argument
      with `=` is split at its first `=`; a bare name contributes only when
      the variable is set. */
  function Entry(arg: string, env: Env): Option<(string, string)> {
    var idx := Index(arg, '=');
    if idx != -1 then Some((arg[..idx], arg[idx + 1..]))
    else match LookupEnv(env, arg)
      case Some(v) => Some((arg, v))
      case None => None
  }

  /** Whether argument `arg` writes key `k`. */
  predicate Sets(arg: string, env: Env, k: string) {
    Entry(arg, env).Some? && Entry(arg, env).value.0 == k
  }

  /** The map after the arguments are applied left to right. */
  function ParsedEnv(args: seq<string>, env: Env): map<string, string>
    decreases |args|
  {
    if args == [] then map[]
    else
      var m := ParsedEnv(args[..|args| - 1], env);
      match Entry(args[|args| - 1], env)
      case Some((k, v)) => m[k := v]
      case None => m
  }

  /** parseEnvVars (and its copies prepareParseEnvVars and planParseEnvVars). */
  method ParseEnvVars(envArgs: seq<string>, env: Env) returns (result: map<string, string>)
    ensures result == ParsedEnv(envArgs, env)
  {
    result := map[];
    for i := 0 to |envArgs|
      invariant result == ParsedEnv(envArgs[..i], env)
    {
      assert envArgs[..i + 1][..i] == envArgs[..i];
      var arg := envArgs[i];
      var idx := Index(arg, '=');
      if idx != -1 {
        var key := arg[..idx];
        var value := arg[idx + 1..];
        result := result[key := value];
      } else {
        var found := LookupEnv(env, arg);
        if found.Some? {
          result := result[arg := found.value];
        }
      }
    }
    assert envArgs[..|envArgs|] == envArgs;
  }

  /** An argument containing `=` is split at the first `=`: the key is what
      precedes it (possibly empty, never containing `=`) and the value is all
      that follows (possibly containing `=`). The environment is not read. */
  lemma EntrySplitsAtFirstEq(arg: string, env: Env)
    requires '=' in arg
    ensures Entry(arg, env).Some?
    ensures var (k, v) := Entry(arg, env).value; arg == k + "=" + v && '=' !in k
    ensures Entry(arg, env) == Entry(arg, map[])
  {
    var idx := Index(arg, '=');
    assert arg == arg[..idx] + "=" + arg[idx + 1..];
  }

  /** A bare name contributes its environment value when set, and nothing
      otherwise; the empty argument is never set. */
  lemma EntryOfBareName(arg: string, env: Env)
    requires '=' !in arg
    ensures arg != "" && arg in env ==> Entry(arg, env) == Some((arg, env[arg]))
    ensures arg == "" || arg !in env ==> Entry(arg, env) == None
  {
  }

  /** No key of the parsed map contains `=`. */
  lemma {:induction false} ParsedEnvKeysHaveNoEq(args: seq<string>, env: Env)
    ensures forall k :: k in ParsedEnv(args, env) ==> '=' !in k
    decreases |args|
  {
    if args != [] {
      var last := args[|args| - 1];
      ParsedEnvKeysHaveNoEq(args[..|args| - 1], env);
      if '=' in last {
        EntrySplitsAtFirstEq(last, env);
      }
    }
  }

  /** A key is in the parsed map exactly when some argument sets it. */
  lemma {:induction false} ParsedEnvHasKey(args: seq<string>, env: Env, k: string)
    ensures k in ParsedEnv(args, env) <==> exists i :: 0 <= i < |args| && Sets(args[i], env, k)
    decreases |args|
  {
    if args != [] {
      var n := |args| - 1;
      var init := args[..n];
      ParsedEnvHasKey(init, env, k);
      if Sets(args[n], env, k) {
        assert k in ParsedEnv(args, env);
      } else {
        ParsedEnvOtherKey(args, env, k);
        if k in ParsedEnv(init, env) {
          var i :| 0 <= i < n && Sets(init[i], env, k);
          assert init[i] == args[i];
        }
        if exists i :: 0 <= i < |args| && Sets(args[i], env, k) {
          var i :| 0 <= i < |args| && Sets(args[i], env, k);
          assert i != n;
          assert init[i] == args[i];
        }
      }
    }
  }

  /** An argument that does not set `k` leaves the entry of `k` as it was. */
  lemma ParsedEnvOtherKey(args: seq<string>, env: Env, k: string)
    requires args != [] && !Sets(args[|args| - 1], env, k)
    ensures k in ParsedEnv(args, env) <==> k in ParsedEnv(args[..|args| - 1], env)
    ensures k in ParsedEnv(args, env) ==> ParsedEnv(args, env)[k] == ParsedEnv(args[..|args| - 1], env)[k]
  {
  }

  /** Argument `i` gives key `k` the value `v` and no later argument sets `k`. */
  predicate LastSetter(args: seq<string>, env: Env, k: string, v: string, i: int) {
    && 0 <= i < |args|
    && Entry(args[i], env) == Some((k, v))
    && forall j :: i < j < |args| ==> !Sets(args[j], env, k)
  }

  /** Last one wins: the value of a parsed key is the one given by the last
      argument that sets it. */
  lemma {:induction false} ParsedEnvLastWins(args: seq<string>, env: Env, k: string)
    requires k in ParsedEnv(args, env)
    ensures exists i :: LastSetter(args, env, k, ParsedEnv(args, env)[k], i)
    decreases |args|
  {
    var n := |args| - 1;
    if Sets(args[n], env, k) {
      assert LastSetter(args, env, k, ParsedEnv(args, env)[k], n);
    } else {
      var init := args[..n];
      ParsedEnvOtherKey(args, env, k);
      ParsedEnvLastWins(init, env, k);
      var i :| LastSetter(init, env, k, ParsedEnv(init, env)[k], i);
      assert init[i] == args[i];
      forall j | i < j < |args| ensures !Sets(args[j], env, k) {
        if j < n {
          assert init[j] == args[j];
        }
      }
      assert LastSetter(args, env, k, ParsedEnv(args, env)[k], i);
    }
  }

  /** Appending a bare name that is unset, or an empty argument, leaves the
      parsed map unchanged. */
  lemma UnsetBareNameSkipped(args: seq<string>, name: string, env: Env)
    requires '=' !in name && (name == "" || name !in env)
    ensures ParsedEnv(args + [name], env) == ParsedEnv(args, env)
  {
    assert (args + [name])[..|args|] == args;
  }
}
