/** What the `build` and `run` commands hand to the container engine: the
    analysed path, the image name, the port and the argument lists of
    `docker build` and `docker run`. */
module Docker {
  import opened GoStrings
  import opened PlanModel
  import opened EnvArgs
  import opened Packages

  /** The path a command analyses: --path, else the positional argument, else ".". */
  function SelectPath(args: seq<string>, pathFlag: string): (path: string)
    ensures pathFlag != "" ==> path == pathFlag
    ensures pathFlag == "" && |args| > 0 ==> path == args[0]
    ensures pathFlag == "" && args == [] ==> path == "."
  {
    var path := if |args| > 0 then args[0] else ".";
    if pathFlag != "" then pathFlag else path
  }

  /** The directory's base name lowercased, with every space turned into `-`. */
  function SanitizeImageName(base: string): string {
    ReplaceAll(ToLower(base), ' ', '-')
  }

  predicate IsUpper(c: char) {
    'A' <= c <= 'Z'
  }

  /** The image name: a non-empty --name verbatim, else the sanitized base
      name, which keeps the length, turns every space into `-` and every
      upper-case ASCII letter into its lower-case letter, and leaves every
      other character where it was. */
  function ImageName(nameFlag: string, base: string): (name: string)
    ensures nameFlag != "" ==> name == nameFlag
    ensures nameFlag == "" ==> |name| == |base| && ' ' !in name
    ensures nameFlag == "" ==> forall i :: 0 <= i < |name| ==> !IsUpper(name[i])
    ensures nameFlag == "" ==> forall i :: 0 <= i < |base| && base[i] == ' ' ==> name[i] == '-'
    ensures nameFlag == "" ==> forall i :: 0 <= i < |base| && IsUpper(base[i]) ==> name[i] == LowerChar(base[i])
    ensures nameFlag == "" ==>
      forall i :: 0 <= i < |base| && !IsUpper(base[i]) && base[i] != ' ' ==> name[i] == base[i]
  {
    if nameFlag != "" then nameFlag else SanitizeImageName(base)
  }

  /** A default name is already sanitized: sanitizing it again changes nothing. */
  lemma SanitizeImageNameIdempotent(base: string)
    ensures SanitizeImageName(SanitizeImageName(base)) == SanitizeImageName(base)
  {
    var once := SanitizeImageName(base);
    var twice := SanitizeImageName(once);
    assert |twice| == |once|;
    forall i | 0 <= i < |once| ensures twice[i] == once[i] {
      assert ToLower(once)[i] == LowerChar(once[i]);
    }
  }

  /** `name:tag`. */
  function FullImageName(name: string, tag: string): string {
    name + ":" + tag
  }

  /** Whether the detector classified the output as a static file tree:
      `output_type` must be present and hold the string "static". */
  predicate StaticOutput(m: map<string, MetaValue>) {
    OutputTypeKey in m && m[OutputTypeKey] == Str("static")
  }

  datatype Shape = Shape(port: string, outputType: string)

  /** The published port and the output type the commands report. */
  function OutputShape(m: map<string, MetaValue>): (shape: Shape)
    ensures shape.port == "80" <==> StaticOutput(m)
    ensures shape.port == "3000" <==> !StaticOutput(m)
    ensures shape.outputType == "static" <==> StaticOutput(m)
    ensures shape.outputType == "server" <==> !StaticOutput(m)
  {
    var shape := Shape("3000", "server");
    if OutputTypeKey in m && m[OutputTypeKey].Str? && m[OutputTypeKey].s == "static" then Shape("80", "static")
    else shape
  }

  /** The leading arguments of `docker build`. */
  function BuildPrefix(fullImageName: string, dockerfilePath: string, noCache: bool): seq<string> {
    ["build", "-t", fullImageName, "-f", dockerfilePath] + (if noCache then ["--no-cache"] else [])
  }

  /** The `KEY=value` text of one build argument. */
  function BuildArg(k: string, m: map<string, string>): string
    requires k in m
  {
    k + "=" + m[k]
  }

  /** The build-argument values for the keys in `order`. */
  function BuildArgValues(order: seq<string>, m: map<string, string>): (values: seq<string>)
    requires forall k :: k in order ==> k in m
    ensures |values| == |order|
    ensures forall i :: 0 <= i < |order| ==> values[i] == BuildArg(order[i], m)
  {
    seq(|order|, i requires 0 <= i < |order| => BuildArg(order[i], m))
  }

  /** `--build-arg KEY=value` for the keys in `order`, in that order. */
  function BuildArgPairs(order: seq<string>, m: map<string, string>): seq<string>
    requires forall k :: k in order ==> k in m
    decreases |order|
  {
    if order == [] then []
    else
      var n := |order| - 1;
      assert forall k :: k in order[..n] ==> k in order;
      BuildArgPairs(order[..n], m) + ["--build-arg", BuildArg(order[n], m)]
  }

  /** One more key adds its pair at the end. */
  lemma BuildArgPairsSnoc(order: seq<string>, k: string, m: map<string, string>)
    requires forall key :: key in order ==> key in m
    requires k in m
    ensures forall key :: key in order + [k] ==> key in m
    ensures BuildArgPairs(order + [k], m) == BuildArgPairs(order, m) + ["--build-arg", BuildArg(k, m)]
  {
    assert (order + [k])[..|order|] == order;
  }

  /** `order` lists every key of `keys` exactly once. */
  ghost predicate Enumerates(order: seq<string>, keys: set<string>) {
    NoDuplicates(order) && forall k :: k in order <==> k in keys
  }

  lemma {:induction false} EnumerationLength(order: seq<string>, keys: set<string>)
    requires Enumerates(order, keys)
    ensures |order| == |keys|
    decreases |order|
  {
    if order != [] {
      var n := |order| - 1;
      var last := order[n];
      assert last !in order[..n];
      assert forall k :: k in order[..n] <==> k in order && k != last;
      EnumerationLength(order[..n], keys - {last});
    } else {
      assert keys == {};
    }
  }

  /** The pairs alternate: `--build-arg` at even offsets, the value after it. */
  lemma {:induction false} BuildArgPairsShape(order: seq<string>, m: map<string, string>)
    requires forall k :: k in order ==> k in m
    ensures |BuildArgPairs(order, m)| == 2 * |order|
    ensures forall i :: 0 <= i < |order| ==>
      BuildArgPairs(order, m)[2 * i] == "--build-arg" && BuildArgPairs(order, m)[2 * i + 1] == BuildArg(order[i], m)
    decreases |order|
  {
    if order != [] {
      var n := |order| - 1;
      var init := order[..n];
      assert forall k :: k in init ==> k in order;
      BuildArgPairsShape(init, m);
      var pairs := BuildArgPairs(order, m);
      assert pairs == BuildArgPairs(init, m) + ["--build-arg", BuildArg(order[n], m)];
      forall i | 0 <= i < |order|
        ensures pairs[2 * i] == "--build-arg" && pairs[2 * i + 1] == BuildArg(order[i], m)
      {
        if i < n {
          assert order[i] == init[i];
        }
      }
    }
  }

  /** A build argument read back by the --build-env parser yields its own
      key and value, whatever the environment, when the key holds no `=`. */
  lemma BuildArgParsesBack(k: string, v: string, env: Env)
    requires '=' !in k
    ensures Entry(k + "=" + v, env) == Some((k, v))
  {
    IndexAfterPrefix(k, '=', v);
    var s := k + "=" + v;
    assert s[..|k|] == k && s[|k| + 1..] == v;
  }

  /** Different keys without `=` give different build-argument texts. */
  lemma BuildArgInjective(k1: string, k2: string, m: map<string, string>)
    requires k1 in m && k2 in m && '=' !in k1 && '=' !in k2
    requires BuildArg(k1, m) == BuildArg(k2, m)
    ensures k1 == k2
  {
    BuildArgParsesBack(k1, m[k1], map[]);
    BuildArgParsesBack(k2, m[k2], map[]);
  }

  /** Each entry of the build environment is passed exactly once. */
  lemma BuildArgExactlyOnce(order: seq<string>, m: map<string, string>, k: string)
    requires Enumerates(order, m.Keys) && k in m
    requires forall key :: key in m ==> '=' !in key
    ensures exists i :: 0 <= i < |order| && BuildArgValues(order, m)[i] == BuildArg(k, m)
    ensures forall i, j :: 0 <= i < j < |order| ==> BuildArgValues(order, m)[i] != BuildArgValues(order, m)[j]
  {
    var values := BuildArgValues(order, m);
    var i :| 0 <= i < |order| && order[i] == k;
    assert values[i] == BuildArg(k, m);
    forall i, j | 0 <= i < j < |order| ensures values[i] != values[j] {
      if values[i] == values[j] {
        BuildArgInjective(order[i], order[j], m);
      }
    }
  }

  /** The last build-argument value sets its own key on top of the others. */
  lemma ParseBackLast(order: seq<string>, m: map<string, string>, env: Env)
    requires order != [] && forall k :: k in order ==> k in m && '=' !in k
    ensures forall k :: k in order[..|order| - 1] ==> k in m
    ensures var n := |order| - 1;
      ParsedEnv(BuildArgValues(order, m), env)
        == ParsedEnv(BuildArgValues(order[..n], m), env)[order[n] := m[order[n]]]
  {
    var n := |order| - 1;
    var values := BuildArgValues(order, m);
    assert forall k :: k in order[..n] ==> k in order;
    assert values[..n] == BuildArgValues(order[..n], m);
    BuildArgParsesBack(order[n], m[order[n]], env);
    assert values[n] == order[n] + "=" + m[order[n]];
  }

  /** Parsing the build-argument values with the --build-env parser gives
      back the entries of the listed keys, and nothing else. */
  lemma {:induction false} BuildArgValuesParseBack(order: seq<string>, m: map<string, string>, env: Env)
    requires forall k :: k in order ==> k in m && '=' !in k
    ensures forall k :: k in ParsedEnv(BuildArgValues(order, m), env) <==> k in order
    ensures forall k :: k in order ==> ParsedEnv(BuildArgValues(order, m), env)[k] == m[k]
    decreases |order|
  {
    if order != [] {
      var n := |order| - 1;
      ParseBackLast(order, m, env);
      BuildArgValuesParseBack(order[..n], m, env);
      assert forall k :: k in order <==> k in order[..n] || k == order[n];
    }
  }

  /** The build arguments hand the container engine exactly the build
      environment the commands parsed: read back, they reproduce it. */
  lemma BuildArgsReproduceBuildEnv(order: seq<string>, args: seq<string>, env: Env)
    requires Enumerates(order, ParsedEnv(args, env).Keys)
    ensures ParsedEnv(BuildArgValues(order, ParsedEnv(args, env)), env) == ParsedEnv(args, env)
  {
    var m := ParsedEnv(args, env);
    ParsedEnvKeysHaveNoEq(args, env);
    BuildArgValuesParseBack(order, m, env);
    var back := ParsedEnv(BuildArgValues(order, m), env);
    assert back.Keys == m.Keys;
  }

  /** The shape of the `docker build` arguments: the prefix, one
      `--build-arg KEY=value` per entry of `envMap` in some order, and the
      context path last. */
  ghost predicate IsBuildArgs(args: seq<string>, fullImageName: string, dockerfilePath: string, noCache: bool,
                              envMap: map<string, string>, contextPath: string)
  {
    exists order ::
      && Enumerates(order, envMap.Keys)
      && args == BuildPrefix(fullImageName, dockerfilePath, noCache) + BuildArgPairs(order, envMap) + [contextPath]
  }

  /** The loop over the build environment: `--build-arg KEY=value` appended
      for each entry, in Go's unspecified map order. */
  method AppendBuildArgs(prefix: seq<string>, envMap: map<string, string>)
    returns (args: seq<string>, ghost order: seq<string>)
    ensures Enumerates(order, envMap.Keys)
    ensures args == prefix + BuildArgPairs(order, envMap)
  {
    args := prefix;
    var remaining := envMap.Keys;
    order := [];
    while remaining != {}
      invariant remaining <= envMap.Keys
      invariant NoDuplicates(order)
      invariant forall k :: k in order <==> k in envMap && k !in remaining
      invariant args == prefix + BuildArgPairs(order, envMap)
      decreases remaining
    {
      var key :| key in remaining;
      var value := envMap[key];
      args := args + ["--build-arg", key + "=" + value];
      BuildArgPairsSnoc(order, key, envMap);
      order := order + [key];
      remaining := remaining - {key};
    }
  }

  /** The `docker build` arguments, with the entries of `envMap` taken in an
      unspecified order (Go map iteration). */
  method DockerBuildArgs(fullImageName: string, dockerfilePath: string, noCache: bool,
                         envMap: map<string, string>, contextPath: string)
    returns (args: seq<string>)
    ensures IsBuildArgs(args, fullImageName, dockerfilePath, noCache, envMap, contextPath)
    ensures |args| == |BuildPrefix(fullImageName, dockerfilePath, noCache)| + 2 * |envMap| + 1
    ensures args[..5] == ["build", "-t", fullImageName, "-f", dockerfilePath]
    ensures args[|args| - 1] == contextPath
  {
    args := ["build", "-t", fullImageName, "-f", dockerfilePath];
    if noCache {
      args := args + ["--no-cache"];
    }

    ghost var order;
    args, order := AppendBuildArgs(args, envMap);

    ghost var prefix := BuildPrefix(fullImageName, dockerfilePath, noCache);
    ghost var pairs := BuildArgPairs(order, envMap);
    args := args + [contextPath];
    assert args == prefix + pairs + [contextPath];
    EnumerationLength(order, envMap.Keys);
    BuildArgPairsShape(order, envMap);
    assert args[..5] == prefix[..5];
  }

  /** The shape of the `docker run` arguments: the fixed development flags
      and port mapping, `-e VALUE` per --env flag in order, and the image last. */
  predicate IsRunArgs(args: seq<string>, port: string, envs: seq<string>, fullImageName: string) {
    && |args| == 6 + 2 * |envs|
    && args[..5] == ["run", "--rm", "-it", "-p", port + ":" + port]
    && (forall i :: 0 <= i < |envs| ==> args[5 + 2 * i] == "-e" && args[6 + 2 * i] == envs[i])
    && args[|args| - 1] == fullImageName
  }

  /** The shape fixes every argument: two lists of that shape are equal. */
  lemma RunArgsDetermined(a1: seq<string>, a2: seq<string>, port: string, envs: seq<string>, image: string)
    requires IsRunArgs(a1, port, envs, image) && IsRunArgs(a2, port, envs, image)
    ensures a1 == a2
  {
    forall k | 0 <= k < |a1| ensures a1[k] == a2[k] {
      if k < 5 {
        assert a1[k] == a1[..5][k] && a2[k] == a2[..5][k];
      } else if k < |a1| - 1 {
        var i := (k - 5) / 2;
        if k % 2 == 1 {
          assert k == 5 + 2 * i;
        } else {
          assert k == 6 + 2 * i;
        }
      }
    }
  }

  /** The `docker run` argument list, built by appending. */
  method DockerRunArgs(port: string, envs: seq<string>, fullImageName: string) returns (args: seq<string>)
    ensures IsRunArgs(args, port, envs, fullImageName)
  {
    args := ["run", "--rm", "-it", "-p", port + ":" + port];
    for i := 0 to |envs|
      invariant |args| == 5 + 2 * i
      invariant args[..5] == ["run", "--rm", "-it", "-p", port + ":" + port]
      invariant forall j :: 0 <= j < i ==> args[5 + 2 * j] == "-e" && args[6 + 2 * j] == envs[j]
    {
      args := args + ["-e", envs[i]];
    }
    args := args + [fullImageName];
  }
}
