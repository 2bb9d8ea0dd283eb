/** The overlay of command-line flags and environment variables onto the
    plan the detector produced, shared by the `build` and `prepare` commands.
    Every rule is "non-empty flag, else non-empty environment variable, else
    the detected value"; the SPA rule lets disabling beat enabling. */
module Overrides {
  import opened PlanModel
  import opened EnvArgs

  /** The override flags `build` and `prepare` both accept. */
  datatype OverrideFlags = OverrideFlags(
    installCmd: string,
    buildCmd: string,
    startCmd: string,
    staticServer: string,
    outputDir: string,
    spa: bool,
    noSpa: bool,
    buildEnvs: seq<string>)

  /** CLI > environment > detected, with "" meaning "not given". */
  function Resolve(cli: string, envValue: string, detected: string): (r: string)
    ensures cli != "" ==> r == cli
    ensures cli == "" && envValue != "" ==> r == envValue
    ensures cli == "" && envValue == "" ==> r == detected
    ensures r == "" <==> cli == "" && envValue == "" && detected == ""
  {
    if cli != "" then cli else if envValue != "" then envValue else detected
  }

  /** Writes `key` from the flag, else from the environment value, and leaves
      `m` as it is when both are empty. */
  function OverlayString(m: map<string, MetaValue>, key: string, cli: string, envValue: string)
    : (r: map<string, MetaValue>)
    ensures forall k :: k != key ==> At(r, k) == At(m, k)
    ensures cli != "" ==> At(r, key) == Some(Str(cli))
    ensures cli == "" && envValue != "" ==> At(r, key) == Some(Str(envValue))
    ensures cli == "" && envValue == "" ==> r == m
  {
    var v := Resolve(cli, envValue, "");
    if v != "" then m[key := Str(v)] else m
  }

  /** The values COOLPACK_SPA and COOLPACK_NO_SPA accept as "on". */
  predicate Truthy(v: string) {
    v == "true" || v == "1"
  }

  predicate SpaDisabled(noSpa: bool, env: Env) {
    noSpa || Truthy(Getenv(env, NoSpaVar))
  }

  predicate SpaEnabled(spa: bool, env: Env) {
    spa || Truthy(Getenv(env, SpaVar))
  }

  /** The SPA rule on the metadata map. */
  function SpaMetadata(m: map<string, MetaValue>, spa: bool, noSpa: bool, env: Env)
    : (r: map<string, MetaValue>)
    ensures forall k :: k != IsSpaKey ==> At(r, k) == At(m, k)
    ensures SpaDisabled(noSpa, env) ==> IsSpaKey !in r
    ensures !SpaDisabled(noSpa, env) && SpaEnabled(spa, env) ==> At(r, IsSpaKey) == Some(Bool(true))
    ensures !SpaDisabled(noSpa, env) && !SpaEnabled(spa, env) ==> r == m
    ensures At(r, IsSpaKey) != At(m, IsSpaKey) ==> At(r, IsSpaKey) in {None, Some(Bool(true))}
  {
    if SpaDisabled(noSpa, env) then m - {IsSpaKey}
    else if SpaEnabled(spa, env) then m[IsSpaKey := Bool(true)]
    else m
  }

  /** The metadata after the static-server, SPA and output-directory rules,
      in the order the commands apply them. */
  function OverlaidMetadata(m: map<string, MetaValue>, flags: OverrideFlags, env: Env)
    : map<string, MetaValue>
  {
    var m1 := OverlayString(m, StaticServerKey, flags.staticServer, Getenv(env, StaticServerVar));
    var m2 := SpaMetadata(m1, flags.spa, flags.noSpa, env);
    OverlayString(m2, OutputDirOverrideKey, flags.outputDir, Getenv(env, OutputDirVar))
  }

  /** The value a string override leaves under its key. */
  function StringOverride(before: Option<MetaValue>, cli: string, envValue: string): Option<MetaValue> {
    var v := Resolve(cli, envValue, "");
    if v != "" then Some(Str(v)) else before
  }

  /** The value the SPA rule leaves under `is_spa`. */
  function SpaOverride(before: Option<MetaValue>, spa: bool, noSpa: bool, env: Env): Option<MetaValue> {
    if SpaDisabled(noSpa, env) then None
    else if SpaEnabled(spa, env) then Some(Bool(true))
    else before
  }

  /** Each of the three rules decides its own key from its own inputs and the
      detected value alone, and every other key keeps its detected value, so
      the order in which the commands apply them does not matter. */
  lemma OverlaidMetadataByKey(m: map<string, MetaValue>, flags: OverrideFlags, env: Env, k: string)
    ensures var r := OverlaidMetadata(m, flags, env);
      && (k == StaticServerKey ==>
            At(r, k) == StringOverride(At(m, k), flags.staticServer, Getenv(env, StaticServerVar)))
      && (k == IsSpaKey ==> At(r, k) == SpaOverride(At(m, k), flags.spa, flags.noSpa, env))
      && (k == OutputDirOverrideKey ==>
            At(r, k) == StringOverride(At(m, k), flags.outputDir, Getenv(env, OutputDirVar)))
      && (k !in {StaticServerKey, IsSpaKey, OutputDirOverrideKey} ==> At(r, k) == At(m, k))
  {
    var m1 := OverlayString(m, StaticServerKey, flags.staticServer, Getenv(env, StaticServerVar));
    var m2 := SpaMetadata(m1, flags.spa, flags.noSpa, env);
    assert At(m1, IsSpaKey) == At(m, IsSpaKey);
  }

  /** Applying the overlay a second time changes nothing. */
  lemma OverlaidMetadataIdempotent(m: map<string, MetaValue>, flags: OverrideFlags, env: Env)
    ensures OverlaidMetadata(OverlaidMetadata(m, flags, env), flags, env) == OverlaidMetadata(m, flags, env)
  {
    var r1 := OverlaidMetadata(m, flags, env);
    var r2 := OverlaidMetadata(r1, flags, env);
    forall k ensures At(r2, k) == At(r1, k) {
      OverlaidMetadataByKey(m, flags, env, k);
      OverlaidMetadataByKey(r1, flags, env, k);
    }
    assert forall k :: k in r2 <==> At(r2, k).Some?;
    assert r2.Keys == r1.Keys;
  }

  /** The three metadata rules in the opposite order (output directory, SPA,
      static server) give the same metadata. */
  lemma OverlayOrderIrrelevant(m: map<string, MetaValue>, flags: OverrideFlags, env: Env)
    ensures
      var m1 := OverlayString(m, OutputDirOverrideKey, flags.outputDir, Getenv(env, OutputDirVar));
      var m2 := SpaMetadata(m1, flags.spa, flags.noSpa, env);
      OverlayString(m2, StaticServerKey, flags.staticServer, Getenv(env, StaticServerVar))
        == OverlaidMetadata(m, flags, env)
  {
    var m1 := OverlayString(m, OutputDirOverrideKey, flags.outputDir, Getenv(env, OutputDirVar));
    var m2 := SpaMetadata(m1, flags.spa, flags.noSpa, env);
    var reordered := OverlayString(m2, StaticServerKey, flags.staticServer, Getenv(env, StaticServerVar));
    var r := OverlaidMetadata(m, flags, env);
    forall k ensures At(reordered, k) == At(r, k) {
      OverlaidMetadataByKey(m, flags, env, k);
      if k == StaticServerKey {
        assert At(m2, k) == At(m1, k) == At(m, k);
      } else if k == IsSpaKey {
        assert At(m1, k) == At(m, k);
      } else if k == OutputDirOverrideKey {
        assert At(m2, k) == At(m1, k);
      } else {
        assert At(reordered, k) == At(m2, k) == At(m1, k) == At(m, k);
      }
    }
    assert forall k :: k in reordered <==> At(reordered, k).Some?;
    assert forall k :: k in r <==> At(r, k).Some?;
    assert reordered.Keys == r.Keys;
  }

  /** applyCommandOverrides: each command independently follows
      CLI > environment > detected; no other field is written. */
  method ApplyCommandOverrides(plan: Plan, installCmd: string, buildCmd: string, startCmd: string, env: Env)
    modifies plan`InstallCommand, plan`BuildCommand, plan`StartCommand
    ensures plan.InstallCommand == Resolve(installCmd, Getenv(env, InstallCmdVar), old(plan.InstallCommand))
    ensures plan.BuildCommand == Resolve(buildCmd, Getenv(env, BuildCmdVar), old(plan.BuildCommand))
    ensures plan.StartCommand == Resolve(startCmd, Getenv(env, StartCmdVar), old(plan.StartCommand))
  {
    if installCmd != "" {
      plan.InstallCommand := installCmd;
    } else if Getenv(env, InstallCmdVar) != "" {
      plan.InstallCommand := Getenv(env, InstallCmdVar);
    }

    if buildCmd != "" {
      plan.BuildCommand := buildCmd;
    } else if Getenv(env, BuildCmdVar) != "" {
      plan.BuildCommand := Getenv(env, BuildCmdVar);
    }

    if startCmd != "" {
      plan.StartCommand := startCmd;
    } else if Getenv(env, StartCmdVar) != "" {
      plan.StartCommand := Getenv(env, StartCmdVar);
    }
  }

  /** applyStaticServerSetting: `static_server` from the flag, else from
      COOLPACK_STATIC_SERVER; otherwise the metadata is left as it was. */
  method ApplyStaticServerSetting(plan: Plan, staticServer: string, env: Env)
    requires plan.Valid()
    modifies plan`Metadata, plan`HasMetadata
    ensures plan.Valid() && plan.HasMetadata
    ensures plan.Metadata ==
      OverlayString(old(plan.Metadata), StaticServerKey, staticServer, Getenv(env, StaticServerVar))
  {
    plan.EnsureMetadata();
    if staticServer != "" {
      plan.Metadata := plan.Metadata[StaticServerKey := Str(staticServer)];
    } else if Getenv(env, StaticServerVar) != "" {
      plan.Metadata := plan.Metadata[StaticServerKey := Str(Getenv(env, StaticServerVar))];
    }
  }

  /** applySPASetting: --no-spa or COOLPACK_NO_SPA removes `is_spa` before any
      enabling is looked at; else --spa or COOLPACK_SPA sets it to true; else
      the detected entry stays. `false` is never written. */
  method ApplySPASetting(plan: Plan, spa: bool, noSpa: bool, env: Env)
    requires plan.Valid()
    modifies plan`Metadata, plan`HasMetadata
    ensures plan.Valid() && plan.HasMetadata
    ensures plan.Metadata == SpaMetadata(old(plan.Metadata), spa, noSpa, env)
    ensures noSpa ==> IsSpaKey !in plan.Metadata
    ensures IsSpaKey in plan.Metadata && plan.Metadata[IsSpaKey] == Bool(false) ==>
      old(IsSpaKey in plan.Metadata && plan.Metadata[IsSpaKey] == Bool(false))
  {
    plan.EnsureMetadata();
    if noSpa {
      plan.Metadata := plan.Metadata - {IsSpaKey};
      return;
    }
    if Truthy(Getenv(env, NoSpaVar)) {
      plan.Metadata := plan.Metadata - {IsSpaKey};
      return;
    }
    if spa {
      plan.Metadata := plan.Metadata[IsSpaKey := Bool(true)];
    } else if Truthy(Getenv(env, SpaVar)) {
      plan.Metadata := plan.Metadata[IsSpaKey := Bool(true)];
    }
  }

  /** applyOutputDirSetting: `output_dir_override` from the flag, else from
      COOLPACK_SPA_OUTPUT_DIR; otherwise the metadata is left as it was. */
  method ApplyOutputDirSetting(plan: Plan, outputDir: string, env: Env)
    requires plan.Valid()
    modifies plan`Metadata, plan`HasMetadata
    ensures plan.Valid() && plan.HasMetadata
    ensures plan.Metadata ==
      OverlayString(old(plan.Metadata), OutputDirOverrideKey, outputDir, Getenv(env, OutputDirVar))
  {
    plan.EnsureMetadata();
    if outputDir != "" {
      plan.Metadata := plan.Metadata[OutputDirOverrideKey := Str(outputDir)];
    } else if Getenv(env, OutputDirVar) != "" {
      plan.Metadata := plan.Metadata[OutputDirOverrideKey := Str(Getenv(env, OutputDirVar))];
    }
  }

  /** The plan after the override sequence, in terms of the plan before it:
      each command resolved, the metadata overlaid, and the build environment
      replaced by the parsed one only when that is non-empty. */
  twostate predicate OverridesApplied(plan: Plan, flags: OverrideFlags, env: Env)
    reads plan
  {
    && plan.Valid() && plan.HasMetadata
    && plan.InstallCommand == Resolve(flags.installCmd, Getenv(env, InstallCmdVar), old(plan.InstallCommand))
    && plan.BuildCommand == Resolve(flags.buildCmd, Getenv(env, BuildCmdVar), old(plan.BuildCommand))
    && plan.StartCommand == Resolve(flags.startCmd, Getenv(env, StartCmdVar), old(plan.StartCommand))
    && plan.Metadata == OverlaidMetadata(old(plan.Metadata), flags, env)
    && var parsed := ParsedEnv(flags.buildEnvs, env);
       plan.BuildEnv == if |parsed| > 0 then parsed else old(plan.BuildEnv)
  }

  /** The three metadata rules of the override sequence: static server, SPA,
      then output directory. */
  method ApplyMetadataOverrides(plan: Plan, flags: OverrideFlags, env: Env)
    requires plan.Valid()
    modifies plan`Metadata, plan`HasMetadata
    ensures plan.Valid() && plan.HasMetadata
    ensures plan.Metadata == OverlaidMetadata(old(plan.Metadata), flags, env)
  {
    ApplyStaticServerSetting(plan, flags.staticServer, env);
    ApplySPASetting(plan, flags.spa, flags.noSpa, env);
    ApplyOutputDirSetting(plan, flags.outputDir, env);
  }

  /** The override sequence of `prepare` and `build` once a plan was
      detected: commands, static server, SPA, output directory, then the
      build environment. No other field is written. */
  method ApplyPlanOverrides(plan: Plan, flags: OverrideFlags, env: Env) returns (envMap: map<string, string>)
    requires plan.Valid()
    modifies plan`InstallCommand, plan`BuildCommand, plan`StartCommand
    modifies plan`Metadata, plan`HasMetadata, plan`BuildEnv
    ensures OverridesApplied(plan, flags, env)
    ensures envMap == ParsedEnv(flags.buildEnvs, env)
  {
    ApplyCommandOverrides(plan, flags.installCmd, flags.buildCmd, flags.startCmd, env);
    ApplyMetadataOverrides(plan, flags, env);
    assert plan.InstallCommand == Resolve(flags.installCmd, Getenv(env, InstallCmdVar), old(plan.InstallCommand));
    assert plan.BuildCommand == Resolve(flags.buildCmd, Getenv(env, BuildCmdVar), old(plan.BuildCommand));
    assert plan.StartCommand == Resolve(flags.startCmd, Getenv(env, StartCmdVar), old(plan.StartCommand));
    envMap := ParseEnvVars(flags.buildEnvs, env);
    if |envMap| > 0 {
      plan.BuildEnv := envMap;
    }
  }
}
