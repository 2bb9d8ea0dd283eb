/** The four commands once their inputs are known: `prepare`, `build`, `plan`
    and `run`. The detected plan (null when nothing was detected), the
    absolute path, its base name and the Dockerfile path are inputs; what a
    command computes before handing over to the generator or the container
    engine is its result. */
module Commands {
  import opened PlanModel
  import opened EnvArgs
  import opened Overrides
  import opened Packages
  import opened Docker

  /** The error `prepare`, `build` and `run` return for a null plan. */
  const NoApplication := "no supported application detected"

  datatype Outcome<T> = Fail(message: string) | Success(value: T)

  /** What `build` passes on: the `docker build` arguments and the port and
      output type it reports afterwards. */
  datatype Built = Built(dockerArgs: seq<string>, shape: Shape)

  datatype PrepareFlags = PrepareFlags(path: string, overrides: OverrideFlags)

  datatype BuildFlags = BuildFlags(
    path: string,
    name: string,
    tag: string,
    noCache: bool,
    overrides: OverrideFlags)

  datatype PlanFlags = PlanFlags(path: string, packages: seq<string>, buildEnvs: seq<string>)

  datatype RunFlags = RunFlags(path: string, name: string, tag: string, envs: seq<string>)

  /** Whether the commands report SPA mode: `is_spa` holds the boolean true. */
  predicate SpaMode(m: map<string, MetaValue>) {
    IsSpaKey in m && m[IsSpaKey] == Bool(true)
  }

  /** The overrides never touch `output_type`, so the port and output type
      `build` reports are those of the detected metadata. */
  lemma OverridesKeepOutputShape(m: map<string, MetaValue>, flags: OverrideFlags, env: Env)
    ensures OutputShape(OverlaidMetadata(m, flags, env)) == OutputShape(m)
  {
    OverlaidMetadataByKey(m, flags, env, OutputTypeKey);
    var r := OverlaidMetadata(m, flags, env);
    assert OutputTypeKey in r <==> OutputTypeKey in m;
  }

  /** After the overrides SPA mode is on exactly when it is not disabled and
      it is either enabled or was detected. */
  lemma SpaModeAfterOverrides(m: map<string, MetaValue>, flags: OverrideFlags, env: Env)
    ensures SpaMode(OverlaidMetadata(m, flags, env)) <==>
      !SpaDisabled(flags.noSpa, env) && (SpaEnabled(flags.spa, env) || SpaMode(m))
  {
    OverlaidMetadataByKey(m, flags, env, IsSpaKey);
    var r := OverlaidMetadata(m, flags, env);
    assert IsSpaKey in r <==> At(r, IsSpaKey).Some?;
  }

  /** The image name of `build` and `run`: --name, else the sanitized base
      name of the path, then `:` and the tag. */
  method ResolveImageName(nameFlag: string, baseName: string, tag: string) returns (fullImageName: string)
    ensures fullImageName == FullImageName(ImageName(nameFlag, baseName), tag)
  {
    var imageName := nameFlag;
    if imageName == "" {
      imageName := SanitizeImageName(baseName);
    }
    fullImageName := imageName + ":" + tag;
  }

  /** runPrepare up to the generator: path selection, then the override
      sequence on the detected plan. */
  method RunPrepare(args: seq<string>, flags: PrepareFlags, env: Env, plan: Plan?)
    returns (path: string, outcome: Outcome<map<string, string>>)
    requires plan != null ==> plan.Valid()
    modifies plan
    ensures path == SelectPath(args, flags.path)
    ensures plan == null ==> outcome == Fail(NoApplication)
    ensures plan != null ==>
      && outcome == Success(ParsedEnv(flags.overrides.buildEnvs, env))
      && OverridesApplied(plan, flags.overrides, env)
  {
    path := SelectPath(args, flags.path);

    if plan == null {
      return path, Fail(NoApplication);
    }

    var envMap := ApplyPlanOverrides(plan, flags.overrides, env);
    outcome := Success(envMap);
  }

  /** What runBuild has done once detection succeeded: the override sequence
      holds, the `docker build` arguments carry only the parsed --build-env
      map, never a detected build environment, and the port and output type
      are those of the detected metadata. */
  twostate predicate ImageBuilt(plan: Plan, overrides: OverrideFlags, env: Env, fullImageName: string,
                                dockerfilePath: string, noCache: bool, absPath: string, built: Built)
    reads plan
  {
    && OverridesApplied(plan, overrides, env)
    && IsBuildArgs(built.dockerArgs, fullImageName, dockerfilePath, noCache,
                   ParsedEnv(overrides.buildEnvs, env), absPath)
    && built.shape == OutputShape(old(plan.Metadata))
  }

  /** The part of runBuild after detection succeeded: the override sequence,
      the `docker build` arguments and the port and output type reported. */
  method BuildImage(plan: Plan, overrides: OverrideFlags, env: Env, fullImageName: string,
                    dockerfilePath: string, noCache: bool, absPath: string)
    returns (built: Built)
    requires plan.Valid()
    modifies plan`InstallCommand, plan`BuildCommand, plan`StartCommand
    modifies plan`Metadata, plan`HasMetadata, plan`BuildEnv
    ensures ImageBuilt(plan, overrides, env, fullImageName, dockerfilePath, noCache, absPath, built)
  {
    var envMap := ApplyPlanOverrides(plan, overrides, env);
    var dockerArgs := DockerBuildArgs(fullImageName, dockerfilePath, noCache, envMap, absPath);

    var port := "3000";
    var outputType := "server";
    if OutputTypeKey in plan.Metadata && plan.Metadata[OutputTypeKey].Str? && plan.Metadata[OutputTypeKey].s == "static" {
      port := "80";
      outputType := "static";
    }
    OverridesKeepOutputShape(old(plan.Metadata), overrides, env);
    built := Built(dockerArgs, Shape(port, outputType));
  }

  /** runBuild up to the container engine: path, image name, then, for a
      detected plan, BuildImage. */
  method RunBuild(args: seq<string>, flags: BuildFlags, env: Env,
                  absPath: string, baseName: string, dockerfilePath: string, plan: Plan?)
    returns (path: string, fullImageName: string, outcome: Outcome<Built>)
    requires plan != null ==> plan.Valid()
    modifies plan
    ensures path == SelectPath(args, flags.path)
    ensures fullImageName == FullImageName(ImageName(flags.name, baseName), flags.tag)
    ensures plan == null ==> outcome == Fail(NoApplication)
    ensures plan != null ==>
      && outcome.Success?
      && ImageBuilt(plan, flags.overrides, env, fullImageName, dockerfilePath, flags.noCache, absPath, outcome.value)
  {
    path := SelectPath(args, flags.path);

    fullImageName := ResolveImageName(flags.name, baseName, flags.tag);

    if plan == null {
      return path, fullImageName, Fail(NoApplication);
    }

    var built := BuildImage(plan, flags.overrides, env, fullImageName, dockerfilePath, flags.noCache, absPath);
    outcome := Success(built);
  }

  /** runPlan up to the output: a null plan is not an error; otherwise the
      custom packages are stored and the build environment is replaced only
      when --build-env was given and parses to a non-empty map. */
  method RunPlan(args: seq<string>, flags: PlanFlags, env: Env, plan: Plan?)
    returns (path: string, outcome: Outcome<()>)
    requires plan != null ==> plan.Valid()
    modifies plan
    ensures plan != null ==> unchanged(plan`InstallCommand, plan`BuildCommand, plan`StartCommand)
    ensures path == SelectPath(args, flags.path)
    ensures outcome == Success(())
    ensures plan != null ==>
      && plan.Valid() && plan.HasMetadata
      && plan.Metadata ==
           WithCustomPackages(old(plan.Metadata), flags.packages + EnvPackages(Getenv(env, PackagesVar)))
      && var parsed := ParsedEnv(flags.buildEnvs, env);
         plan.BuildEnv == if |parsed| > 0 then parsed else old(plan.BuildEnv)
  {
    path := SelectPath(args, flags.path);
    outcome := Success(());
    if plan == null {
      return;
    }

    ApplyCustomPackages(plan, flags.packages, env);

    if |flags.buildEnvs| > 0 {
      var envMap := ParseEnvVars(flags.buildEnvs, env);
      if |envMap| > 0 {
        plan.BuildEnv := envMap;
      }
    }
  }

  /** runRun up to the container engine: path, image name, the port from the
      detected output type, then the `docker run` arguments. The plan is only
      read. */
  method RunRun(args: seq<string>, flags: RunFlags, baseName: string, plan: Plan?)
    returns (path: string, fullImageName: string, outcome: Outcome<seq<string>>)
    ensures path == SelectPath(args, flags.path)
    ensures fullImageName == FullImageName(ImageName(flags.name, baseName), flags.tag)
    ensures plan == null ==> outcome == Fail(NoApplication)
    ensures plan != null ==>
      && outcome.Success?
      && IsRunArgs(outcome.value, OutputShape(plan.Metadata).port, flags.envs, fullImageName)
  {
    path := SelectPath(args, flags.path);

    fullImageName := ResolveImageName(flags.name, baseName, flags.tag);

    if plan == null {
      return path, fullImageName, Fail(NoApplication);
    }

    var port := "3000";
    if OutputTypeKey in plan.Metadata && plan.Metadata[OutputTypeKey].Str? && plan.Metadata[OutputTypeKey].s == "static" {
      port := "80";
    }

    var dockerArgs := DockerRunArgs(port, flags.envs, fullImageName);
    outcome := Success(dockerArgs);
  }
}
