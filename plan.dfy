/** The build plan the detector hands to the command layer, and the process
    environment the command layer reads overrides from. */
module PlanModel {

  datatype Option<T> = None | Some(value: T)

  /** A value under a key of the plan's open metadata mapping. The command
      layer stores strings, the boolean `true` and lists of package names. */
  datatype MetaValue = Str(s: string) | Bool(b: bool) | StrList(items: seq<string>)

  /** The process environment, from variable name to value. */
  type Env = map<string, string>

  /** os.LookupEnv: the value, and whether the variable is set at all. Go
      reports the empty name as unset whatever the environment holds. */
  function LookupEnv(env: Env, name: string): (r: Option<string>)
    ensures r.Some? <==> name != "" && name in env
    ensures r.Some? ==> r.value == env[name]
  {
    if name != "" && name in env then Some(env[name]) else None
  }

  /** os.Getenv: the value, or "" when the variable is unset (so also for the
      empty name). */
  function Getenv(env: Env, name: string): (v: string)
    ensures name != "" && name in env ==> v == env[name]
    ensures name == "" || name !in env ==> v == ""
  {
    if name != "" && name in env then env[name] else ""
  }

  /** Getenv is LookupEnv with "unset" read as "". */
  lemma GetenvIsLookupEnv(env: Env, name: string)
    ensures Getenv(env, name) == match LookupEnv(env, name) case Some(v) => v case None => ""
  {
  }

  /** The metadata entry under `k`, if any. */
  function At(m: map<string, MetaValue>, k: string): Option<MetaValue> {
    if k in m then Some(m[k]) else None
  }

  // Metadata keys the command layer reads or writes.
  const OutputTypeKey := "output_type"
  const IsSpaKey := "is_spa"
  const StaticServerKey := "static_server"
  const OutputDirOverrideKey := "output_dir_override"
  const CustomPackagesKey := "custom_packages"

  // Environment variables the command layer reads.
  const InstallCmdVar := "COOLPACK_INSTALL_CMD"
  const BuildCmdVar := "COOLPACK_BUILD_CMD"
  const StartCmdVar := "COOLPACK_START_CMD"
  const StaticServerVar := "COOLPACK_STATIC_SERVER"
  const NoSpaVar := "COOLPACK_NO_SPA"
  const SpaVar := "COOLPACK_SPA"
  const OutputDirVar := "COOLPACK_SPA_OUTPUT_DIR"
  const PackagesVar := "COOLPACK_PACKAGES"

  /** The detector's Plan record. The command layer never writes what the
      detector found, so those fields are constants here; the commands, the
      build environment and the metadata are the fields it updates. */
  class Plan {
    const Provider: string
    const Language: string
    const LanguageVersion: string
    const Framework: string
    const FrameworkVersion: string
    const PackageManager: string
    const PackageManagerVersion: string
    const DetectedFiles: seq<string>
    var InstallCommand: string
    var BuildCommand: string
    var StartCommand: string
    var BuildEnv: map<string, string>
    var Metadata: map<string, MetaValue>
    /** False while Metadata is Go's nil map, which reads as empty. */
    var HasMetadata: bool

    ghost predicate Valid()
      reads this
    {
      !HasMetadata ==> Metadata == map[]
    }

    /** `if plan.Metadata == nil { plan.Metadata = make(...) }`, which each
        metadata override starts with. */
    method EnsureMetadata()
      requires Valid()
      modifies this`Metadata, this`HasMetadata
      ensures Valid() && HasMetadata
      ensures Metadata == old(Metadata)
    {
      if !HasMetadata {
        Metadata := map[];
        HasMetadata := true;
      }
    }
  }
}
