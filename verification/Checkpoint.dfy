/** The checkpoint file and its rules, from scanner/core/scan_checkpoint.py. */
module Checkpoint {
  import opened Collections

  newtype Byte = b: int | 0 <= b < 256
  type Bytes = seq<Byte>

  /** SHA-256 as an injective function: a digest is its preimage under a constructor. */
  datatype Digest<T> = Sha256(preimage: T)

  /** The payload of compute_scan_config_hash; sorting makes it a multiset and a set. */
  datatype GlobalConfig = GlobalConfig(
    scanTypes: multiset<string>, targetType: string, collectMetadata: bool, selected: set<string>, overrides: string)

  /** The payload of scanner_config_hash. */
  datatype ScannerConfig = ScannerConfig(toolsKey: string, timeout: int, env: map<string, string>,
      enabled: Option<bool>)

  /** manifest.checkpoint */
  datatype CheckpointCfg = CheckpointCfg(primaryArtifact: string, artifactFormat: string, hasVersionCommand: bool)

  datatype Record = Record(
    status: string, toolVersion: string, configHash: Digest<ScannerConfig>,
    globalConfigHash: Digest<GlobalConfig>, artifactHash: Digest<Bytes>)

  datatype CheckpointData = CheckpointData(
    status: string, resumed: bool, scanConfigHash: Option<Digest<GlobalConfig>>, targetFingerprint: string,
    steps: map<string, Record>, pipelineOrder: seq<string>)

  const EMPTY_CHECKPOINT := CheckpointData("running", false, None, "", map[], [])

  /** results/{scan_id}/tools/: (tools_key, file name) -> content. */
  type Files = map<(string, string), Bytes>

  /** json.loads and the SARIF shape test stay uninterpreted. */
  datatype Formats = Formats(isJson: Bytes -> bool, hasRuns: Bytes -> bool)

  const STEP_PREFIX := "scanner:"

  function ScannerStepKey(toolsKey: string): string {
    STEP_PREFIX + toolsKey
  }

  lemma StepKeyIsInjective(a: string, b: string)
    ensures ScannerStepKey(a) == ScannerStepKey(b) <==> a == b
  {
    assert ScannerStepKey(a)[|STEP_PREFIX|..] == a;
    assert ScannerStepKey(b)[|STEP_PREFIX|..] == b;
  }

  datatype Validation = Ok(hash: Digest<Bytes>) | Bad(reason: string)

  function LowerFormat(fmt: string): string {
    if fmt == "" then "json"
    else seq(|fmt|, i requires 0 <= i < |fmt| => if 'A' <= fmt[i] <= 'Z' then fmt[i] - 'A' + 'a' else fmt[i])
  }

  function ValidatePrimaryArtifact(formats: Formats, files: Files, toolsKey: string, cfg: CheckpointCfg): Validation {
    if (toolsKey, cfg.primaryArtifact) !in files then Bad("missing")
    else
      var raw := files[(toolsKey, cfg.primaryArtifact)];
      var fmt := LowerFormat(cfg.artifactFormat);
      if raw == [] then Bad("empty")
      else if (fmt == "json" || fmt == "sarif") && !formats.isJson(raw) then Bad("parse")
      else if fmt == "sarif" && !formats.hasRuns(raw) then Bad("sarif_shape")
      else Ok(Sha256(raw))
  }

  function InvalidatedSteps(steps: map<string, Record>): map<string, Record> {
    map k | k in steps && !(STEP_PREFIX <= k) :: steps[k]
  }

  function Invalidated(cp: CheckpointData): CheckpointData {
    cp.(steps := InvalidatedSteps(cp.steps))
  }

  /** The deletion loop over a copy of the keys. */
  method InvalidateScannerSteps(cp: CheckpointData) returns (r: CheckpointData)
    ensures r == Invalidated(cp)
  {
    var steps := cp.steps;
    var keys := cp.steps.Keys;
    while keys != {}
      invariant keys <= cp.steps.Keys
      invariant forall k :: k in steps <==> k in cp.steps && (k in keys || !(STEP_PREFIX <= k))
      invariant forall k :: k in steps ==> steps[k] == cp.steps[k]
    {
      var k :| k in keys;
      keys := keys - {k};
      if STEP_PREFIX <= k {
        steps := steps - {k};
      }
    }
    assert steps == InvalidatedSteps(cp.steps);
    r := cp.(steps := steps);
  }

  /** The tests of can_skip_scanner in their order; None means the scanner may be skipped. */
  function SkipRefusal(
    formats: Formats, cp: CheckpointData, toolsKey: string, cfg: Option<CheckpointCfg>, files: Files,
    configHash: Digest<ScannerConfig>, globalHash: Digest<GlobalConfig>, version: string): Option<string>
  {
    if cfg.None? then Some("no_manifest_checkpoint")
    else if ScannerStepKey(toolsKey) !in cp.steps || cp.steps[ScannerStepKey(toolsKey)].status != "completed"
      then Some("not_completed")
    else
      var st := cp.steps[ScannerStepKey(toolsKey)];
      if st.globalConfigHash != globalHash then Some("global_hash_mismatch")
      else if st.configHash != configHash then Some("config_hash_mismatch")
      else if cfg.value.hasVersionCommand && version != st.toolVersion then Some("tool_version_mismatch")
      else
        match ValidatePrimaryArtifact(formats, files, toolsKey, cfg.value)
        case Bad(reason) => Some("artifact:" + reason)
        case Ok(hash) => if st.artifactHash != hash then Some("artifact_hash_mismatch") else None
  }

  /** record_scanner_completed, for a plugin with a checkpoint block. */
  function Recorded(
    formats: Formats, cp: CheckpointData, toolsKey: string, cfg: CheckpointCfg, files: Files,
    configHash: Digest<ScannerConfig>, globalHash: Digest<GlobalConfig>, version: string,
    fingerprintOk: bool): CheckpointData
  {
    if !fingerprintOk then cp
    else
      match ValidatePrimaryArtifact(formats, files, toolsKey, cfg)
      case Bad(_) => cp
      case Ok(hash) => cp.(steps :=
        cp.steps[ScannerStepKey(toolsKey) := Record("completed", version, configHash, globalHash, hash)])
  }

  /** Recording and then skipping agree: a record just made is accepted as long as the artifact,
      the hashes and the version stay, and any one of them changing refuses it. */
  lemma RecordThenSkip(
    formats: Formats, cp: CheckpointData, toolsKey: string, cfg: CheckpointCfg, files: Files, files': Files,
    config: ScannerConfig, global: GlobalConfig, version: string, config': ScannerConfig, global': GlobalConfig,
    version': string)
    requires ValidatePrimaryArtifact(formats, files, toolsKey, cfg).Ok?
    ensures
      var cp' := Recorded(formats, cp, toolsKey, cfg, files, Sha256(config), Sha256(global), version, true);
      SkipRefusal(formats, cp', toolsKey, Some(cfg), files', Sha256(config'), Sha256(global'), version').None?
      <==> && config' == config && global' == global && (cfg.hasVersionCommand ==> version' == version)
           && (toolsKey, cfg.primaryArtifact) in files'
           && files'[(toolsKey, cfg.primaryArtifact)] == files[(toolsKey, cfg.primaryArtifact)]
  {
  }
}
