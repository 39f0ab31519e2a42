/**
 * The auditd workload: the charm configuration and its validation, and the
 * service object that installs, removes, configures and restarts auditd and
 * copies the audit rules into place.
 */
module Workloads {
  import opened Wrappers
  import opened Text
  import opened Host

  // ---------------------------------------------------------------------------
  // Constants
  // ---------------------------------------------------------------------------

  const AUDITD_MIN_NUM_LOGS: int := 0
  const AUDITD_MAX_NUM_LOGS: int := 999

  /** The apt package and the systemd unit are both called "auditd". */
  const PKG: string := "auditd"
  const NAME: string := "auditd"
  const RULE_PATH: string := "/etc/audit/rules.d/"
  const CONFIG_FILE: string := "/etc/audit/auditd.conf"

  /** Every file the service writes is owned by root with mode 0o640. */
  const OWNER: string := "root"
  const MODE: int := 0x1A0  // 0o640

  const RELOAD_COMMAND: seq<string> := ["augenrules", "--load"]

  // ---------------------------------------------------------------------------
  // Errors
  // ---------------------------------------------------------------------------

  /** The exceptions the service raises or lets through. */
  datatype Error =
    | AuditRuleReloadError         // declared by the workload, never raised
    | AuditdServiceRestartError    // systemd could not restart the unit
    | AuditdServiceNotActiveError  // declared by the workload, never raised
    | PackageError                 // apt could not add or remove the package

  // ---------------------------------------------------------------------------
  // Configuration
  // ---------------------------------------------------------------------------

  /** The validated charm configuration. */
  datatype AuditdConfig = AuditdConfig(numLogs: int, maxLogFile: int)

  const DEFAULT_NUM_LOGS: int := 10
  const DEFAULT_MAX_LOG_FILE: int := 512

  /** Why `num_logs` was rejected. */
  datatype ConfigError = NumLogsTooLow(value: int) | NumLogsTooHigh(value: int)

  /** The `num_logs` field validator: the closed range [0, 999], value unchanged. */
  function ValidateNumLogs(value: int): (r: Result<int, ConfigError>)
    ensures r.Ok? <==> AUDITD_MIN_NUM_LOGS <= value <= AUDITD_MAX_NUM_LOGS
    ensures r.Ok? ==> r.value == value
    ensures r == Err(NumLogsTooLow(value)) <==> value < AUDITD_MIN_NUM_LOGS
    ensures r == Err(NumLogsTooHigh(value)) <==> value > AUDITD_MAX_NUM_LOGS
  {
    if value < AUDITD_MIN_NUM_LOGS then Err(NumLogsTooLow(value))
    else if value > AUDITD_MAX_NUM_LOGS then Err(NumLogsTooHigh(value))
    else Ok(value)
  }

  /** The charm's configuration options as Juju hands them over, by option name. */
  type RawConfig = map<string, int>

  function Lookup(raw: RawConfig, key: string, default: int): (v: int)
  {
    if key in raw then raw[key] else default
  }

  /**
   * Building an `AuditdConfig` from the raw options: a missing option takes its
   * default, other keys are ignored, `num_logs` goes through its validator and
   * `max_log_file` is taken as it is.
   */
  function ParseConfig(raw: RawConfig): (r: Result<AuditdConfig, ConfigError>)
    ensures r.Ok? <==> ("num_logs" in raw ==> AUDITD_MIN_NUM_LOGS <= raw["num_logs"] <= AUDITD_MAX_NUM_LOGS)
    ensures r.Ok? ==> r.value == AuditdConfig(Lookup(raw, "num_logs", DEFAULT_NUM_LOGS),
                                              Lookup(raw, "max_log_file", DEFAULT_MAX_LOG_FILE))
    ensures r.Err? ==> "num_logs" in raw && r == Err(ValidateNumLogs(raw["num_logs"]).error)
  {
    var maxLogFile := Lookup(raw, "max_log_file", DEFAULT_MAX_LOG_FILE);
    if "num_logs" in raw then
      match ValidateNumLogs(raw["num_logs"])
      case Ok(n) => Ok(AuditdConfig(n, maxLogFile))
      case Err(e) => Err(e)
    else
      Ok(AuditdConfig(DEFAULT_NUM_LOGS, maxLogFile))
  }

  /** With no options set the configuration is the defaults: 10 logs of 512 MB. */
  lemma DefaultsAccepted()
    ensures ParseConfig(map[]) == Ok(AuditdConfig(10, 512))
  {
  }

  /** The boundary values of `num_logs`: 0 and 999 pass, -1 and 1000 do not. */
  lemma NumLogsBoundary()
    ensures ValidateNumLogs(0) == Ok(0) && ValidateNumLogs(999) == Ok(999)
    ensures ValidateNumLogs(-1).Err? && ValidateNumLogs(1000).Err?
  {
  }

  /** `max_log_file` has no bound: any value is accepted with a valid `num_logs`. */
  lemma MaxLogFileUnbounded(raw: RawConfig, m: int)
    requires "num_logs" in raw ==> AUDITD_MIN_NUM_LOGS <= raw["num_logs"] <= AUDITD_MAX_NUM_LOGS
    ensures ParseConfig(raw["max_log_file" := m]).Ok?
    ensures ParseConfig(raw["max_log_file" := m]).value.maxLogFile == m
  {
    assert "num_logs" in raw["max_log_file" := m] ==> raw["max_log_file" := m]["num_logs"] == raw["num_logs"];
  }

  // ---------------------------------------------------------------------------
  // Audit rules
  // ---------------------------------------------------------------------------

  /** A rule file of the charm's rule source directory: its name and its text as stored on disk. */
  datatype RuleFile = RuleFile(name: string, content: string)

  /**
   * The file a rule becomes in the rule directory: its text as a text-mode
   * read returns it, root-owned with mode 0o640.
   */
  function RuleCopy(f: RuleFile): (file: File)
  {
    File(UniversalNewlines(f.content), OWNER, MODE)
  }

  function RuleNames(files: seq<RuleFile>): (names: set<string>)
  {
    set f | f in files :: f.name
  }

  /** The rule directory after copying `files` into `dir`, one after the other. */
  function CopyRules(dir: map<string, File>, files: seq<RuleFile>): (copied: map<string, File>)
    decreases |files|
  {
    if files == [] then dir
    else
      var last := files[|files| - 1];
      CopyRules(dir, files[..|files| - 1])[last.name := RuleCopy(last)]
  }

  /** The writes that copying `files` makes, in order. */
  function RuleWrites(files: seq<RuleFile>): (calls: seq<Call>)
    ensures |calls| == |files|
  {
    seq(|files|, i requires 0 <= i < |files| =>
      WriteFile(RULE_PATH + files[i].name, UniversalNewlines(files[i].content), OWNER, MODE))
  }

  /** Copying overlays the copied files on the directory. */
  lemma {:induction false} CopyRulesOverlay(dir: map<string, File>, files: seq<RuleFile>)
    ensures CopyRules(dir, files) == dir + CopyRules(map[], files)
    decreases |files|
  {
    if files != [] {
      CopyRulesOverlay(dir, files[..|files| - 1]);
    }
  }

  /** The directory afterwards holds what it held plus one entry per copied name. */
  lemma {:induction false} CopyRulesKeys(dir: map<string, File>, files: seq<RuleFile>)
    ensures CopyRules(dir, files).Keys == dir.Keys + RuleNames(files)
    decreases |files|
  {
    if files != [] {
      var init := files[..|files| - 1];
      CopyRulesKeys(dir, init);
      assert files == init + [files[|files| - 1]];
      assert RuleNames(files) == RuleNames(init) + {files[|files| - 1].name};
    }
  }

  /** A file whose name is not copied keeps its content, owner and mode. */
  lemma {:induction false} CopyRulesFrame(dir: map<string, File>, files: seq<RuleFile>, name: string)
    requires name !in RuleNames(files)
    ensures name in CopyRules(dir, files) <==> name in dir
    ensures name in dir ==> CopyRules(dir, files)[name] == dir[name]
    decreases |files|
  {
    if files != [] {
      var init := files[..|files| - 1];
      assert forall f :: f in init ==> f in files;
      assert files[|files| - 1] in files;
      CopyRulesFrame(dir, init, name);
    }
  }

  /**
   * Each copied file holds its source's text after the newline translation of
   * the read (so no carriage return, and the exact text when the source has
   * none), owned by root with mode 0o640, whatever was there before; when two
   * sources share a name the later one wins.
   */
  lemma {:induction false} CopyRulesContent(dir: map<string, File>, files: seq<RuleFile>, k: int)
    requires 0 <= k < |files|
    requires forall j :: k < j < |files| ==> files[j].name != files[k].name
    ensures files[k].name in CopyRules(dir, files)
    ensures CopyRules(dir, files)[files[k].name] == File(UniversalNewlines(files[k].content), OWNER, MODE)
    ensures '\r' !in CopyRules(dir, files)[files[k].name].content
    ensures '\r' !in files[k].content ==> CopyRules(dir, files)[files[k].name].content == files[k].content
    decreases |files|
  {
    if k < |files| - 1 {
      var init := files[..|files| - 1];
      CopyRulesContent(dir, init, k);
    }
  }

  /** Copying the same rules again changes nothing. */
  lemma CopyRulesIdempotent(dir: map<string, File>, files: seq<RuleFile>)
    ensures CopyRules(CopyRules(dir, files), files) == CopyRules(dir, files)
  {
    var copied := CopyRules(map[], files);
    CopyRulesOverlay(dir, files);
    CopyRulesOverlay(dir + copied, files);
    assert (dir + copied) + copied == dir + copied;
  }

  /** The calls `install` makes, given whether apt managed to add the package. */
  function InstallCalls(files: seq<RuleFile>, addOk: bool): (calls: seq<Call>)
  {
    if addOk then [AddPackage(PKG)] + RuleWrites(files) + [Run(RELOAD_COMMAND)]
    else [AddPackage(PKG)]
  }

  /**
   * Install adds the package once; when that succeeds it writes every rule
   * file, in order, and only then reloads the rules, exactly once whatever the
   * number of rule files. When it fails nothing is written or reloaded.
   */
  lemma InstallOrder(files: seq<RuleFile>, addOk: bool)
    ensures var calls := InstallCalls(files, addOk);
      && calls[0] == AddPackage(PKG)
      && Count(calls, PackageAdd) == 1
      && Count(calls, Command) == (if addOk then 1 else 0)
      && Count(calls, FileWrite) == (if addOk then |files| else 0)
      && (addOk ==> |calls| == |files| + 2 && calls[|calls| - 1] == Run(RELOAD_COMMAND))
      && (addOk ==> forall i :: 0 <= i < |files| ==>
            calls[i + 1] == WriteFile(RULE_PATH + files[i].name, UniversalNewlines(files[i].content), OWNER, MODE))
  {
    var add := AddPackage(PKG);
    if addOk {
      var writes := RuleWrites(files);
      var reload := Run(RELOAD_COMMAND);
      assert InstallCalls(files, true) == [add] + writes + [reload];
      assert forall i :: 0 <= i < |writes| ==> KindOf(writes[i]) == FileWrite;
      CountNone(writes, PackageAdd);
      CountNone(writes, Command);
      WritesCount(writes);
      CountFramed(add, writes, reload, PackageAdd);
      CountFramed(add, writes, reload, Command);
      CountFramed(add, writes, reload, FileWrite);
      CountSingle(add, PackageAdd);
      CountSingle(add, Command);
      CountSingle(add, FileWrite);
      CountSingle(reload, PackageAdd);
      CountSingle(reload, Command);
      CountSingle(reload, FileWrite);
    } else {
      CountSingle(add, PackageAdd);
      CountSingle(add, Command);
      CountSingle(add, FileWrite);
    }
  }

  /** Helper: counting a trace with one call before and one after. */
  lemma CountFramed(first: Call, middle: seq<Call>, last: Call, k: Kind)
    ensures Count([first] + middle + [last], k)
         == Count([first], k) + Count(middle, k) + Count([last], k)
  {
    CountAppend([first], middle, k);
    CountAppend([first] + middle, [last], k);
  }

  /** A trace of writes only counts one write per call. */
  lemma {:induction false} WritesCount(calls: seq<Call>)
    requires forall i :: 0 <= i < |calls| ==> KindOf(calls[i]) == FileWrite
    ensures Count(calls, FileWrite) == |calls|
    decreases |calls|
  {
    if calls != [] {
      WritesCount(calls[..|calls| - 1]);
    }
  }

  // ---------------------------------------------------------------------------
  // The service
  // ---------------------------------------------------------------------------

  /** The configuration template: a deterministic map from configuration to text. */
  type Template = AuditdConfig -> string

  class AuditdService {
    /** The machine whose package, unit and files the service acts on. */
    const machine: Machine
    /** The `auditd.conf.j2` template shipped with the charm. */
    const template: Template
    /** The charm's rule source directory, in the order its listing yields. */
    const ruleSource: seq<RuleFile>

    constructor (machine: Machine, template: Template, ruleSource: seq<RuleFile>)
      ensures this.machine == machine && this.template == template && this.ruleSource == ruleSource
    {
      this.machine := machine;
      this.template := template;
      this.ruleSource := ruleSource;
    }

    /** The configuration text the template yields for `config`. */
    function RenderConfig(config: AuditdConfig): (text: string)
    {
      template(config)
    }

    /**
     * Adds the package, then copies the rules and reloads them. A failure of apt
     * propagates before any rule is touched; the reload's exit status is not
     * checked, so a failed reload still lets install succeed.
     */
    method Install(addOk: bool, reloadOk: bool) returns (r: Outcome<Error>)
      modifies machine
      ensures r == if addOk then Pass else Fail(PackageError)
      ensures machine.trace == old(machine.trace) + InstallCalls(ruleSource, addOk)
      ensures machine.installed == (addOk || old(machine.installed))
      ensures machine.ruleDir == if addOk then CopyRules(old(machine.ruleDir), ruleSource) else old(machine.ruleDir)
      ensures machine.loadedRules == if addOk && reloadOk then machine.ruleDir else old(machine.loadedRules)
      ensures unchanged(machine`configFile, machine`active)
    {
      machine.trace := machine.trace + [AddPackage(PKG)];
      if !addOk {
        return Fail(PackageError);
      }
      machine.installed := true;
      AddAuditRules(ruleSource);
      MergeAuditRules(reloadOk);
      r := Pass;
    }

    /** Removes the package; a failure of apt propagates. */
    method Remove(ok: bool) returns (r: Outcome<Error>)
      modifies machine
      ensures r == if ok then Pass else Fail(PackageError)
      ensures machine.trace == old(machine.trace) + [RemovePackage(PKG)]
      ensures machine.installed == (!ok && old(machine.installed))
      ensures unchanged(machine`configFile, machine`ruleDir, machine`active, machine`loadedRules)
    {
      machine.trace := machine.trace + [RemovePackage(PKG)];
      if !ok {
        return Fail(PackageError);
      }
      machine.installed := false;
      r := Pass;
    }

    /** Restarts the unit once; a systemd error becomes `AuditdServiceRestartError`. */
    method Restart(ok: bool) returns (r: Outcome<Error>)
      modifies machine
      ensures r == if ok then Pass else Fail(AuditdServiceRestartError)
      ensures machine.trace == old(machine.trace) + [RestartService(NAME)]
      ensures unchanged(machine`configFile, machine`ruleDir, machine`installed, machine`active, machine`loadedRules)
    {
      machine.trace := machine.trace + [RestartService(NAME)];
      r := if ok then Pass else Fail(AuditdServiceRestartError);
    }

    /**
     * Writes `content` to the configuration file, root-owned with mode 0o640,
     * then restarts; a failed restart does not undo the write.
     */
    method Configure(content: string, restartOk: bool) returns (r: Outcome<Error>)
      modifies machine
      ensures r == if restartOk then Pass else Fail(AuditdServiceRestartError)
      ensures machine.configFile == File(content, OWNER, MODE)
      ensures machine.trace == old(machine.trace) + [WriteFile(CONFIG_FILE, content, OWNER, MODE), RestartService(NAME)]
      ensures unchanged(machine`ruleDir, machine`installed, machine`active, machine`loadedRules)
    {
      machine.configFile := File(content, OWNER, MODE);
      machine.trace := machine.trace + [WriteFile(CONFIG_FILE, content, OWNER, MODE)];
      r := Restart(restartOk);
    }

    /** Whether apt finds the package installed: false exactly when the lookup fails. */
    method IsInstalled() returns (b: bool)
      modifies machine
      ensures b == machine.installed
      ensures machine.trace == old(machine.trace) + [LookupPackage(PKG)]
      ensures unchanged(machine`configFile, machine`ruleDir, machine`installed, machine`active, machine`loadedRules)
    {
      machine.trace := machine.trace + [LookupPackage(PKG)];
      b := machine.installed;
    }

    /** Whether systemd reports the unit running. */
    method IsActive() returns (b: bool)
      modifies machine
      ensures b == machine.active
      ensures machine.trace == old(machine.trace) + [QueryService(NAME)]
      ensures unchanged(machine`configFile, machine`ruleDir, machine`installed, machine`active, machine`loadedRules)
    {
      machine.trace := machine.trace + [QueryService(NAME)];
      b := machine.active;
    }

    /** Copies every rule file into the rule directory, overwriting what is there. */
    method AddAuditRules(files: seq<RuleFile>)
      modifies machine
      ensures machine.ruleDir == CopyRules(old(machine.ruleDir), files)
      ensures machine.trace == old(machine.trace) + RuleWrites(files)
      ensures unchanged(machine`configFile, machine`installed, machine`active, machine`loadedRules)
    {
      var i := 0;
      while i < |files|
        invariant 0 <= i <= |files|
        invariant machine.ruleDir == CopyRules(old(machine.ruleDir), files[..i])
        invariant machine.trace == old(machine.trace) + RuleWrites(files[..i])
        invariant unchanged(machine`configFile, machine`installed, machine`active, machine`loadedRules)
      {
        var f := files[i];
        var text := UniversalNewlines(f.content);
        machine.ruleDir := machine.ruleDir[f.name := File(text, OWNER, MODE)];
        machine.trace := machine.trace + [WriteFile(RULE_PATH + f.name, text, OWNER, MODE)];
        assert files[..i + 1][..i] == files[..i];
        assert RuleWrites(files[..i + 1]) == RuleWrites(files[..i]) + [WriteFile(RULE_PATH + f.name, text, OWNER, MODE)];
        i := i + 1;
      }
      assert files[..|files|] == files;
    }

    /**
     * Runs `augenrules --load` once. Its exit status is not checked: a failed
     * reload leaves the loaded rules as they were and raises nothing.
     */
    method MergeAuditRules(reloadOk: bool)
      modifies machine
      ensures machine.trace == old(machine.trace) + [Run(RELOAD_COMMAND)]
      ensures machine.loadedRules == if reloadOk then machine.ruleDir else old(machine.loadedRules)
      ensures unchanged(machine`configFile, machine`ruleDir, machine`installed, machine`active)
    {
      machine.trace := machine.trace + [Run(RELOAD_COMMAND)];
      if reloadOk {
        machine.loadedRules := machine.ruleDir;
      }
    }
  }
}
