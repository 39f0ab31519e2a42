/**
 * The auditd charm: the install and remove handlers, gated on the machine's
 * virtualisation type, and the reconciler run on config-changed,
 * upgrade-charm and update-status, which validates the configuration, writes
 * and restarts only when the rendered configuration differs from the file,
 * restarts an inactive unit once, and reports the outcome as the unit status.
 */
module Charm {
  import opened Wrappers
  import opened Text
  import opened Host
  import opened Workloads

  /** The unit status reported to Juju. */
  datatype Status = Unknown | Active | Blocked(message: string) | Maintenance(message: string)

  const INVALID_CONFIG_MESSAGE: string := "Invalid config. Please check `juju debug-log`."
  const CONFIGURE_FAILED_MESSAGE: string := "Failed to configure and restart auditd."
  const REMOVING_MESSAGE: string := "Removing auditd package."
  const INSTALLING_MESSAGE: string := "Installing or upgrading auditd package."

  /** The one virtualisation type on which auditd cannot run. */
  const LXC: string := "lxc"

  /** What a handler raises: the platform error, or one let through from the service. */
  datatype CharmError = PlatformUnsupportedError | Service(error: Error)

  // ---------------------------------------------------------------------------
  // The reconciler, as a function of the inputs it observes
  // ---------------------------------------------------------------------------

  /** The effect of a reconciliation on the machine: a new configuration text, if any, and the calls made. */
  datatype Effects = Effects(written: Option<string>, calls: seq<Call>)

  /** The outcome of `_configure_auditd`, and of a whole reconciliation. */
  datatype Attempt = Attempt(ok: bool, effects: Effects)
  datatype Reconciliation = Reconciliation(status: Status, effects: Effects)

  /** The configuration file after the effects. */
  function Apply(file: File, e: Effects): (f: File)
  {
    if e.written.Some? then File(e.written.value, OWNER, MODE) else file
  }

  /**
   * `_configure_auditd` given the rendered text, the configuration file's
   * characters on disk (read back through the newline translation of a
   * text-mode read), systemd's answer to the liveness query and its replies to
   * the restart in `configure` and to the restart of an inactive unit.
   */
  function ConfigureAttempt(rendered: string, current: string, active: bool, restartOk: bool, retryOk: bool): (a: Attempt)
  {
    var newContent := Strip(rendered);
    var changed := newContent != Strip(UniversalNewlines(current));
    var written := if changed then Some(newContent) else None;
    var configured := if changed then [WriteFile(CONFIG_FILE, newContent, OWNER, MODE), RestartService(NAME)] else [];
    if changed && !restartOk then Attempt(false, Effects(written, configured))
    else if active then Attempt(true, Effects(written, configured + [QueryService(NAME)]))
    else Attempt(retryOk, Effects(written, configured + [QueryService(NAME), RestartService(NAME)]))
  }

  /** `_configure_charm`: validation, then `_configure_auditd`, mapped to a status. */
  function Reconcile(raw: RawConfig, template: Template, current: string, active: bool, restartOk: bool, retryOk: bool): (p: Reconciliation)
  {
    match ParseConfig(raw)
    case Err(_) => Reconciliation(Blocked(INVALID_CONFIG_MESSAGE), Effects(None, []))
    case Ok(config) =>
      var a := ConfigureAttempt(template(config), current, active, restartOk, retryOk);
      Reconciliation(if a.ok then Active else Blocked(CONFIGURE_FAILED_MESSAGE), a.effects)
  }

  // ---------------------------------------------------------------------------
  // The charm
  // ---------------------------------------------------------------------------

  class AuditdOperatorCharm {
    var status: Status
    const auditd: AuditdService

    constructor (auditd: AuditdService)
      ensures this.auditd == auditd && status == Unknown
    {
      this.auditd := auditd;
      status := Unknown;
    }

    /** The remove handler: a silent no-op on lxc, otherwise removes the package. */
    method OnRemove(virtType: string, removeOk: bool) returns (r: Outcome<CharmError>)
      modifies this, auditd.machine
      ensures virtType == LXC ==> r == Pass && status == old(status) && unchanged(auditd.machine)
      ensures virtType != LXC ==>
        && status == Maintenance(REMOVING_MESSAGE)
        && r == (if removeOk then Pass else Fail(Service(PackageError)))
        && auditd.machine.trace == old(auditd.machine.trace) + [RemovePackage(PKG)]
        && auditd.machine.installed == (!removeOk && old(auditd.machine.installed))
        && unchanged(auditd.machine`configFile, auditd.machine`ruleDir, auditd.machine`active, auditd.machine`loadedRules)
    {
      if virtType == LXC {
        return Pass;
      }
      status := Maintenance(REMOVING_MESSAGE);
      var removed := auditd.Remove(removeOk);
      r := if removed.Pass? then Pass else Fail(Service(removed.error));
    }

    /**
     * The install handler: raises `PlatformUnsupportedError` on lxc without
     * touching the machine, otherwise installs the package and the rules.
     */
    method OnInstallOrUpgrade(virtType: string, addOk: bool, reloadOk: bool) returns (r: Outcome<CharmError>)
      modifies this, auditd.machine
      ensures virtType == LXC ==> r == Fail(PlatformUnsupportedError) && status == old(status) && unchanged(auditd.machine)
      ensures virtType != LXC ==>
        && status == Maintenance(INSTALLING_MESSAGE)
        && r == (if addOk then Pass else Fail(Service(PackageError)))
        && auditd.machine.trace == old(auditd.machine.trace) + InstallCalls(auditd.ruleSource, addOk)
        && auditd.machine.installed == (addOk || old(auditd.machine.installed))
        && auditd.machine.ruleDir == (if addOk then CopyRules(old(auditd.machine.ruleDir), auditd.ruleSource) else old(auditd.machine.ruleDir))
        && auditd.machine.loadedRules == (if addOk && reloadOk then auditd.machine.ruleDir else old(auditd.machine.loadedRules))
        && unchanged(auditd.machine`configFile, auditd.machine`active)
    {
      if virtType == LXC {
        return Fail(PlatformUnsupportedError);
      }
      status := Maintenance(INSTALLING_MESSAGE);
      var installed := auditd.Install(addOk, reloadOk);
      r := if installed.Pass? then Pass else Fail(Service(installed.error));
    }

    /** `_get_validated_config`: the validated configuration, or nothing when validation fails. */
    method GetValidatedConfig(raw: RawConfig) returns (config: Option<AuditdConfig>)
      ensures config.Some? <==> ParseConfig(raw).Ok?
      ensures config.Some? ==> config.value == ParseConfig(raw).value
    {
      match ParseConfig(raw)
      case Ok(c) => config := Some(c);
      case Err(_) => config := None;
    }

    /**
     * `_configure_auditd`: writes and restarts only when the stripped rendered
     * text differs from the stripped file text, then restarts once if the
     * unit is not running; true when every restart it tried succeeded.
     */
    method ConfigureAuditd(config: AuditdConfig, restartOk: bool, retryOk: bool) returns (ok: bool)
      modifies auditd.machine
      ensures var a := ConfigureAttempt(auditd.RenderConfig(config), old(auditd.machine.configFile.content),
                                        old(auditd.machine.active), restartOk, retryOk);
        && ok == a.ok
        && auditd.machine.trace == old(auditd.machine.trace) + a.effects.calls
        && auditd.machine.configFile == Apply(old(auditd.machine.configFile), a.effects)
      ensures unchanged(auditd.machine`ruleDir, auditd.machine`installed, auditd.machine`active, auditd.machine`loadedRules)
    {
      var newContent := Strip(auditd.RenderConfig(config));
      var currentContent := Strip(UniversalNewlines(auditd.machine.configFile.content));
      if newContent != currentContent {
        var configured := auditd.Configure(newContent, restartOk);
        if configured.Fail? {
          return false;
        }
      }
      var isActive := auditd.IsActive();
      if !isActive {
        var restarted := auditd.Restart(retryOk);
        if restarted.Fail? {
          return false;
        }
      }
      return true;
    }

    /** `_configure_charm`: one reconciliation, ending in a status. */
    method ConfigureCharm(raw: RawConfig, restartOk: bool, retryOk: bool)
      modifies this, auditd.machine
      ensures var p := Reconcile(raw, auditd.template, old(auditd.machine.configFile.content),
                                 old(auditd.machine.active), restartOk, retryOk);
        && status == p.status
        && auditd.machine.trace == old(auditd.machine.trace) + p.effects.calls
        && auditd.machine.configFile == Apply(old(auditd.machine.configFile), p.effects)
      ensures unchanged(auditd.machine`ruleDir, auditd.machine`installed, auditd.machine`active, auditd.machine`loadedRules)
    {
      var config := GetValidatedConfig(raw);
      if config.None? {
        status := Blocked(INVALID_CONFIG_MESSAGE);
        return;
      }
      var ok := ConfigureAuditd(config.value, restartOk, retryOk);
      if !ok {
        status := Blocked(CONFIGURE_FAILED_MESSAGE);
        return;
      }
      status := Active;
    }
  }

  // ---------------------------------------------------------------------------
  // Properties of a reconciliation
  // ---------------------------------------------------------------------------

  /** An invalid configuration blocks with the validation message and touches nothing. */
  lemma InvalidConfigBlocks(raw: RawConfig, template: Template, current: string, active: bool, restartOk: bool, retryOk: bool)
    requires ParseConfig(raw).Err?
    ensures var p := Reconcile(raw, template, current, active, restartOk, retryOk);
      p.status == Blocked(INVALID_CONFIG_MESSAGE) && p.effects == Effects(None, [])
  {
  }

  /**
   * When the stripped texts agree nothing is written or restarted by
   * `configure`, liveness is still queried, and a running unit ends Active
   * with that query as the only call.
   */
  lemma UnchangedSkipsConfigure(rendered: string, current: string, active: bool, restartOk: bool, retryOk: bool)
    requires Strip(rendered) == Strip(UniversalNewlines(current))
    ensures var a := ConfigureAttempt(rendered, current, active, restartOk, retryOk);
      && a.effects.written == None
      && Count(a.effects.calls, FileWrite) == 0
      && a.effects.calls[0] == QueryService(NAME)
      && (active ==> a.ok && a.effects.calls == [QueryService(NAME)])
  {
  }

  /**
   * When the stripped texts differ, `configure` runs once with the stripped
   * rendered text: one write of it, immediately followed by a restart.
   */
  lemma ChangedConfiguresOnce(rendered: string, current: string, active: bool, restartOk: bool, retryOk: bool)
    requires Strip(rendered) != Strip(UniversalNewlines(current))
    ensures var a := ConfigureAttempt(rendered, current, active, restartOk, retryOk);
      && a.effects.written == Some(Strip(rendered))
      && a.effects.calls[..2] == [WriteFile(CONFIG_FILE, Strip(rendered), OWNER, MODE), RestartService(NAME)]
      && Count(a.effects.calls, FileWrite) == 1
  {
    var a := ConfigureAttempt(rendered, current, active, restartOk, retryOk);
    var tail := if !restartOk then [] else if active then [QueryService(NAME)]
                else [QueryService(NAME), RestartService(NAME)];
    assert a.effects.calls == [WriteFile(CONFIG_FILE, Strip(rendered), OWNER, MODE), RestartService(NAME)] + tail;
    OneConfigWrite(Strip(rendered), tail);
  }

  /** Helper: a write and a restart followed by calls that are not writes count one write. */
  lemma OneConfigWrite(content: string, tail: seq<Call>)
    requires forall i :: 0 <= i < |tail| ==> KindOf(tail[i]) != FileWrite
    ensures Count([WriteFile(CONFIG_FILE, content, OWNER, MODE), RestartService(NAME)] + tail, FileWrite) == 1
  {
    var w := WriteFile(CONFIG_FILE, content, OWNER, MODE);
    var r := RestartService(NAME);
    CountNone(tail, FileWrite);
    CountSingle(w, FileWrite);
    CountSingle(r, FileWrite);
    CountAppend([w], [r], FileWrite);
    assert [w] + [r] == [w, r];
    CountAppend([w, r], tail, FileWrite);
  }

  /** A failed restart in `configure` ends the attempt before the liveness query. */
  lemma ConfigureFailureStops(rendered: string, current: string, active: bool, retryOk: bool)
    requires Strip(rendered) != Strip(UniversalNewlines(current))
    ensures var a := ConfigureAttempt(rendered, current, active, false, retryOk);
      && !a.ok
      && a.effects.calls == [WriteFile(CONFIG_FILE, Strip(rendered), OWNER, MODE), RestartService(NAME)]
      && Count(a.effects.calls, ServiceQuery) == 0
  {
    var a := ConfigureAttempt(rendered, current, active, false, retryOk);
    var w := WriteFile(CONFIG_FILE, Strip(rendered), OWNER, MODE);
    var r := RestartService(NAME);
    assert a == Attempt(false, Effects(Some(Strip(rendered)), [w, r]));
    CountSingle(w, ServiceQuery);
    CountSingle(r, ServiceQuery);
    CountAppend([w], [r], ServiceQuery);
    assert [w] + [r] == [w, r];
  }

  /**
   * Once the configuration step has passed, an inactive unit is restarted
   * exactly once after the liveness query, and the attempt succeeds exactly
   * when that restart does.
   */
  lemma InactiveRestartedOnce(rendered: string, current: string, restartOk: bool, retryOk: bool)
    requires Strip(rendered) == Strip(UniversalNewlines(current)) || restartOk
    ensures var a := ConfigureAttempt(rendered, current, false, restartOk, retryOk);
      && a.ok == retryOk
      && |a.effects.calls| >= 2
      && a.effects.calls[|a.effects.calls| - 2..] == [QueryService(NAME), RestartService(NAME)]
  {
  }

  /**
   * A reconciliation restarts at most twice: once in `configure` and once for
   * an inactive unit. The second restart happens only after the first one
   * succeeded, and a failed first restart is the last call made.
   */
  lemma RestartBound(raw: RawConfig, template: Template, current: string, active: bool, restartOk: bool, retryOk: bool)
    ensures var p := Reconcile(raw, template, current, active, restartOk, retryOk);
      && Count(p.effects.calls, ServiceRestart) <= 2
      && (Count(p.effects.calls, ServiceRestart) == 2 ==> restartOk && !active && p.effects.written.Some?)
      && (p.effects.written.Some? && !restartOk ==>
            Count(p.effects.calls, ServiceRestart) == 1 && p.effects.calls[|p.effects.calls| - 1] == RestartService(NAME))
  {
    var p := Reconcile(raw, template, current, active, restartOk, retryOk);
    if ParseConfig(raw).Ok? {
      var rendered := Strip(template(ParseConfig(raw).value));
      var w := WriteFile(CONFIG_FILE, rendered, OWNER, MODE);
      var q := QueryService(NAME);
      var s := RestartService(NAME);
      CountSingle(w, ServiceRestart);
      CountSingle(q, ServiceRestart);
      CountSingle(s, ServiceRestart);
      CountAppend([w], [s], ServiceRestart);
      CountAppend([q], [s], ServiceRestart);
      CountAppend([w, s], [q], ServiceRestart);
      CountAppend([w, s], [q, s], ServiceRestart);
      assert [w] + [s] == [w, s];
      assert [q] + [s] == [q, s];
    }
  }

  /**
   * The status is Active exactly when the configuration is valid, every
   * restart tried succeeded, and otherwise Blocked with the matching message.
   */
  lemma StatusCases(raw: RawConfig, template: Template, current: string, active: bool, restartOk: bool, retryOk: bool)
    ensures var p := Reconcile(raw, template, current, active, restartOk, retryOk);
      && (p.status == Active <==>
            && ParseConfig(raw).Ok?
            && (Strip(template(ParseConfig(raw).value)) == Strip(UniversalNewlines(current)) || restartOk)
            && (active || retryOk))
      && (p.status != Active ==>
            p.status == Blocked(if ParseConfig(raw).Ok? then CONFIGURE_FAILED_MESSAGE else INVALID_CONFIG_MESSAGE))
  {
  }

  /**
   * Reconciling again with the same configuration, after any first pass and
   * with the unit running, writes nothing and restarts nothing: the only
   * recorded call is the liveness query, or none at all for an invalid
   * configuration. This needs a stripped rendered text without carriage
   * returns, as a template with `\n` line endings gives; a carriage return in
   * the whitespace that `strip()` removes does no harm. `CarriageReturnRewritten`
   * covers the other case.
   */
  lemma ReconcileIdempotent(raw: RawConfig, template: Template, file: File, active: bool, restartOk: bool, retryOk: bool,
                            restartOk2: bool, retryOk2: bool)
    requires ParseConfig(raw).Ok? ==> '\r' !in Strip(template(ParseConfig(raw).value))
    ensures var first := Reconcile(raw, template, file.content, active, restartOk, retryOk);
      var second := Reconcile(raw, template, Apply(file, first.effects).content, true, restartOk2, retryOk2);
      && second.effects.written == None
      && second.effects.calls == (if ParseConfig(raw).Ok? then [QueryService(NAME)] else [])
      && second.status == (if ParseConfig(raw).Ok? then Active else Blocked(INVALID_CONFIG_MESSAGE))
  {
    if ParseConfig(raw).Ok? {
      StripIdempotent(template(ParseConfig(raw).value));
    }
  }

  /**
   * A rendered text that keeps a carriage return after stripping is written
   * again on every pass: the file read turns the carriage return into a line
   * feed, so the stripped texts never compare equal.
   */
  lemma CarriageReturnRewritten(rendered: string, active: bool, restartOk: bool, retryOk: bool)
    requires '\r' in Strip(rendered)
    ensures ConfigureAttempt(rendered, Strip(rendered), active, restartOk, retryOk).effects.written == Some(Strip(rendered))
  {
    StripKeepsNoCarriageReturn(UniversalNewlines(Strip(rendered)));
  }
}
