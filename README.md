# auditd charm: reconciliation and lifecycle model

A Dafny model of the core of the auditd operator charm. The charm installs the
auditd package, copies the charm's audit rules into `/etc/audit/rules.d/` and
reloads them. It renders `/etc/audit/auditd.conf` from the validated
configuration and restarts the daemon when that text changes or when the unit
is found not running. It reports the outcome as the unit status. Install and
remove are gated on the machine's virtualisation type: on `lxc`, install raises
`PlatformUnsupportedError` and remove does nothing.

Files:

- `wrappers.dfy` (module `Wrappers`): `Option`, `Result` and `Outcome`.
- `text.dfy` (module `Text`): Python's `str.strip()` over Python's whitespace
  set. `strip()` is characterised by `StripUnique`, and `StripIdempotent` shows
  that stripping twice is stripping once. `UniversalNewlines` is the newline
  translation of a text-mode read: `\r\n` and a lone `\r` both become `\n`.
- `host.dfy` (module `Host`): the machine as the charm sees it, as the class
  `Machine`. It holds the configuration file (text, owner, mode), the rule
  directory by file name, apt's installed flag, systemd's running flag, the
  rules loaded at the last reload, and the ordered trace of the calls that
  change or probe that state: file writes and the apt, systemd and `augenrules`
  calls. Reads of files, the listing of the charm's rule directory and the
  `systemd-detect-virt` probe are not recorded in the trace.
- `workloads.dfy` (module `Workloads`): `AuditdConfig`, its defaults, the
  `num_logs` validator and the service class `AuditdService`. The rule copy loop
  is specified by the function `CopyRules` and the trace function `RuleWrites`.
- `charm.dfy` (module `Charm`): the charm class `AuditdOperatorCharm` with its
  handlers. `ConfigureAttempt` (for `_configure_auditd`) and `Reconcile` (for
  `_configure_charm`) give the status, the new configuration text and the
  calls made as functions of what the reconciler observes. The lemmas after the
  class state the reconciler's properties in terms of those functions.

Collaborators are inputs. Each reply the code depends on is a parameter of the
method that receives it:

- `addOk` and `removeOk`: whether apt succeeds.
- `restartOk`: systemd's reply to the restart inside `configure`.
- `retryOk`: systemd's reply to the restart of an inactive unit.
- `reloadOk`: whether `augenrules --load` exits with status 0.
- `virtType`: the output of `systemd-detect-virt`.

The answer to "is the unit running" is the machine's `active` flag. A successful
restart does not set that flag. The code asks systemd whether the unit is
running, after a restart or not, and must handle every answer, so the model
allows every combination.

The configuration template is an arbitrary function from `AuditdConfig` to text
(`Template`), held by the service as `template`. `render_config` is modelled by
`AuditdService.RenderConfig`, which applies that function. Rendering is
therefore deterministic by construction.

Points where the code's behaviour is easy to misread:

- The comparison is made after `strip()` on both texts, not byte for byte. The
  text written is the stripped rendered text.
- The rule reload runs with `check=False`. A failing `augenrules --load` raises
  nothing, so install still succeeds; the handler at
  `src/workloads.py:146-148` cannot be reached through a non-zero exit.
- A reconciliation that writes a new configuration then queries liveness and
  can restart a second time. `RestartBound` shows the limit is
  two restarts, and that the second happens only after the first succeeded.
- Files are written with mode 0o640 (owner read-write, group read).
- The current configuration is read with `Path.read_text`, which translates
  `\r\n` and a lone `\r` to `\n` before the comparison. A rendered text that
  still holds `\r` after `strip()` therefore never compares equal to what was
  written from it, and is written again on every pass
  (`CarriageReturnRewritten`). The rule files are read the same way, so a
  copied rule holds its source's text with newlines translated.
- An absent configuration file is not treated as "different". The code reads it
  unconditionally (see "Left out").

## Model

| member | source | states |
|---|---|---|
| `Workloads.ValidateNumLogs` | src/workloads.py:43-51 | accepts exactly the values in [0, 999] and returns them unchanged; below 0 is "too low" and above 999 is "too high" |
| `Workloads.ParseConfig` | src/workloads.py:37-51 | a missing option takes its default; succeeds iff `num_logs` is absent or in [0, 999]; the result carries the given or default values; a failure is the validator's error |
| `Workloads.DefaultsAccepted` | src/workloads.py:40-41 | with no options the configuration is `num_logs = 10`, `max_log_file = 512` |
| `Workloads.NumLogsBoundary` | src/workloads.py:43-51 | 0 and 999 are accepted; -1 and 1000 are rejected |
| `Workloads.MaxLogFileUnbounded` | src/workloads.py:41 | any `max_log_file` value is accepted as given |
| `Workloads.CopyRulesOverlay` | src/workloads.py:135-139 | copying the rules overlays the copied files on the existing directory |
| `Workloads.CopyRulesKeys` | src/workloads.py:135-139 | afterwards the directory holds its old names plus exactly the names of the copied files |
| `Workloads.CopyRulesFrame` | src/workloads.py:135-139 | a file whose name is not copied is neither added, removed nor changed |
| `Workloads.CopyRulesContent` | src/workloads.py:135-139 | each copied file holds its source's text as a text-mode read returns it (no `\r`; the exact text when the source has none), owned by root with mode 0o640, overwriting what was there; the last source of a name wins |
| `Workloads.CopyRulesIdempotent` | src/workloads.py:135-139 | copying the same rules twice leaves the directory as copying once |
| `Workloads.InstallOrder` | src/workloads.py:62-66 | one package add first; on success, one write per rule file in order, then exactly one reload as the last call; on failure, no write and no reload |
| `Workloads.AuditdService.Install` | src/workloads.py:62-66 | the calls are `InstallCalls`; apt failure propagates before any rule is touched; on success the package is installed, the rule directory is `CopyRules` of the old one, and a failed reload still returns success |
| `Workloads.AuditdService.Remove` | src/workloads.py:68-70 | one package removal; apt failure propagates; nothing else changes |
| `Workloads.AuditdService.Restart` | src/workloads.py:72-82 | one restart of the unit "auditd"; a systemd error becomes `AuditdServiceRestartError`; nothing else changes |
| `Workloads.AuditdService.Configure` | src/workloads.py:84-95 | writes the content root-owned with mode 0o640, then restarts; the write stays when the restart fails |
| `Workloads.AuditdService.IsInstalled` | src/workloads.py:106-117 | true exactly when apt finds the package installed |
| `Workloads.AuditdService.IsActive` | src/workloads.py:119-126 | returns systemd's answer for the unit and changes nothing else |
| `Workloads.AuditdService.AddAuditRules` | src/workloads.py:128-139 | the loop leaves the rule directory equal to `CopyRules` of the old one and records one write per file, in order |
| `Workloads.AuditdService.MergeAuditRules` | src/workloads.py:141-148 | runs `augenrules --load` once; the loaded rules become the rule directory when it exits 0 and stay as they were otherwise; it never raises |
| `Charm.AuditdOperatorCharm.OnRemove` | src/charm.py:50-57 | on "lxc", returns without touching status or machine; otherwise sets Maintenance("Removing auditd package.") and removes the package once |
| `Charm.AuditdOperatorCharm.OnInstallOrUpgrade` | src/charm.py:59-66 | on "lxc", raises `PlatformUnsupportedError` with status and machine untouched; otherwise sets Maintenance("Installing or upgrading auditd package.") and installs once |
| `Charm.AuditdOperatorCharm.GetValidatedConfig` | src/charm.py:80-92 | returns the configuration iff it validates, and nothing otherwise |
| `Charm.AuditdOperatorCharm.ConfigureAuditd` | src/charm.py:94-126 | its result, calls and configuration file are those of `ConfigureAttempt` on the rendered text, the file text and systemd's replies |
| `Charm.AuditdOperatorCharm.ConfigureCharm` | src/charm.py:68-78 | its status, calls and configuration file are those of `Reconcile`; the rules, package and loaded rules are untouched |
| `Charm.InvalidConfigBlocks` | src/charm.py:68-72 | an invalid configuration gives Blocked("Invalid config. Please check `juju debug-log`.") with no write and no call |
| `Charm.UnchangedSkipsConfigure` | src/charm.py:104-115 | equal stripped texts (the file's after newline translation): no write, liveness is still queried first, and a running unit gives success with only that query |
| `Charm.ChangedConfiguresOnce` | src/charm.py:104-110 | different stripped texts: exactly one write, of the stripped rendered text, followed directly by a restart |
| `Charm.ConfigureFailureStops` | src/charm.py:107-113 | a failed restart in `configure` gives failure with no liveness query after it |
| `Charm.InactiveRestartedOnce` | src/charm.py:115-126 | after the configuration step, an inactive unit gets one restart after the query; success iff that restart succeeds |
| `Charm.RestartBound` | src/charm.py:104-126 | at most two restarts; two only when the configuration changed, the first restart succeeded and the unit was inactive; a failed first restart is the last call |
| `Charm.StatusCases` | src/charm.py:68-78 | Active iff the configuration is valid and every restart tried succeeded; otherwise Blocked with the validation or the configure message |
| `Charm.ReconcileIdempotent` | src/charm.py:68-126 | when the stripped rendered text holds no `\r`, a second reconciliation with the same configuration and a running unit writes and restarts nothing: of the recorded calls, it makes only the liveness query |
| `Charm.CarriageReturnRewritten` | src/charm.py:104-107 | a stripped rendered text holding `\r` is written even when the file already holds exactly that text, because the read translates its newlines |
| `Text.UniversalNewlines` | src/utils.py:17-27 | the text as a text-mode read returns it holds no `\r`, and text without `\r` is returned unchanged |
| `Text.StripKeepsNoCarriageReturn` | src/charm.py:104-105 | stripping text without `\r` leaves none in it |
| `Text.Strip` | src/charm.py:104-105 | the result of `strip()` has no whitespace at either end |
| `Text.StripSlice` | src/charm.py:104-105 | the result of `strip()` is a slice of its input with only whitespace before and after it |
| `Text.StripUnique` | src/charm.py:104-105 | stripping whitespace-padded stripped text gives back exactly that text |
| `Text.StripIdempotent` | src/charm.py:104-110 | stripping twice is stripping once, so a written configuration compares equal on the next pass when the stripped text holds no `\r` (see `ReconcileIdempotent`) |

## Left out

- Absence of `/etc/audit/auditd.conf`: the code reads it without handling a missing file, so the model always has a configuration file.
- Failures of `write_file` and `read_file` (permissions, space, a directory in the rule source, the `pwd` lookup of "root") are not modelled; writes always succeed.
- `systemd-detect-virt` and its failure: the virtualisation type is an input string.
- Jinja2 rendering and its strict-undefined failure: the template is an arbitrary total function of the configuration, which always supplies both keys.
- apt internals: `update_cache`, the files the package itself installs, and the lookup done by `from_installed_package`; apt's outcome is an input.
- `subprocess.run` raising because `augenrules` is missing; the reload's exit status is an input, and the kernel's rule set is modelled as the rule directory at the last successful reload.
- `AuditRuleReloadError` and `AuditdServiceNotActiveError`: declared by the workload, never raised; they appear in the `Error` datatype only.
- pydantic type coercion: option values are integers.
- Event observation, `COSAgentProvider` log forwarding, `ops.main` and logging.
- What Juju does with a status set before a handler raises: the model keeps the Maintenance status and returns the error.
- Charm.ReconcileIdempotent: requires the rendered text to hold no `\r` once stripped, because the template file is not part of this model; a template with `\n` line endings filled with two integers yields none, and `CarriageReturnRewritten` states what happens otherwise (a rewrite and restart on every pass).
- Reads of files, the rule-source listing and the virtualisation probe do not appear in the trace, so trace-based statements say nothing about them.
- Text encoding: files are read and written as UTF-8 text; the model works on characters and does not model decoding errors.
