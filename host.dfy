/**
 * The machine the charm runs on, as far as the charm can see or change it:
 * the auditd configuration file, the audit rule directory, the package and
 * service state reported by apt and systemd, the rules last loaded into the
 * kernel, and the ordered trace of the calls that change or probe that
 * state: file writes and the apt, systemd and augenrules calls. Reads of
 * files, the listing of the charm's rule directory and the virtualisation
 * probe are not recorded in the trace.
 */
module Host {

  /** A file as `write_file` leaves it: its text, owner and permission bits. */
  datatype File = File(content: string, owner: string, mode: int)

  /** One recorded call into the operating system's collaborators. */
  datatype Call =
    | AddPackage(package: string)              // apt.add_package
    | RemovePackage(package: string)           // apt.remove_package
    | LookupPackage(package: string)           // apt.DebianPackage.from_installed_package
    | WriteFile(path: string, content: string, owner: string, mode: int)
    | RestartService(service: string)          // systemd.service_restart
    | QueryService(service: string)            // systemd.service_running
    | Run(argv: seq<string>)                   // subprocess.run of augenrules

  /** The kind of a call, ignoring its arguments. */
  datatype Kind = PackageAdd | PackageRemove | PackageLookup | FileWrite | ServiceRestart | ServiceQuery | Command

  function KindOf(c: Call): (k: Kind)
  {
    match c
    case AddPackage(_) => PackageAdd
    case RemovePackage(_) => PackageRemove
    case LookupPackage(_) => PackageLookup
    case WriteFile(_, _, _, _) => FileWrite
    case RestartService(_) => ServiceRestart
    case QueryService(_) => ServiceQuery
    case Run(_) => Command
  }

  /** How many calls of kind `k` a trace holds. */
  function Count(calls: seq<Call>, k: Kind): (n: nat)
    ensures n <= |calls|
  {
    if calls == [] then 0
    else Count(calls[..|calls| - 1], k) + (if KindOf(calls[|calls| - 1]) == k then 1 else 0)
  }

  /** Counting distributes over the concatenation of traces. */
  lemma {:induction false} CountAppend(a: seq<Call>, b: seq<Call>, k: Kind)
    ensures Count(a + b, k) == Count(a, k) + Count(b, k)
    decreases |b|
  {
    if b == [] {
      assert a + b == a;
    } else {
      assert (a + b)[..|a + b| - 1] == a + b[..|b| - 1];
      CountAppend(a, b[..|b| - 1], k);
    }
  }

  /** A trace none of whose calls is of kind `k` counts none of them. */
  lemma {:induction false} CountNone(calls: seq<Call>, k: Kind)
    requires forall i :: 0 <= i < |calls| ==> KindOf(calls[i]) != k
    ensures Count(calls, k) == 0
    decreases |calls|
  {
    if calls != [] {
      CountNone(calls[..|calls| - 1], k);
    }
  }

  /** A one-call trace counts that call's kind only. */
  lemma CountSingle(c: Call, k: Kind)
    ensures Count([c], k) == if KindOf(c) == k then 1 else 0
  {
    assert [c][..0] == [];
  }

  class Machine {
    /** The daemon's configuration file (`/etc/audit/auditd.conf`). */
    var configFile: File
    /** The daemon's rule directory (`/etc/audit/rules.d/`), by file name. */
    var ruleDir: map<string, File>
    /** Whether apt reports the auditd package as installed. */
    var installed: bool
    /** What systemd answers when asked whether the auditd unit is running. */
    var active: bool
    /** The rule directory as it stood at the last successful rule reload. */
    var loadedRules: map<string, File>
    /** The recorded calls made so far, oldest first (reads are not recorded). */
    var trace: seq<Call>

    constructor (configFile: File, ruleDir: map<string, File>, installed: bool, active: bool)
      ensures this.configFile == configFile && this.ruleDir == ruleDir
      ensures this.installed == installed && this.active == active
      ensures loadedRules == ruleDir && trace == []
    {
      this.configFile := configFile;
      this.ruleDir := ruleDir;
      this.installed := installed;
      this.active := active;
      loadedRules := ruleDir;
      trace := [];
    }
  }
}
