/**
 * What each phase of the orchestrator does to the host, as functions of the scripted
 * oracle, the guest descriptor and the host state before the phase, and the whole
 * provisioning workflow that runs the phases in order and stops at the first error.
 * Both drivers share these definitions; a `Variant` holds the ways their steps differ:
 * the viewer, the two reboot waits and the state probe before polling.
 */
module Lifecycle {
  import opened Text
  import opened Wrappers
  import opened Host
  import opened Hypervisor
  import opened IpDiscovery

  /** What distinguishes the two drivers' steps: whether `virt-manager` is launched after the
      installation starts, how long the reboot phase waits before and after its keys, and
      whether the guest state is probed before the address polling starts. */
  datatype Variant = Variant(launchesViewer: bool, installWaitMs: nat, settleMs: nat, probesBeforePolling: bool)

  /** The general driver. */
  const SetupVariant := Variant(true, 420000, 10000, true)

  /** The identity-management test driver. */
  const IdmVariant := Variant(false, 300000, 5000, false)

  /** A phase that returns nothing: success, or the error of the command that failed. */
  function Done(r: Result<string>): Result<()> {
    if r.Ok? then Ok(()) else Err(r.error)
  }

  /** `error` is a command failure naming the last command of `trace`. */
  ghost predicate FailedLast(error: Error, trace: seq<string>) {
    error.CommandFailed? && |trace| > 0 && trace[|trace| - 1] == error.command
  }

  function Repeat(command: string, n: nat): (r: seq<string>)
    ensures |r| == n && forall i :: 0 <= i < n ==> r[i] == command
  {
    seq(n, _ => command)
  }

  // ------------------------------------------------------------------- phases

  /** `cleanupVmIfPresent`: a failed listing reads as no guest; destroy and undefine
      failures are ignored; the disk image path is removed if it exists. */
  function Cleanup(o: Oracle, c: VmConfig, w: World): World {
    var (listed, w1) := Exec(o, w, ListAll);
    if !Contains(OrEmpty(listed), c.name) then w1
    else
      var (_, w2) := Exec(o, w1, Destroy(c.name));
      var (_, w3) := Exec(o, w2, Undefine(c.name));
      w3.(files := w3.files - {c.diskImagePath})
  }

  /** `setupEnvironment`: the install media must exist; its `file` description only decides
      a warning; then the disk image is created. */
  function SetupEnvironment(o: Oracle, c: VmConfig, w: World): (Result<()>, World) {
    if c.isoPath !in w.files then (Err(IsoNotFound(c.isoPath)), w)
    else
      var (info, w1) := Exec(o, w, FileProbe(c.isoPath));
      if info.Err? then (Done(info), w1)
      else
        var w2 := if ContainsIgnoringCase(info.value, "bootable") then w1 else Warn(w1, NotBootable(info.value));
        var (made, w3) := Exec(o, w2, CreateDisk(c.diskImagePath, c.diskSizeGb));
        (Done(made), w3)
  }

  /** `defineAndStartVM`: the installation, then (general driver only) the graphical viewer. */
  function DefineAndStart(v: Variant, o: Oracle, c: VmConfig, w: World): (Result<()>, World) {
    var (installed, w1) := Exec(o, w, VirtInstall(c));
    if installed.Err? || !v.launchesViewer then (Done(installed), w1)
    else
      var (viewer, w2) := Exec(o, w1, VirtManager);
      (Done(viewer), w2)
  }

  /** `navigateBootMenu`: 5 s, `KEY_DOWN`, 0.5 s, `KEY_ENTER`. */
  function NavigateBootMenu(o: Oracle, c: VmConfig, w: World): (Result<()>, World) {
    var (down, w1) := Exec(o, Wait(w, 5000), SendKey(c.name, KeyDown));
    if down.Err? then (Done(down), w1)
    else
      var (enter, w2) := Exec(o, Wait(w1, 500), SendKey(c.name, KeyEnter));
      (Done(enter), w2)
  }

  /** `triggerFinalReboot`: the installer wait, `KEY_TAB`, 0.5 s, `KEY_ENTER`, the settle wait. */
  function TriggerFinalReboot(v: Variant, o: Oracle, c: VmConfig, w: World): (Result<()>, World) {
    var (tab, w1) := Exec(o, Wait(w, v.installWaitMs), SendKey(c.name, KeyTab));
    if tab.Err? then (Done(tab), w1)
    else
      var (enter, w2) := Exec(o, Wait(w1, 500), SendKey(c.name, KeyEnter));
      if enter.Err? then (Done(enter), w2) else (Ok(()), Wait(w2, v.settleMs))
  }

  /** `startVmAfterInstall`: 5 s, then the state probe (a failure reads as empty output);
      a guest whose state mentions "running" in any case is not started again. */
  function StartVmAfterInstall(o: Oracle, c: VmConfig, w: World): (Result<()>, World) {
    var (state, w1) := Exec(o, Wait(w, 5000), DomState(c.name));
    if ContainsIgnoringCase(OrEmpty(state), "running") then (Ok(()), Warn(w1, AlreadyRunning(c.name)))
    else
      var (started, w2) := Exec(o, w1, Start(c.name));
      (Done(started), w2)
  }

  /** The polling loop of `getVmIpAddress`, for the address matcher `find`: while less than
      `limit` ms have passed since `start`, query the leases (a failure reads as empty
      output); return the first address found, otherwise wait 5 s and try again. */
  function PollWith(find: string -> Option<string>, o: Oracle, name: string, w: World, start: nat, limit: nat): (Result<string>, World)
    requires start <= w.clock
    decreases start + limit - w.clock
  {
    if w.clock - start >= limit then (Err(IpTimeout), w)
    else
      var (out, w1) := Exec(o, w, LeaseQuery(name));
      match find(OrEmpty(out))
      case Some(ip) => (Ok(ip), w1)
      case None => PollWith(find, o, name, Wait(w1, 5000), start, limit)
  }

  /** The loop with the lease-output matcher. */
  function Poll(o: Oracle, name: string, w: World, start: nat, limit: nat): (Result<string>, World)
    requires start <= w.clock
  {
    PollWith(FindIp, o, name, w, start, limit)
  }

  /** What `find` makes of the answer to the lease query issued as command number `k`. */
  function LeaseAnswer(find: string -> Option<string>, o: Oracle, name: string, k: nat): Option<string> {
    find(OrEmpty(Outcome(LeaseQuery(name), o(k, LeaseQuery(name)))))
  }

  /** `getVmIpAddress(timeoutSeconds)`: 30 s, the logged state probe (general driver only),
      then the polling loop with the deadline counted from there. */
  function GetVmIpAddress(v: Variant, o: Oracle, c: VmConfig, w: World, timeoutSeconds: nat): (Result<string>, World) {
    var w1 := Wait(w, 30000);
    var w2 := if v.probesBeforePolling then Exec(o, w1, DomState(c.name)).1 else w1;
    Poll(o, c.name, w2, w2.clock, timeoutSeconds * 1000)
  }

  /** The `try` block of `main`: every phase in order; the first error ends the run. */
  function Workflow(v: Variant, o: Oracle, c: VmConfig, w: World, timeoutSeconds: nat): (Result<string>, World) {
    var w1 := Cleanup(o, c, w);
    var (r2, w2) := SetupEnvironment(o, c, w1);
    if r2.Err? then (Err(r2.error), w2) else
    var (r3, w3) := DefineAndStart(v, o, c, w2);
    if r3.Err? then (Err(r3.error), w3) else
    var (r4, w4) := NavigateBootMenu(o, c, w3);
    if r4.Err? then (Err(r4.error), w4) else
    var (r5, w5) := TriggerFinalReboot(v, o, c, w4);
    if r5.Err? then (Err(r5.error), w5) else
    var (r6, w6) := StartVmAfterInstall(o, c, w5);
    if r6.Err? then (Err(r6.error), w6) else
    GetVmIpAddress(v, o, c, w6, timeoutSeconds)
  }

  // ---------------------------------------------------------- command sequences

  function CleanupCommands(c: VmConfig, present: bool): seq<string> {
    if present then [ListAll, Destroy(c.name), Undefine(c.name)] else [ListAll]
  }

  function SetupCommands(c: VmConfig): seq<string> {
    [FileProbe(c.isoPath), CreateDisk(c.diskImagePath, c.diskSizeGb)]
  }

  function DefineCommands(v: Variant, c: VmConfig): seq<string> {
    if v.launchesViewer then [VirtInstall(c), VirtManager] else [VirtInstall(c)]
  }

  function BootMenuCommands(c: VmConfig): seq<string> {
    [SendKey(c.name, KeyDown), SendKey(c.name, KeyEnter)]
  }

  function RebootCommands(c: VmConfig): seq<string> {
    [SendKey(c.name, KeyTab), SendKey(c.name, KeyEnter)]
  }

  function StartCommands(c: VmConfig, running: bool): seq<string> {
    if running then [DomState(c.name)] else [DomState(c.name), Start(c.name)]
  }

  function ProbeCommands(v: Variant, c: VmConfig): seq<string> {
    if v.probesBeforePolling then [DomState(c.name)] else []
  }

  // ------------------------------------------------------------ phase properties

  /** Cleanup never fails. Without the guest's name in the listing it issues nothing more;
      with it, it destroys and undefines the guest whatever those commands report, and
      removes the disk image path and no other file. */
  lemma CleanupSpec(o: Oracle, c: VmConfig, w: World)
    ensures var w' := Cleanup(o, c, w);
      var present := Contains(OrEmpty(Outcome(ListAll, o(|w.trace|, ListAll))), c.name);
      && w'.trace == w.trace + CleanupCommands(c, present)
      && w'.files == (if present then w.files - {c.diskImagePath} else w.files)
      && w'.warnings == w.warnings && w'.clock >= w.clock
  {
  }

  /** Without the install media the phase fails before issuing any command. Otherwise the
      media is probed, and the disk created only if the probe succeeded; the phase succeeds
      exactly when both commands do, whatever the probe says about bootability, which only
      decides the warning. */
  lemma SetupEnvironmentSpec(o: Oracle, c: VmConfig, w: World)
    ensures var (r, w') := SetupEnvironment(o, c, w);
      && w'.files == w.files && w'.clock >= w.clock
      && (c.isoPath !in w.files ==> r == Err(IsoNotFound(c.isoPath)) && w' == w)
      && (c.isoPath in w.files ==>
            var probe := o(|w.trace|, FileProbe(c.isoPath));
            var made := o(|w.trace| + 1, CreateDisk(c.diskImagePath, c.diskSizeGb));
            && (probe.exitCode != 0 ==> w'.trace == w.trace + [FileProbe(c.isoPath)] && w'.warnings == w.warnings)
            && (probe.exitCode == 0 ==> w'.trace == w.trace + SetupCommands(c))
            && (probe.exitCode == 0 ==>
                  w'.warnings == w.warnings +
                  (if ContainsIgnoringCase(Trim(probe.stdout), "bootable") then [] else [NotBootable(Trim(probe.stdout))]))
            && (r.Ok? <==> probe.exitCode == 0 && made.exitCode == 0)
            && (r.Err? ==> FailedLast(r.error, w'.trace)))
  {
  }

  /** The disk is created in qcow2 format at the image path with the configured size, in
      gigabytes, written in decimal. */
  lemma CreateDiskLine(path: string, sizeGb: nat)
    ensures exists digits: string ::
      && CreateDisk(path, sizeGb) == "sudo qemu-img create -f qcow2 " + path + " " + digits + "G"
      && |digits| > 0 && (forall k :: 0 <= k < |digits| ==> IsDigit(digits[k]))
      && DecimalValue(digits) == sizeGb
  {
    NatToStringRoundTrip(sizeGb);
    assert CreateDisk(path, sizeGb) == "sudo qemu-img create -f qcow2 " + path + " " + NatToString(sizeGb) + "G";
  }

  /** The installation is started first; the viewer follows only in the general driver and
      only after a successful installation. */
  lemma DefineAndStartSpec(v: Variant, o: Oracle, c: VmConfig, w: World)
    ensures var (r, w') := DefineAndStart(v, o, c, w);
      var installed := o(|w.trace|, VirtInstall(c));
      && w'.files == w.files && w'.warnings == w.warnings && w'.clock >= w.clock
      && w'.trace == w.trace + (if installed.exitCode == 0 then DefineCommands(v, c) else [VirtInstall(c)])
      && (r.Ok? <==> installed.exitCode == 0 && (v.launchesViewer ==> o(|w.trace| + 1, VirtManager).exitCode == 0))
      && (r.Err? ==> FailedLast(r.error, w'.trace))
  {
  }

  /** `KEY_DOWN` is issued 5 s after the phase starts and `KEY_ENTER` 0.5 s after `KEY_DOWN`
      returns; a failed key ends the phase with that key's command as the last one issued. */
  lemma NavigateBootMenuSpec(o: Oracle, c: VmConfig, w: World)
    ensures var (r, w') := NavigateBootMenu(o, c, w);
      var down := o(|w.trace|, SendKey(c.name, KeyDown));
      && w'.files == w.files && w'.warnings == w.warnings && w'.clock >= w.clock + 5000
      && (down.exitCode != 0 ==> w'.trace == w.trace + [SendKey(c.name, KeyDown)]
                                 && w'.issuedAt == w.issuedAt + [w.clock + 5000])
      && (down.exitCode == 0 ==> w'.trace == w.trace + BootMenuCommands(c) && w'.clock >= w.clock + 5500
                                 && w'.issuedAt == w.issuedAt + [w.clock + 5000, w.clock + 5000 + down.elapsedMs + 500])
      && (r.Ok? <==> down.exitCode == 0 && o(|w.trace| + 1, SendKey(c.name, KeyEnter)).exitCode == 0)
      && (r.Err? ==> FailedLast(r.error, w'.trace))
  {
  }

  /** `KEY_TAB` is issued once the installer wait is over and `KEY_ENTER` 0.5 s after
      `KEY_TAB` returns; the settle wait follows on success. */
  lemma TriggerFinalRebootSpec(v: Variant, o: Oracle, c: VmConfig, w: World)
    ensures var (r, w') := TriggerFinalReboot(v, o, c, w);
      var tab := o(|w.trace|, SendKey(c.name, KeyTab));
      && w'.files == w.files && w'.warnings == w.warnings && w'.clock >= w.clock + v.installWaitMs
      && (tab.exitCode != 0 ==> w'.trace == w.trace + [SendKey(c.name, KeyTab)]
                                && w'.issuedAt == w.issuedAt + [w.clock + v.installWaitMs])
      && (tab.exitCode == 0 ==> w'.trace == w.trace + RebootCommands(c)
                                && w'.issuedAt == w.issuedAt + [w.clock + v.installWaitMs, w.clock + v.installWaitMs + tab.elapsedMs + 500])
      && (r.Ok? ==> w'.clock >= w.clock + v.installWaitMs + 500 + v.settleMs)
      && (r.Ok? <==> tab.exitCode == 0 && o(|w.trace| + 1, SendKey(c.name, KeyEnter)).exitCode == 0)
      && (r.Err? ==> FailedLast(r.error, w'.trace))
  {
  }

  /** The state probe is issued once the 5 s wait is over. A guest reported running (in any
      case) is not started, with a warning; otherwise exactly one start is issued, right after
      the probe returns, and its failure is the phase's failure. A failed probe counts as
      not running. */
  lemma StartVmAfterInstallSpec(o: Oracle, c: VmConfig, w: World)
    ensures var (r, w') := StartVmAfterInstall(o, c, w);
      var probe := o(|w.trace|, DomState(c.name));
      var running := probe.exitCode == 0 && ContainsIgnoringCase(Trim(probe.stdout), "running");
      && w'.files == w.files && w'.clock >= w.clock + 5000
      && w'.trace == w.trace + StartCommands(c, running)
      && w'.issuedAt == w.issuedAt + (if running then [w.clock + 5000]
                                      else [w.clock + 5000, w.clock + 5000 + probe.elapsedMs])
      && (running ==> r.Ok? && w'.warnings == w.warnings + [AlreadyRunning(c.name)])
      && (!running ==> w'.warnings == w.warnings && (r.Ok? <==> o(|w.trace| + 1, Start(c.name)).exitCode == 0))
      && (r.Err? ==> FailedLast(r.error, w'.trace))
  {
  }

  // ---------------------------------------------------------------- address poll

  /** The loop issues only lease queries, and times out only once the deadline has passed. */
  lemma {:induction false} PollSpec(find: string -> Option<string>, o: Oracle, name: string, w: World, start: nat, limit: nat)
    requires start <= w.clock
    ensures var (r, w') := PollWith(find, o, name, w, start, limit);
      && w'.files == w.files && w'.warnings == w.warnings && w'.clock >= w.clock
      && (exists n: nat :: w'.trace == w.trace + Repeat(LeaseQuery(name), n))
      && (r.Err? ==> r.error == IpTimeout && w'.clock >= start + limit)
      && (r.Ok? ==> |w'.trace| > |w.trace|)
    decreases start + limit - w.clock
  {
    if w.clock - start < limit {
      var (out, w1) := Exec(o, w, LeaseQuery(name));
      if find(OrEmpty(out)).None? {
        var w2 := Wait(w1, 5000);
        PollSpec(find, o, name, w2, start, limit);
        var (r, w') := PollWith(find, o, name, w2, start, limit);
        var n: nat :| w'.trace == w2.trace + Repeat(LeaseQuery(name), n);
        assert w'.trace == w.trace + Repeat(LeaseQuery(name), n + 1);
      } else {
        assert w1.trace == w.trace + Repeat(LeaseQuery(name), 1);
      }
    } else {
      assert w.trace == w.trace + Repeat(LeaseQuery(name), 0);
    }
  }

  /** The loop returns the address of the first answer that holds one, every earlier
      answer holding none; on a timeout every answer held none. */
  lemma {:induction false} PollFirstAnswer(find: string -> Option<string>, o: Oracle, name: string, w: World, start: nat, limit: nat)
    requires start <= w.clock
    ensures var (r, w') := PollWith(find, o, name, w, start, limit);
      && (r.Err? ==> forall k :: |w.trace| <= k < |w'.trace| ==> LeaseAnswer(find, o, name, k).None?)
      && (r.Ok? ==> |w'.trace| > |w.trace| && Some(r.value) == LeaseAnswer(find, o, name, |w'.trace| - 1)
                    && forall k :: |w.trace| <= k < |w'.trace| - 1 ==> LeaseAnswer(find, o, name, k).None?)
    decreases start + limit - w.clock
  {
    if w.clock - start < limit {
      var (out, w1) := Exec(o, w, LeaseQuery(name));
      assert find(OrEmpty(out)) == LeaseAnswer(find, o, name, |w.trace|);
      if find(OrEmpty(out)).None? {
        PollFirstAnswer(find, o, name, Wait(w1, 5000), start, limit);
      }
    }
  }

  /** Every address the loop returns is a dotted quad, so never empty. */
  lemma PollAddress(o: Oracle, name: string, w: World, start: nat, limit: nat)
    requires start <= w.clock && Poll(o, name, w, start, limit).0.Ok?
    ensures IsDottedQuad(Poll(o, name, w, start, limit).0.value)
    ensures Poll(o, name, w, start, limit).0.value != ""
  {
    forall s | FindIp(s).Some? ensures IsDottedQuad(FindIp(s).value) && FindIp(s).value != "" {
      FindIpIsDottedQuad(s);
    }
    PollAnswerFrom(FindIp, o, name, w, start, limit);
  }

  /** The loop returns only addresses its matcher produced. */
  lemma {:induction false} PollAnswerFrom(find: string -> Option<string>, o: Oracle, name: string, w: World, start: nat, limit: nat)
    requires start <= w.clock
    requires forall s :: find(s).Some? ==> IsDottedQuad(find(s).value) && find(s).value != ""
    ensures var r := PollWith(find, o, name, w, start, limit).0;
      r.Ok? ==> IsDottedQuad(r.value) && r.value != ""
    decreases start + limit - w.clock
  {
    if w.clock - start < limit {
      var (out, w1) := Exec(o, w, LeaseQuery(name));
      if find(OrEmpty(out)).None? {
        PollAnswerFrom(find, o, name, Wait(w1, 5000), start, limit);
      }
    }
  }

  /** A zero budget times out at once, without any lease query. */
  lemma PollZeroBudget(o: Oracle, name: string, w: World)
    ensures Poll(o, name, w, w.clock, 0) == (Err(IpTimeout), w)
  {
  }

  /** How many polls fit in `d` ms when commands take no time: `ceil(d / 5000)`. */
  function Polls(d: int): nat
    decreases d
  {
    if d <= 0 then 0 else 1 + Polls(d - 5000)
  }

  /** A timeout of `t` seconds allows `ceil(t / 5)` polls. */
  lemma {:induction false} PollsForTimeout(t: nat)
    ensures Polls(t * 1000) == (t + 4) / 5
    decreases t
  {
    if t > 5 {
      PollsForTimeout(t - 5);
      assert t * 1000 - 5000 == (t - 5) * 1000;
    } else if t > 0 {
      assert Polls(t * 1000 - 5000) == 0;
    }
  }

  /** When every command takes no time, a timeout follows exactly `Polls` lease queries and
      an address is found within that many; a loop entered before the deadline gives up
      less than one poll interval after it. */
  lemma {:induction false} PollCount(find: string -> Option<string>, o: Oracle, name: string, w: World, start: nat, limit: nat)
    requires start <= w.clock
    requires forall k: nat, c: string :: o(k, c).elapsedMs == 0
    ensures var (r, w') := PollWith(find, o, name, w, start, limit);
      var n := |w'.trace| - |w.trace|;
      && (r.Err? ==> n == Polls(start + limit - w.clock))
      && (r.Ok? ==> 1 <= n <= Polls(start + limit - w.clock))
      && (w.clock < start + limit ==> w'.clock < start + limit + 5000)
    decreases start + limit - w.clock
  {
    if w.clock - start < limit {
      var (out, w1) := Exec(o, w, LeaseQuery(name));
      assert w1.clock == w.clock;
      if find(OrEmpty(out)).None? {
        PollCount(find, o, name, Wait(w1, 5000), start, limit);
        PollSpec(find, o, name, Wait(w1, 5000), start, limit);
      }
    }
  }

  /** The address phase of the general driver issues one state probe first; the other none. */
  lemma GetVmIpAddressSpec(v: Variant, o: Oracle, c: VmConfig, w: World, timeoutSeconds: nat)
    ensures var (r, w') := GetVmIpAddress(v, o, c, w, timeoutSeconds);
      var w2 := if v.probesBeforePolling then Exec(o, Wait(w, 30000), DomState(c.name)).1 else Wait(w, 30000);
      && w2.trace == w.trace + ProbeCommands(v, c)
      && (r, w') == Poll(o, c.name, w2, w2.clock, timeoutSeconds * 1000)
      && w'.files == w.files && w'.warnings == w.warnings && w'.clock >= w.clock + 30000
      && (exists n: nat :: (r.Ok? ==> n >= 1) && w'.trace == w.trace + ProbeCommands(v, c) + Repeat(LeaseQuery(c.name), n))
      && (r.Err? ==> r.error == IpTimeout && w'.clock >= w2.clock + timeoutSeconds * 1000)
      && (r.Ok? ==> IsDottedQuad(r.value) && r.value != "")
      && (timeoutSeconds == 0 ==> r == Err(IpTimeout) && w' == w2)
  {
    var w2 := if v.probesBeforePolling then Exec(o, Wait(w, 30000), DomState(c.name)).1 else Wait(w, 30000);
    PollSpec(FindIp, o, c.name, w2, w2.clock, timeoutSeconds * 1000);
    if GetVmIpAddress(v, o, c, w, timeoutSeconds).0.Ok? {
      PollAddress(o, c.name, w2, w2.clock, timeoutSeconds * 1000);
    }
  }

  // ------------------------------------------------------------ whole workflow

  /** The commands of a successful run, in order: cleanup (with or without an existing
      guest), setup, definition, boot menu, reboot, start (skipped for a running guest),
      the state probe of the general driver, and at least one lease query. */
  ghost predicate SuccessTrace(v: Variant, c: VmConfig, before: seq<string>, after: seq<string>) {
    exists present: bool, running: bool, n: nat ::
      && n >= 1
      && after == before + CleanupCommands(c, present) + SetupCommands(c) + DefineCommands(v, c)
                  + BootMenuCommands(c) + RebootCommands(c) + StartCommands(c, running)
                  + ProbeCommands(v, c) + Repeat(LeaseQuery(c.name), n)
  }

  /** The first failing command ends the run: it is the last command issued. The only other
      errors are a missing install media and the address timeout. */
  lemma WorkflowFailure(v: Variant, o: Oracle, c: VmConfig, w: World, timeoutSeconds: nat)
    ensures var (r, w') := Workflow(v, o, c, w, timeoutSeconds);
      && (r.Err? && r.error.CommandFailed? ==> FailedLast(r.error, w'.trace))
      && (r.Err? ==> r.error.CommandFailed? || r.error == IsoNotFound(c.isoPath) || r.error == IpTimeout)
  {
    var w1 := Cleanup(o, c, w);
    var (r2, w2) := SetupEnvironment(o, c, w1);
    StepsFailLast(v, o, c, w1);
    if r2.Ok? {
      var (r3, w3) := DefineAndStart(v, o, c, w2);
      StepsFailLast(v, o, c, w2);
      if r3.Ok? {
        var (r4, w4) := NavigateBootMenu(o, c, w3);
        StepsFailLast(v, o, c, w3);
        if r4.Ok? {
          var (r5, w5) := TriggerFinalReboot(v, o, c, w4);
          StepsFailLast(v, o, c, w4);
          if r5.Ok? {
            var (r6, w6) := StartVmAfterInstall(o, c, w5);
            StepsFailLast(v, o, c, w5);
            if r6.Ok? {
              GetVmIpAddressSpec(v, o, c, w6, timeoutSeconds);
            }
          }
        }
      }
    }
  }

  /** The failure facts of the steps alone: each fails on its last command, except a
      missing install media. */
  lemma StepsFailLast(v: Variant, o: Oracle, c: VmConfig, w: World)
    ensures var (r, w') := SetupEnvironment(o, c, w);
      r.Err? ==> r.error == IsoNotFound(c.isoPath) || FailedLast(r.error, w'.trace)
    ensures var (r, w') := DefineAndStart(v, o, c, w); r.Err? ==> FailedLast(r.error, w'.trace)
    ensures var (r, w') := NavigateBootMenu(o, c, w); r.Err? ==> FailedLast(r.error, w'.trace)
    ensures var (r, w') := TriggerFinalReboot(v, o, c, w); r.Err? ==> FailedLast(r.error, w'.trace)
    ensures var (r, w') := StartVmAfterInstall(o, c, w); r.Err? ==> FailedLast(r.error, w'.trace)
  {
    SetupEnvironmentSpec(o, c, w);
    DefineAndStartSpec(v, o, c, w);
    NavigateBootMenuSpec(o, c, w);
    TriggerFinalRebootSpec(v, o, c, w);
    StartVmAfterInstallSpec(o, c, w);
  }


  /** Without the install media the run stops after the cleanup, before anything is created. */
  lemma WorkflowIsoMissing(v: Variant, o: Oracle, c: VmConfig, w: World, timeoutSeconds: nat)
    requires c.isoPath !in w.files
    ensures var (r, w') := Workflow(v, o, c, w, timeoutSeconds);
      && r == Err(IsoNotFound(c.isoPath))
      && (w'.trace == w.trace + CleanupCommands(c, false) || w'.trace == w.trace + CleanupCommands(c, true))
  {
    CleanupSpec(o, c, w);
  }

  /** A successful run issues exactly the commands of `SuccessTrace` and yields a dotted quad,
      which is never empty, so the driver's check of the address always passes. */
  lemma WorkflowSuccess(v: Variant, o: Oracle, c: VmConfig, w: World, timeoutSeconds: nat)
    requires Workflow(v, o, c, w, timeoutSeconds).0.Ok?
    ensures var (r, w') := Workflow(v, o, c, w, timeoutSeconds);
      && IsDottedQuad(r.value) && r.value != ""
      && SuccessTrace(v, c, w.trace, w'.trace)
  {
    var present := Contains(OrEmpty(Outcome(ListAll, o(|w.trace|, ListAll))), c.name);
    CleanupSpec(o, c, w);
    var w1 := Cleanup(o, c, w);
    var (r2, w2) := SetupEnvironment(o, c, w1);
    SetupEnvironmentSpec(o, c, w1);
    var (r3, w3) := DefineAndStart(v, o, c, w2);
    DefineAndStartSpec(v, o, c, w2);
    var (r4, w4) := NavigateBootMenu(o, c, w3);
    NavigateBootMenuSpec(o, c, w3);
    var (r5, w5) := TriggerFinalReboot(v, o, c, w4);
    TriggerFinalRebootSpec(v, o, c, w4);
    var (r6, w6) := StartVmAfterInstall(o, c, w5);
    StartVmAfterInstallSpec(o, c, w5);
    var probe := o(|w5.trace|, DomState(c.name));
    var running := probe.exitCode == 0 && ContainsIgnoringCase(Trim(probe.stdout), "running");
    var (r, w') := GetVmIpAddress(v, o, c, w6, timeoutSeconds);
    GetVmIpAddressSpec(v, o, c, w6, timeoutSeconds);
    var n: nat :| n >= 1 && w'.trace == w6.trace + ProbeCommands(v, c) + Repeat(LeaseQuery(c.name), n);
    assert SuccessTrace(v, c, w.trace, w'.trace) by {
      assert w'.trace == w.trace + CleanupCommands(c, present) + SetupCommands(c) + DefineCommands(v, c)
                  + BootMenuCommands(c) + RebootCommands(c) + StartCommands(c, running)
                  + ProbeCommands(v, c) + Repeat(LeaseQuery(c.name), n);
    }
  }
}
