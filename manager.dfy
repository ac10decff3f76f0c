/**
 * `VirtualMachineManager`, the controller object both drivers instantiate: it owns one
 * guest descriptor, issues commands to the host and records the guest's address once
 * it is known. Each method leaves the host in the state its phase function describes.
 */
module Manager {
  import opened Text
  import opened Wrappers
  import opened Host
  import opened Hypervisor
  import opened IpDiscovery
  import opened Lifecycle

  class VirtualMachineManager {
    const variant: Variant
    const config: VmConfig
    const oracle: Oracle
    var host: World
    /** `ipAddress`: `null` until the address phase succeeds. */
    var ipAddress: Option<string>

    constructor(variant: Variant, config: VmConfig, oracle: Oracle, host: World)
      ensures this.variant == variant && this.config == config && this.oracle == oracle
      ensures this.host == host && ipAddress == None
    {
      this.variant := variant;
      this.config := config;
      this.oracle := oracle;
      this.host := host;
      ipAddress := None;
    }

    /** `execute(command)`: the trimmed standard output, or a failure naming the command. */
    method Execute(command: string) returns (r: Result<string>)
      modifies this
      ensures (r, host) == Exec(oracle, old(host), command)
      ensures ipAddress == old(ipAddress)
    {
      var response := oracle(|host.trace|, command);
      host := host.(trace := host.trace + [command], issuedAt := host.issuedAt + [host.clock],
                    clock := host.clock + response.elapsedMs);
      if response.exitCode != 0 {
        return Err(CommandFailed(command, Trim(response.stderr), Trim(response.stdout)));
      }
      r := Ok(Trim(response.stdout));
    }

    method Sleep(ms: nat)
      modifies this
      ensures host == Wait(old(host), ms) && ipAddress == old(ipAddress)
    {
      host := host.(clock := host.clock + ms);
    }

    method CleanupVmIfPresent()
      modifies this
      ensures host == Cleanup(oracle, config, old(host)) && ipAddress == old(ipAddress)
    {
      var listed := Execute(ListAll);
      var listOutput := OrEmpty(listed);
      if !Contains(listOutput, config.name) {
        return;
      }
      var destroyed := Execute(Destroy(config.name));
      var undefined := Execute(Undefine(config.name));
      if config.diskImagePath in host.files {
        host := host.(files := host.files - {config.diskImagePath});
      }
    }

    method SetupEnvironment() returns (r: Result<()>)
      modifies this
      ensures (r, host) == Lifecycle.SetupEnvironment(oracle, config, old(host))
      ensures ipAddress == old(ipAddress)
    {
      if config.isoPath !in host.files {
        return Err(IsoNotFound(config.isoPath));
      }
      var info := Execute(FileProbe(config.isoPath));
      if info.Err? {
        return Err(info.error);
      }
      if !ContainsIgnoringCase(info.value, "bootable") {
        host := host.(warnings := host.warnings + [NotBootable(info.value)]);
      }
      var made := Execute(CreateDisk(config.diskImagePath, config.diskSizeGb));
      r := Done(made);
    }

    method DefineAndStartVM() returns (r: Result<()>)
      modifies this
      ensures (r, host) == DefineAndStart(variant, oracle, config, old(host))
      ensures ipAddress == old(ipAddress)
    {
      var installed := Execute(VirtInstall(config));
      if installed.Err? || !variant.launchesViewer {
        return Done(installed);
      }
      var viewer := Execute(VirtManager);
      r := Done(viewer);
    }

    method NavigateBootMenu() returns (r: Result<()>)
      modifies this
      ensures (r, host) == Lifecycle.NavigateBootMenu(oracle, config, old(host))
      ensures ipAddress == old(ipAddress)
    {
      Sleep(5000);
      var down := Execute(SendKey(config.name, KeyDown));
      if down.Err? {
        return Done(down);
      }
      Sleep(500);
      var enter := Execute(SendKey(config.name, KeyEnter));
      r := Done(enter);
    }

    method TriggerFinalReboot() returns (r: Result<()>)
      modifies this
      ensures (r, host) == Lifecycle.TriggerFinalReboot(variant, oracle, config, old(host))
      ensures ipAddress == old(ipAddress)
    {
      Sleep(variant.installWaitMs);
      var tab := Execute(SendKey(config.name, KeyTab));
      if tab.Err? {
        return Done(tab);
      }
      Sleep(500);
      var enter := Execute(SendKey(config.name, KeyEnter));
      if enter.Err? {
        return Done(enter);
      }
      Sleep(variant.settleMs);
      r := Ok(());
    }

    method StartVmAfterInstall() returns (r: Result<()>)
      modifies this
      ensures (r, host) == Lifecycle.StartVmAfterInstall(oracle, config, old(host))
      ensures ipAddress == old(ipAddress)
    {
      Sleep(5000);
      var state := Execute(DomState(config.name));
      var stateOutput := OrEmpty(state);
      if ContainsIgnoringCase(stateOutput, "running") {
        host := host.(warnings := host.warnings + [AlreadyRunning(config.name)]);
        return Ok(());
      }
      var started := Execute(Start(config.name));
      r := Done(started);
    }

    /** The address phase; `ipAddress` is set exactly when an address is returned. */
    method GetVmIpAddress(timeoutSeconds: nat := 300) returns (r: Result<string>)
      modifies this
      ensures (r, host) == Lifecycle.GetVmIpAddress(variant, oracle, config, old(host), timeoutSeconds)
      ensures ipAddress == if r.Ok? then Some(r.value) else old(ipAddress)
    {
      Sleep(30000);
      if variant.probesBeforePolling {
        var state := Execute(DomState(config.name));
      }
      var start := host.clock;
      var limit := timeoutSeconds * 1000;
      ghost var goal := Poll(oracle, config.name, host, start, limit);
      while host.clock - start < limit
        invariant start <= host.clock
        invariant Poll(oracle, config.name, host, start, limit) == goal
        invariant ipAddress == old(ipAddress)
        decreases start + limit - host.clock
      {
        var output := Execute(LeaseQuery(config.name));
        var found := FindIp(OrEmpty(output));
        if found.Some? {
          ipAddress := found;
          return Ok(found.value);
        }
        Sleep(5000);
      }
      r := Err(IpTimeout);
    }
  }

  /** The `try` block of both drivers' `main`: the phases in order, stopping at the first error. */
  method Provision(vm: VirtualMachineManager, timeoutSeconds: nat) returns (r: Result<string>)
    modifies vm
    ensures (r, vm.host) == Workflow(vm.variant, vm.oracle, vm.config, old(vm.host), timeoutSeconds)
    ensures vm.ipAddress == if r.Ok? then Some(r.value) else old(vm.ipAddress)
  {
    vm.CleanupVmIfPresent();
    var setup := vm.SetupEnvironment();
    if setup.Err? {
      return Err(setup.error);
    }
    var defined := vm.DefineAndStartVM();
    if defined.Err? {
      return Err(defined.error);
    }
    var booted := vm.NavigateBootMenu();
    if booted.Err? {
      return Err(booted.error);
    }
    var rebooted := vm.TriggerFinalReboot();
    if rebooted.Err? {
      return Err(rebooted.error);
    }
    var started := vm.StartVmAfterInstall();
    if started.Err? {
      return Err(started.error);
    }
    r := vm.GetVmIpAddress(timeoutSeconds);
  }
}
