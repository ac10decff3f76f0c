/**
 * The identity-management test driver: a fixed guest descriptor, the workflow without the
 * graphical viewer and with shorter reboot delays, and the address printed on success.
 */
module IdmWorkflow {
  import opened Wrappers
  import opened Host
  import opened Hypervisor
  import opened IpDiscovery
  import opened Lifecycle
  import opened Manager

  const VmName := "idm-test-vm"

  /** The fixed descriptor of `main()`. */
  const IdmConfig := VmConfig(VmName, 30, 4096, 2, "/var/lib/libvirt/images/IDM_1.0.0.alpha.612.iso", DiskImagePathFor(VmName))

  /** `main()`: the workflow with a 300 s address timeout; resolves to the address. */
  method IdmMain(oracle: Oracle, host: World) returns (r: Result<string>, after: World)
    ensures (r, after) == Workflow(IdmVariant, oracle, IdmConfig, host, 300)
  {
    var vmManager := new VirtualMachineManager(IdmVariant, IdmConfig, oracle, host);
    r := Provision(vmManager, 300);
    after := vmManager.host;
  }

  /** `main().then(console.log).catch(() => process.exit(1))`: a successful run prints the
      address, which is a dotted quad, and exits with status 0; a failed one prints nothing
      and exits with status 1. */
  method IdmEntry(oracle: Oracle, host: World) returns (exitCode: int, printed: Option<string>, after: World)
    ensures var (r, w') := Workflow(IdmVariant, oracle, IdmConfig, host, 300);
      && after == w'
      && (r.Ok? ==> exitCode == 0 && printed == Some(r.value) && IsDottedQuad(r.value))
      && (r.Err? ==> exitCode == 1 && printed == None)
  {
    var r;
    r, after := IdmMain(oracle, host);
    if r.Ok? {
      WorkflowSuccess(IdmVariant, oracle, IdmConfig, host, 300);
      return 0, Some(r.value), after;
    }
    exitCode, printed := 1, None;
  }
}
