# KVM test-guest provisioning, modelled in Dafny

The repository's `virtualmachine/` scripts drive `virsh`, `qemu-img`, `virt-install` and
`file` through a shell to provision one KVM guest for tests. They remove any old guest,
create its disk and run the installer, press keys to get through the boot menu and the
installer's last screen, and start the guest if it is not running. Then they poll the
DHCP leases until an IPv4 address shows up. `VirtualMachineManager` runs these steps. Two
drivers use it:

- `vm-setup.ts` reads the guest's name and install media path from `test.config` (lines of
  `KEY="value"`, where a value may use `$NAME` to refer to another key). On success it
  writes the address to `.env` as `IDM_SYSTEM=<ip>`. The argument `cleanup` makes it run
  only the cleanup step.
- `idm_test_workflow.ts` has a fixed guest descriptor and prints the address. It differs
  from the first driver in four ways: it does not launch `virt-manager`, its reboot waits
  are shorter (5 min and 5 s, not 7 min and 10 s), it does not probe the guest state before
  polling, and its `main` returns the address.

How the model is built:

- **The host** is a value `World`. It holds the trace of issued command lines, the set of
  existing paths, a millisecond clock and the warning-level log lines. For each issued
  command it also records the clock reading at which it was issued. A scripted `Oracle`
  answers the command issued at trace position `k` with an exit status, the output
  streams and the time the command took (`host.dfy`).
- **Each step** is a function from the host before it to a result and the host after it
  (`lifecycle.dfy`). One `Variant` value holds the differences between the drivers'
  steps: the viewer, the two reboot waits and the state probe. So both drivers share one
  definition of each step. What each `main` returns is modelled in the driver's own module.
- **The class** `Manager.VirtualMachineManager` has the source's updatable fields
  (`ipAddress`, and the host it acts on). Each of its methods is proved equal to its step
  function. The polling method is a `while` loop, as in the source.
- **Text matching** follows JavaScript's semantics: the lease-output regular expression is
  matched by hand (`ipdiscovery.dfy`). So are the configuration-line regular expression and
  the `$NAME` substitution (`config.dfy`). `readFromConfig` is a method whose loop folds
  the file's lines into the shared accumulator.

## Model

| member | source | states |
|---|---|---|
| Text.ContainsSpec | virtualmachine/vm-setup.ts:49 | `includes` is true exactly when the word occurs at some position |
| Text.ContainsIgnoringCaseSpec | virtualmachine/vm-setup.ts:77 | `toLowerCase().includes(word)` is true exactly when, at some position, the lower-cased characters spell the word. So a probe with no "bootable" (or "running") in any case gives the warning (or the start) |
| Text.ExactOccurrenceFoundIgnoringCase | virtualmachine/vm-setup.ts:154 | an occurrence of "running" in any mix of ASCII cases is found by the case-insensitive test |
| Text.TrimSpec | virtualmachine/vm-setup.ts:38 | `trim` keeps a contiguous middle part of the output: only white space is removed, and only at the two ends, and the result neither starts nor ends with white space |
| Text.TrimIdempotent | virtualmachine/vm-setup.ts:38 | trimming an already trimmed stream changes nothing |
| Text.NatToString | virtualmachine/vm-setup.ts:81 | a number in a template string is a non-empty run of decimal digits with no leading zero |
| Text.NatToStringRoundTrip | virtualmachine/vm-setup.ts:81 | the rendered digits read back as the same number |
| Host.ExecSpec | virtualmachine/vm-setup.ts:29-41 | `execute` appends exactly its command and advances the clock by its running time. It succeeds exactly on exit status 0, with the trimmed standard output as its value. Otherwise it fails with an error carrying the command and the trimmed standard error and output |
| Hypervisor.VirtInstallEmbeds | virtualmachine/vm-setup.ts:93-102 | the installation line starts with `sudo virt-install --name <name>`. It contains the RAM and vCPU options, the qcow2 virtio disk, `--os-variant rocky9`, boot order `cdrom,hd,menu=on`, the install media and `--network default`, and it ends with `--graphics vnc,listen=0.0.0.0 --noautoconsole` |
| Hypervisor.InstallLineEmbeds | virtualmachine/vm-setup.ts:93-102 | all eight option groups occur in order, each starting where the groups before it end, and the last one ends the line |
| Lifecycle.CleanupSpec | virtualmachine/vm-setup.ts:46-64 | if the listing (a failed listing reads as empty) does not contain the name, only the listing is issued and the host is unchanged besides it. Otherwise destroy and then undefine are issued whatever they return, and the disk image path is gone afterwards |
| Lifecycle.SetupEnvironmentSpec | virtualmachine/vm-setup.ts:69-83 | a missing install media fails with `IsoNotFound` before any command. A `file` description without "bootable" adds only a warning. The disk is created after a successful probe. The step succeeds exactly when both commands succeed, and a failure names the last command issued |
| Lifecycle.CreateDiskLine | virtualmachine/vm-setup.ts:81 | the disk command is `sudo qemu-img create -f qcow2 <path> <digits>G`, and the digits are the decimal value of the size |
| Lifecycle.DefineAndStartSpec | virtualmachine/vm-setup.ts:88-107 | the installation line is issued first, and its failure ends the step. After a successful installation the general driver also launches `virt-manager`, and a failure of that propagates. The step succeeds exactly when every command it issued succeeded, and a failure names the last command |
| Lifecycle.NavigateBootMenuSpec | virtualmachine/vm-setup.ts:112-124 | `KEY_DOWN` is issued exactly 5 s after the step starts. `KEY_ENTER` follows it and is issued 0.5 s after `KEY_DOWN` returns. A failed `KEY_DOWN` stops the step, and the step succeeds exactly when both keys do |
| Lifecycle.TriggerFinalRebootSpec | virtualmachine/vm-setup.ts:129-142 | `KEY_TAB` is issued exactly when the installer wait is over. `KEY_ENTER` follows it and is issued 0.5 s after `KEY_TAB` returns. Success then takes the settle wait as well |
| Lifecycle.StartVmAfterInstallSpec | virtualmachine/vm-setup.ts:148-161 | the state probe is issued exactly when the 5 s wait is over, and any start right after the probe returns. If the state (a failed probe reads as empty) contains "running" in any case, the step succeeds with a warning and no start. Otherwise exactly one `virsh start` is issued, and the step succeeds exactly when it does |
| Lifecycle.PollSpec | virtualmachine/vm-setup.ts:174-186 | polling issues only lease queries. It ends in the timeout error only once the budget has elapsed since its start, and a found address comes from at least one query |
| Lifecycle.PollFirstAnswer | virtualmachine/vm-setup.ts:175-180 | the address returned is the matcher's answer to the last query, and every earlier query (a failed one reads as empty) had no match. On timeout, no query had a match |
| Lifecycle.PollAddress | virtualmachine/vm-setup.ts:176-180 | an address the loop returns is a non-empty dotted quad of digit runs |
| Lifecycle.PollAnswerFrom | virtualmachine/vm-setup.ts:176-180 | for any matcher that only yields non-empty dotted quads, so does the loop |
| Lifecycle.PollZeroBudget | virtualmachine/vm-setup.ts:174 | with a budget of 0 ms, no query is issued and the result is the timeout error |
| Lifecycle.PollsForTimeout | virtualmachine/vm-setup.ts:174-184 | when commands take no time, a timeout of `t` seconds allows ceil(t/5) queries |
| Lifecycle.PollCount | virtualmachine/vm-setup.ts:174-184 | when commands take no time, a timed-out poll issues exactly the number of queries the budget allows, and a successful one issues between 1 and that number. A loop entered before the deadline ends less than one poll interval (5 s) after it |
| Lifecycle.GetVmIpAddressSpec | virtualmachine/vm-setup.ts:166-187 | after 30 s (and the state probe, for the general driver only) polling starts with the deadline counted from then. A timeout yields `IpTimeout`, at once when the timeout is 0. Success yields a non-empty dotted quad after at least one query |
| Lifecycle.WorkflowFailure | virtualmachine/vm-setup.ts:242-266 | a failed run ends at its first command failure that is not swallowed, and that command is the last one issued. Failures of the cleanup commands, the state probes and the lease queries are swallowed, and the run goes on after them. The only other errors are the missing install media and the address timeout |
| Lifecycle.WorkflowIsoMissing | virtualmachine/vm-setup.ts:243-244 | without the install media only the cleanup commands are issued before the run fails with `IsoNotFound` |
| Lifecycle.WorkflowSuccess | virtualmachine/vm-setup.ts:243-250 | a successful run issues the steps' commands in their order and returns a non-empty dotted quad |
| IpDiscovery.MatchAtSound | virtualmachine/vm-setup.ts:176 | a match at a position is `ipv4`, then at least one white-space character, then four digit runs separated by dots. The captured address is exactly the digit-and-dot part |
| IpDiscovery.MatchAtComplete | virtualmachine/vm-setup.ts:176 | every such token at a position is matched there, with its address captured |
| IpDiscovery.MatchIsDottedQuad | virtualmachine/vm-setup.ts:176 | a captured address is a non-empty dotted quad |
| IpDiscovery.DigitsThenDot | virtualmachine/vm-setup.ts:176 | a digit run followed by a dot ends inside the string at a dot |
| IpDiscovery.QuadEnd | virtualmachine/vm-setup.ts:176 | a four-part address that ends, ends after it starts and inside the string |
| IpDiscovery.FirstMatchFrom | virtualmachine/vm-setup.ts:176 | the leftmost matching position at or after `i`, or none if nothing matches there |
| IpDiscovery.FindIp | virtualmachine/vm-setup.ts:176-177 | `match` returns the capture of the leftmost matching position, and nothing if no position matches |
| IpDiscovery.FindIpIsDottedQuad | virtualmachine/vm-setup.ts:177-178 | the captured address stored in `ipAddress` is a non-empty dotted quad |
| IpDiscovery.LeaseLineYieldsAddress | virtualmachine/vm-setup.ts:176 | `ipv4`, white space, an address and a tail that does not continue its last digit run yield that address |
| IpDiscovery.QuadLayout | virtualmachine/vm-setup.ts:176 | four digit runs joined by dots form a dotted quad, with the dots where the runs end |
| Config.SplitLines | virtualmachine/vm-setup.ts:197 | `split("\n")` yields at least one piece, and no piece contains a newline |
| Config.JoinSplit | virtualmachine/vm-setup.ts:197 | joining the pieces with newlines gives back the content |
| Config.SplitJoin | virtualmachine/vm-setup.ts:197 | splitting newline-free pieces joined by newlines gives back the pieces |
| Config.ParseLineSpec | virtualmachine/vm-setup.ts:202 | a line yields the captures (key, value) exactly when it has that layout: word characters, `=`, an optional quote, then the longest non-empty run of non-quote characters |
| Config.ParseLineSound | virtualmachine/vm-setup.ts:202-204 | every captured pair comes from such a layout |
| Config.ParseLineComplete | virtualmachine/vm-setup.ts:202 | every line of that layout yields its key and value |
| Config.StoreLookup | virtualmachine/vm-setup.ts:201-206 | after the loop, a key has the value of its last recording line, or its earlier value if no line records it |
| Config.LastValueAt | virtualmachine/vm-setup.ts:201-206 | the last line recording a key gives its value |
| Config.LastValueNone | virtualmachine/vm-setup.ts:201-206 | a key no line records has no value from the file |
| Config.LastValueExists | virtualmachine/vm-setup.ts:201-206 | the file gives a key a value exactly when some line records it |
| Config.StoreLastWins | virtualmachine/vm-setup.ts:204 | a later line for the same key overwrites earlier ones |
| Config.StoreUntouched | virtualmachine/vm-setup.ts:199-206 | a key no line records keeps its value from the accumulator |
| Config.StoreHasKey | virtualmachine/vm-setup.ts:208 | a key is found exactly when it was already in the accumulator or some line records it |
| Config.StoreKeepsKeys | virtualmachine/vm-setup.ts:199 | a key already in the accumulator is still there after reading |
| Config.StoreIdempotent | virtualmachine/vm-setup.ts:221-222 | reading the same file again into the same accumulator changes nothing |
| Config.ExpandNoReference | virtualmachine/vm-setup.ts:213-215 | a value without `$` is returned unchanged |
| Config.ExpandEmptyMap | virtualmachine/vm-setup.ts:214 | with no keys, every reference stays as `$NAME` text |
| Config.ExpandReference | virtualmachine/vm-setup.ts:213 | `$NAME` is replaced by its value (or kept as `$NAME` if unknown), and expansion goes on after the whole name |
| Config.ExpandSingleLevel | virtualmachine/vm-setup.ts:214 | a reference gives the referenced raw value, which is not expanded again |
| Config.ReadFromConfig | virtualmachine/vm-setup.ts:195-216 | the accumulator after the loop is the fold of the file's lines into the given (or empty) record. A found key yields its expanded value, and a missing key yields `KeyNotFound`. A key already in the accumulator is always found |
| VmSetup.ConfigFromSpec | virtualmachine/vm-setup.ts:218-232 | sourcing succeeds exactly when some line records `VM_NAME` and some line records `ISO_DEST_PATH`, and `VM_NAME` is checked first. The guest gets 30 GB, 4096 MB and 2 vCPUs and the disk `/var/lib/libvirt/images/<name>.qcow2` |
| VmSetup.GetVmConfig | virtualmachine/vm-setup.ts:218-232 | the two reads into the shared accumulator give the descriptor of one reading of the file |
| VmSetup.DotEnvReadsBack | virtualmachine/vm-setup.ts:253 | the `.env` line written for an address reads back, through the same line syntax, as `IDM_SYSTEM` with that address |
| VmSetup.SetupMain | virtualmachine/vm-setup.ts:235-267 | a sourcing error ends the run before any command. Otherwise the workflow runs with a 300 s timeout, and `.env` is written exactly when it succeeds |
| VmSetup.CleanupMain | virtualmachine/vm-setup.ts:269-283 | after sourcing, only the cleanup step runs, and it cannot fail |
| VmSetup.Dispatch | virtualmachine/vm-setup.ts:285-289 | the argument `cleanup` selects the cleanup run and anything else the setup run. The exit status is 0 on success and 1 on failure |
| IdmWorkflow.IdmMain | virtualmachine/idm_test_workflow.ts:193-229 | the fixed descriptor (`idm-test-vm`, 30 GB, 4096 MB, 2 vCPUs, the fixed media path) goes through this driver's workflow with a 300 s timeout |
| IdmWorkflow.IdmEntry | virtualmachine/idm_test_workflow.ts:231 | success prints the address, a dotted quad, with exit status 0. Failure prints nothing and exits with status 1 |
| Manager.VirtualMachineManager.constructor | virtualmachine/vm-setup.ts:19-23 | a new controller holds the descriptor and has no address |
| Manager.VirtualMachineManager.Execute | virtualmachine/vm-setup.ts:29-41 | one command as `Exec` describes it; the address is untouched |
| Manager.VirtualMachineManager.Sleep | virtualmachine/vm-setup.ts:115 | a wait advances the clock by exactly its duration |
| Manager.VirtualMachineManager.CleanupVmIfPresent | virtualmachine/vm-setup.ts:46-64 | the host after the method is `Lifecycle.Cleanup` of the host before it |
| Manager.VirtualMachineManager.SetupEnvironment | virtualmachine/vm-setup.ts:69-83 | result and host are those of `Lifecycle.SetupEnvironment` |
| Manager.VirtualMachineManager.DefineAndStartVM | virtualmachine/vm-setup.ts:88-107 | result and host are those of `Lifecycle.DefineAndStart` for the controller's driver |
| Manager.VirtualMachineManager.NavigateBootMenu | virtualmachine/vm-setup.ts:112-124 | result and host are those of `Lifecycle.NavigateBootMenu` |
| Manager.VirtualMachineManager.TriggerFinalReboot | virtualmachine/idm_test_workflow.ts:128-141 | result and host are those of `Lifecycle.TriggerFinalReboot` for the controller's driver |
| Manager.VirtualMachineManager.StartVmAfterInstall | virtualmachine/vm-setup.ts:148-161 | result and host are those of `Lifecycle.StartVmAfterInstall` |
| Manager.VirtualMachineManager.GetVmIpAddress | virtualmachine/vm-setup.ts:166-187 | the polling loop yields the result and host of `Lifecycle.GetVmIpAddress`. `ipAddress` becomes the address on success and is unchanged on timeout |
| Manager.Provision | virtualmachine/vm-setup.ts:242-250 | the controller's steps in order give the result and host of `Lifecycle.Workflow`, and `ipAddress` holds the address after a successful run |

## Left out

- Process execution, signals, and the child's `error.message`: each command's exit status,
  output and duration come from the oracle. A process killed by a signal (exit code
  `null`) is modelled as a non-zero status.
- The `ExecOptions` parameter of `execute`, which no caller passes.
- Log lines other than the two warnings (media that may not be bootable, and a guest
  already running), the progress dots, and the `console.log` messages after the driver
  finishes.
- File reads: the content of `test.config` is a parameter, so a missing or unreadable
  file is not modelled.
- The effects of external commands on the filesystem: `qemu-img` creating the image and
  `undefine --remove-all-storage` deleting it do not change `files`. Only `unlinkSync` is
  modelled, and a failure of it or of `writeFileSync` is not.
- VmSetup.SetupMain: the `else` branch of `if (ip)` is unreachable. A successful run's
  address is non-empty (`Lifecycle.WorkflowSuccess`), so the branch is not modelled.
- Text.Lower: only ASCII letters are lower-cased. Other Unicode case mappings of
  `toLowerCase` are not modelled.
- Config.ReadFromConfig: keys are plain map entries. JavaScript's `in` and `??` also see
  inherited object properties such as `constructor`, so `$constructor` or the key
  `toString` behave differently in the source.
- Concurrency: every step is awaited in order, so the model is sequential.
- `virtualpdu/`, `tests/` and the lint configuration are not part of this model.

