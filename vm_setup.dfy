/**
 * The general driver: the guest descriptor is sourced from `test.config`, the workflow
 * is run, and on success the address is stored in `.env`; the `cleanup` argument runs
 * only the cleanup phase. The configuration file's content is a parameter.
 */
module VmSetup {
  import opened Text
  import opened Wrappers
  import opened Host
  import opened Hypervisor
  import opened IpDiscovery
  import opened Config
  import opened Lifecycle
  import opened Manager

  /** The descriptor `getVmConfig` builds from the configuration file `content`: the guest
      name and the install media path are read (with expansion), the disk path is derived
      from the name, and the sizes are fixed. */
  function ConfigFrom(content: string): Result<VmConfig> {
    var m := Store(map[], SplitLines(content));
    if "VM_NAME" !in m then Err(KeyNotFound("VM_NAME"))
    else if "ISO_DEST_PATH" !in m then Err(KeyNotFound("ISO_DEST_PATH"))
    else
      var name := Expand(m["VM_NAME"], m);
      Ok(VmConfig(name, 30, 4096, 2, Expand(m["ISO_DEST_PATH"], m), DiskImagePathFor(name)))
  }

  /** Sourcing succeeds exactly when some line records each of the two keys; the guest name
      is missed first; the sizes are 30 GB of disk, 4096 MB of memory and 2 vCPUs, and the
      disk image is named after the guest. */
  lemma ConfigFromSpec(content: string)
    ensures var lines := SplitLines(content);
      var named := exists i :: 0 <= i < |lines| && Records(lines[i], "VM_NAME");
      var media := exists i :: 0 <= i < |lines| && Records(lines[i], "ISO_DEST_PATH");
      var r := ConfigFrom(content);
      && (r.Ok? <==> named && media)
      && (!named ==> r == Err(KeyNotFound("VM_NAME")))
      && (named && !media ==> r == Err(KeyNotFound("ISO_DEST_PATH")))
      && (r.Ok? ==> r.value.diskSizeGb == 30 && r.value.ramMb == 4096 && r.value.vcpus == 2
                    && r.value.diskImagePath == "/var/lib/libvirt/images/" + r.value.name + ".qcow2")
  {
    StoreHasKey(map[], SplitLines(content), "VM_NAME");
    StoreHasKey(map[], SplitLines(content), "ISO_DEST_PATH");
  }

  /** `getVmConfig()`: two reads of the file into one shared accumulator. The second read
      records the same lines again, which changes nothing, so both values are expanded
      against a single reading of the file. */
  method GetVmConfig(content: string) returns (r: Result<VmConfig>)
    ensures r == ConfigFrom(content)
  {
    var configValues, vmName := ReadFromConfig(content, "VM_NAME", Some(map[]));
    if vmName.Err? {
      return Err(vmName.error);
    }
    var configValuesAfter, isoDestPath := ReadFromConfig(content, "ISO_DEST_PATH", Some(configValues));
    StoreIdempotent(map[], SplitLines(content));
    if isoDestPath.Err? {
      return Err(isoDestPath.error);
    }
    r := Ok(VmConfig(vmName.value, 30, 4096, 2, isoDestPath.value, DiskImagePathFor(vmName.value)));
  }

  /** The content of `.env` written after a successful run. */
  function DotEnv(ip: string): string {
    EnvKey + "=" + ip + "\n"
  }

  /** The variable the address is stored under. */
  const EnvKey := "IDM_SYSTEM"

  /** The stored address reads back, through the same line syntax, as `IDM_SYSTEM`. */
  lemma DotEnvReadsBack(ip: string)
    requires IsDottedQuad(ip)
    ensures var m := Store(map[], SplitLines(DotEnv(ip)));
      EnvKey in m && m[EnvKey] == ip
  {
    var x: nat, y: nat, z: nat :| DottedQuadAt(ip, x, y, z);
    forall k | 0 <= k < |ip| ensures ip[k] != '\n' && ip[k] != '"' {
      assert k in {x, y, z} || IsDigit(ip[k]);
    }
    assert AllWord(EnvKey);
    AssignmentReadsBack(EnvKey, ip);
  }

  /** A line `key=value` ended by a newline records `value` for `key`, for a plain value. */
  lemma AssignmentReadsBack(key: string, value: string)
    requires |key| > 0 && AllWord(key)
    requires |value| > 0 && NoQuote(value) && NoNewline(value)
    ensures var m := Store(map[], SplitLines(key + "=" + value + "\n"));
      key in m && m[key] == value
  {
    var line := key + "=" + value;
    assert NoNewline(line) by {
      forall k | 0 <= k < |line| ensures line[k] != '\n' {
        if k > |key| {
          assert line[k] == value[k - |key| - 1];
        } else if k < |key| {
          assert line[k] == key[k];
        }
      }
    }
    SplitJoin([line, ""]);
    assert Join([line, ""]) == key + "=" + value + "\n";
    assert LineLayout(line, key, 0, value) by {
      assert line[..|key|] == key;
      assert line[|key| + 1..|key| + 1 + |value|] == value;
    }
    ParseLineComplete(line, key, 0, value);
    StoreLastWins(map[], [line, ""], 0, key, value);
  }


  /** The run `main()` performs: the workflow on the sourced descriptor, with a 300 s address
      timeout; a sourcing error ends it before any command. */
  function SetupRun(content: string, oracle: Oracle, host: World): (Result<string>, World) {
    var cfg := ConfigFrom(content);
    if cfg.Err? then (Err(cfg.error), host) else Workflow(SetupVariant, oracle, cfg.value, host, 300)
  }

  /** `main()`: the result, the host afterwards, and what is written to `.env`. */
  method SetupMain(content: string, oracle: Oracle, host: World) returns (r: Result<string>, after: World, dotenv: Option<string>)
    ensures (r, after) == SetupRun(content, oracle, host)
    ensures dotenv == if r.Ok? then Some(DotEnv(r.value)) else None
  {
    var cfg := GetVmConfig(content);
    if cfg.Err? {
      return Err(cfg.error), host, None;
    }
    var vmManager := new VirtualMachineManager(SetupVariant, cfg.value, oracle, host);
    r := Provision(vmManager, 300);
    after := vmManager.host;
    dotenv := None;
    if r.Ok? {
      dotenv := Some(DotEnv(r.value));
    }
  }

  /** `cleanup()`: only the cleanup phase, which cannot fail once the descriptor is sourced. */
  method CleanupMain(content: string, oracle: Oracle, host: World) returns (r: Result<()>, after: World)
    ensures ConfigFrom(content).Err? ==> r == Err(ConfigFrom(content).error) && after == host
    ensures ConfigFrom(content).Ok? ==> r == Ok(()) && after == Cleanup(oracle, ConfigFrom(content).value, host)
  {
    var cfg := GetVmConfig(content);
    if cfg.Err? {
      return Err(cfg.error), host;
    }
    var vmManager := new VirtualMachineManager(SetupVariant, cfg.value, oracle, host);
    vmManager.CleanupVmIfPresent();
    r, after := Ok(()), vmManager.host;
  }

  /** The script's entry: `cleanup` as the first argument selects the cleanup run; any
      failure exits with status 1, success with 0. */
  method Dispatch(argv: seq<string>, content: string, oracle: Oracle, host: World)
    returns (exitCode: int, after: World, dotenv: Option<string>)
    ensures |argv| > 2 && argv[2] == "cleanup" ==>
      && dotenv == None
      && (exitCode == 0 <==> ConfigFrom(content).Ok?)
      && after == (if ConfigFrom(content).Ok? then Cleanup(oracle, ConfigFrom(content).value, host) else host)
    ensures !(|argv| > 2 && argv[2] == "cleanup") ==>
      var (r, w') := SetupRun(content, oracle, host);
      && after == w'
      && exitCode == (if r.Ok? then 0 else 1)
      && dotenv == (if r.Ok? then Some(DotEnv(r.value)) else None)
    ensures exitCode == 0 || exitCode == 1
  {
    if |argv| > 2 && argv[2] == "cleanup" {
      var r;
      r, after := CleanupMain(content, oracle, host);
      exitCode := if r.Ok? then 0 else 1;
      dotenv := None;
    } else {
      var r;
      r, after, dotenv := SetupMain(content, oracle, host);
      exitCode := if r.Ok? then 0 else 1;
    }
  }
}
