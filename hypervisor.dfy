/**
 * The guest descriptor and the exact command lines the orchestrator hands to
 * `virsh`, `qemu-img`, `virt-install` and `file`.
 */
module Hypervisor {
  import opened Text

  /** The immutable descriptor of the one guest a run manages. */
  datatype VmConfig = VmConfig(
    name: string,
    diskSizeGb: nat,
    ramMb: nat,
    vcpus: nat,
    isoPath: string,
    diskImagePath: string)

  /** Where both drivers put the guest's disk image. */
  function DiskImagePathFor(name: string): string {
    "/var/lib/libvirt/images/" + name + ".qcow2"
  }

  const ListAll := "sudo virsh list --all"
  const VirtManager := "virt-manager"
  const KeyDown := "KEY_DOWN"
  const KeyEnter := "KEY_ENTER"
  const KeyTab := "KEY_TAB"
  const Network := "default"

  function Destroy(name: string): string { "sudo virsh destroy " + name }

  function Undefine(name: string): string { "sudo virsh undefine " + name + " --remove-all-storage" }

  function FileProbe(path: string): string { "file " + path }

  function CreateDisk(path: string, sizeGb: nat): string {
    "sudo qemu-img create -f qcow2 " + path + " " + NatToString(sizeGb) + "G"
  }

  function SendKey(name: string, key: string): string { "sudo virsh send-key " + name + " " + key }

  function DomState(name: string): string { "sudo virsh domstate " + name }

  function Start(name: string): string { "sudo virsh start " + name }

  function LeaseQuery(name: string): string { "sudo virsh domifaddr " + name + " --source lease" }

  /** The guest-installation command line, as the concatenation of its option groups. */
  function VirtInstall(cfg: VmConfig): string {
    InstallLine(cfg.name, NatToString(cfg.ramMb), NatToString(cfg.vcpus), cfg.diskImagePath, cfg.isoPath)
  }

  function InstallLine(name: string, ram: string, vcpus: string, disk: string, iso: string): string {
    (NamePart(name) + SizingPart(ram, vcpus) + DiskPart(disk) + OsVariantPart())
    + (BootPart() + CdromPart(iso) + NetworkPart() + GraphicsPart())
  }

  function NamePart(name: string): string { "sudo virt-install --name " + name }

  function SizingPart(ram: string, vcpus: string): string { " --ram " + ram + " --vcpus " + vcpus }

  function DiskPart(disk: string): string { " --disk path=" + disk + ",format=qcow2,bus=virtio" }

  function OsVariantPart(): string { " --os-variant rocky9" }

  function BootPart(): string { " --boot cdrom,hd,menu=on" }

  function CdromPart(iso: string): string { " --cdrom " + iso }

  function NetworkPart(): string { " --network " + Network }

  function GraphicsPart(): string { " --graphics vnc,listen=0.0.0.0" + " --noautoconsole" }

  /** The installation line starts with the guest's name and embeds its RAM and vCPU count,
      the disk, the OS variant, the boot order with the menu enabled, the install media, the
      default network, and ends with the VNC console options. */
  lemma VirtInstallEmbeds(cfg: VmConfig)
    ensures var c := VirtInstall(cfg);
      && OccursAt(c, "sudo virt-install --name " + cfg.name, 0)
      && (exists i: nat :: OccursAt(c, " --ram " + NatToString(cfg.ramMb) + " --vcpus " + NatToString(cfg.vcpus), i))
      && (exists i: nat :: OccursAt(c, " --disk path=" + cfg.diskImagePath + ",format=qcow2,bus=virtio", i))
      && (exists i: nat :: OccursAt(c, " --os-variant rocky9", i))
      && (exists i: nat :: OccursAt(c, " --boot cdrom,hd,menu=on", i))
      && (exists i: nat :: OccursAt(c, " --cdrom " + cfg.isoPath, i))
      && (exists i: nat :: OccursAt(c, " --network default", i))
      && (exists i: nat :: OccursAt(c, " --graphics vnc,listen=0.0.0.0 --noautoconsole", i)
                           && i + |" --graphics vnc,listen=0.0.0.0 --noautoconsole"| == |c|)
  {
    InstallFrontEmbeds(cfg);
    InstallBackEmbeds(cfg);
  }

  lemma InstallFrontEmbeds(cfg: VmConfig)
    ensures var c := VirtInstall(cfg);
      && OccursAt(c, "sudo virt-install --name " + cfg.name, 0)
      && (exists i: nat :: OccursAt(c, " --ram " + NatToString(cfg.ramMb) + " --vcpus " + NatToString(cfg.vcpus), i))
      && (exists i: nat :: OccursAt(c, " --disk path=" + cfg.diskImagePath + ",format=qcow2,bus=virtio", i))
      && (exists i: nat :: OccursAt(c, " --os-variant rocky9", i))
  {
    InstallLineEmbeds(cfg.name, NatToString(cfg.ramMb), NatToString(cfg.vcpus), cfg.diskImagePath, cfg.isoPath);
  }

  lemma InstallBackEmbeds(cfg: VmConfig)
    ensures var c := VirtInstall(cfg);
      && (exists i: nat :: OccursAt(c, " --boot cdrom,hd,menu=on", i))
      && (exists i: nat :: OccursAt(c, " --cdrom " + cfg.isoPath, i))
      && (exists i: nat :: OccursAt(c, " --network default", i))
      && (exists i: nat :: OccursAt(c, " --graphics vnc,listen=0.0.0.0 --noautoconsole", i)
                           && i + |" --graphics vnc,listen=0.0.0.0 --noautoconsole"| == |c|)
  {
    var ram, vcpus := NatToString(cfg.ramMb), NatToString(cfg.vcpus);
    var c := VirtInstall(cfg);
    InstallLineEmbeds(cfg.name, ram, vcpus, cfg.diskImagePath, cfg.isoPath);
    var o5 := |NamePart(cfg.name)| + |SizingPart(ram, vcpus)| + |DiskPart(cfg.diskImagePath)| + |OsVariantPart()|;
    var o6 := o5 + |BootPart()|;
    var o7 := o6 + |CdromPart(cfg.isoPath)|;
    var o8 := o7 + |NetworkPart()|;
    BackLiterals(c, cfg.isoPath, o5, o6, o7, o8);
  }

  /** The last four option groups, spelled out. */
  lemma BackLiterals(c: string, iso: string, o5: nat, o6: nat, o7: nat, o8: nat)
    requires OccursAt(c, BootPart(), o5) && OccursAt(c, CdromPart(iso), o6) && OccursAt(c, NetworkPart(), o7)
    requires OccursAt(c, GraphicsPart(), o8) && o8 + |GraphicsPart()| == |c|
    ensures OccursAt(c, " --boot cdrom,hd,menu=on", o5)
    ensures OccursAt(c, " --cdrom " + iso, o6)
    ensures OccursAt(c, " --network default", o7)
    ensures OccursAt(c, " --graphics vnc,listen=0.0.0.0 --noautoconsole", o8)
            && o8 + |" --graphics vnc,listen=0.0.0.0 --noautoconsole"| == |c|
  {
    assert NetworkPart() == " --network default";
    assert GraphicsPart() == " --graphics vnc,listen=0.0.0.0 --noautoconsole";
  }

  /** The eight option groups follow each other in the installation line, in order, each
      starting where the ones before it end, and the last one ends the line. */
  lemma InstallLineEmbeds(name: string, ram: string, vcpus: string, disk: string, iso: string)
    ensures var c := InstallLine(name, ram, vcpus, disk, iso);
      var o2 := |NamePart(name)|;
      var o3 := o2 + |SizingPart(ram, vcpus)|;
      var o4 := o3 + |DiskPart(disk)|;
      var o5 := o4 + |OsVariantPart()|;
      var o6 := o5 + |BootPart()|;
      var o7 := o6 + |CdromPart(iso)|;
      var o8 := o7 + |NetworkPart()|;
      && OccursAt(c, NamePart(name), 0)
      && OccursAt(c, SizingPart(ram, vcpus), o2)
      && OccursAt(c, DiskPart(disk), o3)
      && OccursAt(c, OsVariantPart(), o4)
      && OccursAt(c, BootPart(), o5)
      && OccursAt(c, CdromPart(iso), o6)
      && OccursAt(c, NetworkPart(), o7)
      && OccursAt(c, GraphicsPart(), o8) && o8 + |GraphicsPart()| == |c|
  {
    PiecesOccur(NamePart(name), SizingPart(ram, vcpus), DiskPart(disk), OsVariantPart(),
                BootPart(), CdromPart(iso), NetworkPart(), GraphicsPart());
  }

  /** Each of eight concatenated pieces, grouped in two halves, occurs right after the ones before it. */
  lemma PiecesOccur(p1: string, p2: string, p3: string, p4: string, p5: string, p6: string, p7: string, p8: string)
    ensures var c := (p1 + p2 + p3 + p4) + (p5 + p6 + p7 + p8);
      var o2 := |p1|;
      var o3 := o2 + |p2|;
      var o4 := o3 + |p3|;
      var o5 := o4 + |p4|;
      var o6 := o5 + |p5|;
      var o7 := o6 + |p6|;
      var o8 := o7 + |p7|;
      && OccursAt(c, p1, 0) && OccursAt(c, p2, o2) && OccursAt(c, p3, o3) && OccursAt(c, p4, o4)
      && OccursAt(c, p5, o5) && OccursAt(c, p6, o6) && OccursAt(c, p7, o7) && OccursAt(c, p8, o8)
      && o8 + |p8| == |c|
  {
    var a := p1 + p2 + p3 + p4;
    var b := p5 + p6 + p7 + p8;
    FourPiecesOccur(p1, p2, p3, p4);
    FourPiecesOccur(p5, p6, p7, p8);
    Extend(a, p1, 0, b); Extend(a, p2, |p1|, b); Extend(a, p3, |p1| + |p2|, b);
    Extend(a, p4, |p1| + |p2| + |p3|, b);
    Shift(a, b, p5, 0); Shift(a, b, p6, |p5|); Shift(a, b, p7, |p5| + |p6|);
    Shift(a, b, p8, |p5| + |p6| + |p7|);
  }

  /** Each of four concatenated pieces occurs right after the ones before it. */
  lemma FourPiecesOccur(p1: string, p2: string, p3: string, p4: string)
    ensures var c := p1 + p2 + p3 + p4;
      && OccursAt(c, p1, 0) && OccursAt(c, p2, |p1|) && OccursAt(c, p3, |p1| + |p2|)
      && OccursAt(c, p4, |p1| + |p2| + |p3|)
  {
    var q2 := p1 + p2;
    var q3 := q2 + p3;
    Embeds(q2, p1, p2, []);
    Embeds(q3, q2, p3, []);
    Embeds(q3 + p4, q3, p4, []);
    Extend(p1, p1, 0, p2);
    Extend(q2, p1, 0, p3); Extend(q2, p2, |p1|, p3);
    Extend(q3, p1, 0, p4); Extend(q3, p2, |p1|, p4); Extend(q3, p3, |q2|, p4);
  }

  /** An occurrence survives prepending text before it, shifted by its length. */
  lemma Shift(a: string, b: string, sub: string, i: nat)
    requires OccursAt(b, sub, i)
    ensures OccursAt(a + b, sub, |a| + i)
  {
    assert (a + b)[|a| + i..|a| + i + |sub|] == b[i..i + |sub|];
  }

  /** An occurrence survives appending text after it. */
  lemma Extend(a: string, sub: string, i: nat, b: string)
    requires OccursAt(a, sub, i)
    ensures OccursAt(a + b, sub, i)
  {
    assert (a + b)[i..i + |sub|] == a[i..i + |sub|];
  }

  /** `mid` occurs in `pre + mid + post` right after `pre`. */
  lemma Embeds(c: string, pre: string, mid: string, post: string)
    requires c == pre + mid + post
    ensures OccursAt(c, mid, |pre|)
  {
    assert (pre + mid + post)[|pre|..|pre| + |mid|] == mid;
  }
}
