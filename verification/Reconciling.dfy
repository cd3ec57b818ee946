/** What the startup reconciliation amounts to, as a function of the records, the
    listing of the managed disks, and the volumes found mounted. */
module Reconciling {
  import opened Options
  import opened Names
  import opened Records
  import opened Protocol
  import Sorting

  function Restored(vols: Vols, mounted: set<string>): Vols {
    map n | n in vols :: if n in mounted then SetMountedd(vols[n], MountpointFor(n)) else vols[n]
  }

  function AfterReconcile(vols: Vols, disks: seq<Listed>, mounted: set<string>): Vols {
    Restored(Apply(Reconciled(vols, Available(disks), ImportTable(disks)), OpReset), mounted)
  }

  lemma RestoredNext(vols: Vols, mounted: set<string>, n: string)
    requires n in vols && n !in mounted
    ensures Restored(vols, mounted)[n := SetMountedd(Restored(vols, mounted)[n], MountpointFor(n))] ==
            Restored(vols, mounted + {n})
  {
  }

  function Scanned(names: seq<string>, i: nat): set<string>
    requires i <= |names|
  {
    set n | n in names[..i]
  }

  /** The scan goes through an ascending listing name by name. */
  lemma ScanSplits(names: seq<string>, i: nat)
    requires i < |names| && Sorting.Distinct(names)
    ensures ScanNext(names[i..]) == Calling(KScan(names[i], names[i + 1..]), IsMounted(names[i]))
    ensures names[i] !in Scanned(names, i) && Scanned(names, i + 1) == Scanned(names, i) + {names[i]}
  {
    assert names[i..][1..] == names[i + 1..];
    assert names[..i + 1] == names[..i] + [names[i]];
  }

  predicate NamesOnce(disks: seq<Listed>) {
    forall i, j | 0 <= i < j < |disks| :: disks[i].name != disks[j].name
  }

  lemma ListedOnce(disks: seq<Listed>, l: Listed, l': Listed)
    requires NamesOnce(disks) && l in disks && l' in disks && l.name == l'.name
    ensures l == l'
  {
    var i :| 0 <= i < |disks| && disks[i] == l;
    var j :| 0 <= j < |disks| && disks[j] == l';
  }

  /** Reconciliation partitions the listed disks: those without the deleting label are
      tracked, the deletion of those with it is resumed. */
  lemma ReconcilePartitions(vols: Vols, disks: seq<Listed>, mounted: set<string>, l: Listed)
    requires NamesOnce(disks) && l in disks
    ensures l.name in AfterReconcile(vols, disks, mounted) <==> !Marked(l.disk.labels)
    ensures Delete(l.name, false) in Resumable(disks) <==> Marked(l.disk.labels)
  {
    forall l' | l' in disks && l'.name == l.name ensures l' == l { ListedOnce(disks, l, l'); }
  }

  lemma AlignedRecord(vols: Vols, disks: seq<Listed>, n: string) returns (l: Listed)
    requires n in Reconciled(vols, Available(disks), ImportTable(disks))
    ensures l in disks && l.name == n && !Marked(l.disk.labels)
    ensures Reconciled(vols, Available(disks), ImportTable(disks))[n] ==
            if n in vols then vols[n] else Imported(n, ImportOptions(l.disk))
  {
    l :| l in disks && l.name == n && !Marked(l.disk.labels) && ImportTable(disks)[n] == ImportOptions(l.disk);
  }

  lemma RestoredRecord(aligned: Vols, mounted: set<string>, n: string)
    requires n in aligned
    ensures n in Restored(Apply(aligned, OpReset), mounted)
    ensures Restored(Apply(aligned, OpReset), mounted)[n] ==
            if n in mounted then SetMountedd(Resetted(aligned[n]), MountpointFor(n)) else Resetted(aligned[n])
  {
  }

  /** Nothing else is tracked, and every record is as it should be. One that survives
      keeps options and creation time; an imported one carries the real size and type
      and is retained. The count is 1 where the target was found mounted, else 0, with
      status and mountpoint to match. */
  lemma ReconciledRecord(vols: Vols, disks: seq<Listed>, mounted: set<string>, n: string) returns (l: Listed)
    requires CoherentVols(vols) && n in AfterReconcile(vols, disks, mounted)
    ensures l in disks && l.name == n && !Marked(l.disk.labels)
    ensures var v := AfterReconcile(vols, disks, mounted)[n];
            && Coherent(n, v) && v.refCount == (if n in mounted then 1 else 0)
            && (n in vols ==> v.options == vols[n].options && v.createdAt == vols[n].createdAt)
            && (n !in vols ==> v.createdAt == "")
            && (n !in vols ==>
                  v.options == DiskOptions(l.disk.sizeGb, l.disk.diskType, "ext4", Made(l.disk.labels), "", "", false, "retain"))
  {
    l := AlignedRecord(vols, disks, n);
    RestoredRecord(Reconciled(vols, Available(disks), ImportTable(disks)), mounted, n);
  }

  /** The size of a record is not read again: after a reconciliation it is the one that
      GCE reports if and only if the record is new or had that size before. */
  lemma SizeIsCurrentIff(vols: Vols, disks: seq<Listed>, mounted: set<string>, n: string) returns (l: Listed)
    requires CoherentVols(vols) && n in AfterReconcile(vols, disks, mounted)
    ensures l in disks && l.name == n && !Marked(l.disk.labels)
    ensures AfterReconcile(vols, disks, mounted)[n].options.sizeGb == l.disk.sizeGb <==>
            n !in vols || vols[n].options.sizeGb == l.disk.sizeGb
  {
    l := ReconciledRecord(vols, disks, mounted, n);
  }

  lemma AlignedKeys(vols: Vols, disks: seq<Listed>, mounted: set<string>)
    ensures forall n :: n in AfterReconcile(vols, disks, mounted) <==> n in Available(disks)
  {
  }

  /** Records under exactly these names are left as they are. */
  lemma AlignedStays(vols: Vols, names: seq<string>, byName: map<string, DiskOptions>)
    requires (forall n | n in names :: n in byName) && forall n :: n in vols <==> n in names
    ensures Reconciled(vols, names, byName) == vols
  {
  }

  lemma RestoredTwice(vols: Vols, mounted: set<string>)
    ensures var once := Restored(Apply(vols, OpReset), mounted);
            Restored(Apply(once, OpReset), mounted) == once
  {
  }

  /** A second reconciliation with the same listing imports and removes nothing. */
  lemma ReconcileTwice(vols: Vols, disks: seq<Listed>, mounted: set<string>)
    ensures var once := AfterReconcile(vols, disks, mounted);
            Reconciled(once, Available(disks), ImportTable(disks)) == once &&
            AfterReconcile(once, disks, mounted) == once
  {
    AlignedKeys(vols, disks, mounted);
    AlignedStays(AfterReconcile(vols, disks, mounted), Available(disks), ImportTable(disks));
    RestoredTwice(Reconciled(vols, Available(disks), ImportTable(disks)), mounted);
  }
}
