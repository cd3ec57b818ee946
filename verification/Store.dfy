/** The file-backed store of volume records: crash-atomic persistence and the
    mutators, each of which refines its pure effect on the map. */
module Store {
  import opened Options
  import opened Names
  import opened Records
  import opened Sorting

  // ---- the document in the file ----

  /** Fields marked omitempty are left out when empty. */
  datatype OptionsDoc = OptionsDoc(
    sizeGb: int, diskType: string, fsType: string,
    labels: Option<map<string, string>>,
    sourceSnapshot: Option<string>, sourceImage: Option<string>,
    snapshotOnRemove: Option<bool>, reclaimPolicy: Option<string>)

  datatype VolumeDoc = VolumeDoc(
    name: string, options: OptionsDoc, status: Status,
    mountpoint: Option<string>, refCount: int, createdAt: Option<string>)

  function OmitEmpty(s: string): Option<string> {
    if s == "" then None else Some(s)
  }

  function EncodeOptions(o: DiskOptions): OptionsDoc {
    OptionsDoc(o.sizeGb, o.diskType, o.fsType,
      if o.labels.Entries() == map[] then None else Some(o.labels.m),
      OmitEmpty(o.sourceSnapshot), OmitEmpty(o.sourceImage),
      if o.snapshotOnRemove then Some(true) else None, OmitEmpty(o.reclaimPolicy))
  }

  function DecodeOptions(d: OptionsDoc): DiskOptions {
    DiskOptions(d.sizeGb, d.diskType, d.fsType,
      if d.labels.None? then Nil else Made(d.labels.value),
      d.sourceSnapshot.GetOr(""), d.sourceImage.GetOr(""),
      d.snapshotOnRemove.GetOr(false), d.reclaimPolicy.GetOr(""))
  }

  function Encode(v: Volume): VolumeDoc {
    VolumeDoc(v.name, EncodeOptions(v.options), v.status, OmitEmpty(v.mountpoint), v.refCount, OmitEmpty(v.createdAt))
  }

  function Decode(d: VolumeDoc): Volume {
    Volume(d.name, DecodeOptions(d.options), d.status, d.mountpoint.GetOr(""), d.refCount, d.createdAt.GetOr(""))
  }

  lemma DecodeEncode(v: Volume)
    ensures Decode(Encode(v)) == Normal(v)
  {
  }

  /** Every record is filed under its own name. */
  predicate Filed(vols: Vols) {
    forall n | n in vols :: vols[n].name == n
  }

  /** The persisted document: the records in ascending order of name. It depends on
      the map alone. */
  ghost function Document(vols: Vols): (docs: seq<VolumeDoc>)
  {
    DocumentOf(vols, Listing(vols.Keys))
  }

  function DocumentOf(vols: Vols, names: seq<string>): seq<VolumeDoc>
    requires forall n | n in names :: n in vols
  {
    seq(|names|, i requires 0 <= i < |names| => assert names[i] in names; Encode(vols[names[i]]))
  }

  /** Reading a document back: later records replace earlier ones of the same name. */
  function LoadDocs(docs: seq<VolumeDoc>): Vols {
    if docs == [] then map[] else
      var v := Decode(docs[|docs| - 1]);
      LoadDocs(docs[..|docs| - 1])[v.name := v]
  }

  lemma {:induction false} LoadDocumentOf(vols: Vols, names: seq<string>)
    requires Filed(vols) && forall n | n in names :: n in vols
    ensures LoadDocs(DocumentOf(vols, names)) == map n | n in vols && n in names :: Normal(vols[n])
  {
    if names != [] {
      var front, n := names[..|names| - 1], names[|names| - 1];
      LoadDocumentOf(vols, front);
      var docs := DocumentOf(vols, names);
      assert docs[..|docs| - 1] == DocumentOf(vols, front);
      DecodeEncode(vols[n]);
      assert forall m :: m in names <==> m in front || m == n;
    }
  }

  /** The round trip: loading the persisted document gives the records back, up to
      nil against empty labels. */
  lemma LoadDocument(vols: Vols)
    requires Filed(vols)
    ensures LoadDocs(Document(vols)) == Loaded(vols)
  {
    LoadDocumentOf(vols, Listing(vols.Keys));
  }

  // ---- the file system ----

  /** Contents of a file: a document, nothing, or what a torn write left behind. */
  datatype Content = Doc(docs: seq<VolumeDoc>) | Empty | Torn

  type File = Option<Content>

  /** What `Load` makes of the state file. */
  function LoadFile(f: File): Result<Vols> {
    match f
    case None => Success(map[])
    case Some(Empty) => Success(map[])
    case Some(Doc(docs)) => Success(LoadDocs(docs))
    case Some(Torn) => Failure
  }

  /** The state file and its temporary sibling. `history` records what a restart
      would find in the state file after every single write or rename. */
  class FileSys {
    var main: File
    var temp: File
    ghost var history: seq<File>

    constructor ()
      ensures main == None && temp == None && history == []
    {
      main, temp, history := None, None, [];
    }

    /** Truncates the temporary file and fills it piece by piece; may fail midway. */
    method WriteTemp(c: Content) returns (ok: bool)
      modifies this
      ensures main == old(main)
      ensures ok ==> temp == Some(c)
      ensures old(history) <= history && forall i | |old(history)| <= i < |history| :: history[i] == old(main)
    {
      temp := Some(Empty);
      history := history + [main];
      var pieces :| 0 <= pieces;
      for i := 0 to pieces
        invariant main == old(main)
        invariant old(history) <= history && forall j | |old(history)| <= j < |history| :: history[j] == old(main)
      {
        temp := Some(Torn);
        history := history + [main];
      }
      ok := *;
      if ok {
        temp := Some(c);
        history := history + [main];
      }
    }

    /** Puts the temporary file in place of the state file, atomically. */
    method Rename() returns (ok: bool)
      modifies this
      ensures main == if ok then old(temp) else old(main)
      ensures old(history) <= history && forall i | |old(history)| <= i < |history| :: history[i] == main
    {
      ok := *;
      if ok {
        main, temp := temp, None;
        history := history + [main];
      }
    }
  }

  datatype ReconcileResult = ReconcileResult(imported: seq<string>, removed: seq<string>)

  // ---- the store ----

  /** What the state file held before and during a call, and what it holds after it. */
  ghost predicate CrashAtomic(was: File, during: seq<File>, now: File, vols: Vols, ok: bool) {
    && (ok ==> LoadFile(now) == Success(Loaded(vols)))
    && (!ok ==> now == was)
    && forall i | 0 <= i < |during| :: during[i] == was || LoadFile(during[i]) == Success(Loaded(vols))
  }

  class Store {
    const fs: FileSys
    var vols: Vols

    ghost predicate Valid()
      reads this
    {
      Filed(vols)
    }

    constructor (fs: FileSys, vols: Vols)
      requires Filed(vols)
      ensures Valid() && this.fs == fs && this.vols == vols
    {
      this.fs, this.vols := fs, vols;
    }

    /** A missing or empty file is an empty store, a corrupt one an error. */
    static method Load(fs: FileSys) returns (s: Store?)
      ensures s == null <==> LoadFile(fs.main).Failure?
      ensures s != null ==> fresh(s) && s.Valid() && s.fs == fs && Success(s.vols) == LoadFile(fs.main)
    {
      match fs.main
      case None => s := new Store(fs, map[]);
      case Some(Empty) => s := new Store(fs, map[]);
      case Some(Torn) => s := null;
      case Some(Doc(docs)) =>
        var vols: Vols := map[];
        for i := 0 to |docs|
          invariant vols == LoadDocs(docs[..i]) && Filed(vols)
        {
          assert docs[..i + 1][..i] == docs[..i];
          var v := Decode(docs[i]);
          vols := vols[v.name := v];
        }
        assert docs[..|docs|] == docs;
        s := new Store(fs, vols);
    }

    /** The names in ascending order, whatever order the map iteration takes. */
    method SortedNames() returns (names: seq<string>)
      ensures names == Listing(vols.Keys)
    {
      var all: seq<string> := [];
      var todo := vols.Keys;
      while todo != {}
        invariant todo <= vols.Keys && Distinct(all)
        invariant forall n :: n in all <==> n in vols.Keys - todo
        decreases todo
      {
        var n :| n in todo;
        assert n !in all;
        todo := todo - {n};
        all := all + [n];
      }
      SortAscending(all);
      names := Sort(all);
      AscendingUnique(names, Listing(vols.Keys));
    }

    /** Writes the records to the temporary file and renames it into place. */
    method Persist() returns (ok: bool)
      requires Valid()
      modifies fs
      ensures ok ==> fs.main == Some(Doc(Document(vols)))
      ensures old(fs.history) <= fs.history
      ensures CrashAtomic(old(fs.main), fs.history[|old(fs.history)|..], fs.main, vols, ok)
    {
      var names := SortedNames();
      LoadDocument(vols);
      ok := fs.WriteTemp(Doc(DocumentOf(vols, names)));
      if !ok {
        return;
      }
      ok := fs.Rename();
    }

    method Get(name: string) returns (v: Option<Volume>)
      ensures v == if name in vols then Some(vols[name]) else None
    {
      v := if name in vols then Some(vols[name]) else None;
    }

    /** A copy of every record, in ascending order of name. */
    method List() returns (all: seq<Volume>)
      ensures |all| == |Listing(vols.Keys)|
      ensures forall i | 0 <= i < |all| :: Listing(vols.Keys)[i] in vols && all[i] == vols[Listing(vols.Keys)[i]]
    {
      var sorted := SortedNames();
      assert forall n | n in sorted :: n in vols;
      var copy := vols;
      all := seq(|sorted|, i requires 0 <= i < |sorted| => assert sorted[i] in sorted; copy[sorted[i]]);
    }

    /** A new record; refused, and nothing written, if the name is taken. */
    method Add(v: Volume) returns (ok: bool)
      requires Valid()
      modifies this, fs
      ensures Valid() && vols == Apply(old(vols), OpAdd(v))
      ensures ok ==> !Refused(old(vols), OpAdd(v))
      ensures old(fs.history) <= fs.history
      ensures CrashAtomic(old(fs.main), fs.history[|old(fs.history)|..], fs.main, vols, ok)
    {
      if v.name in vols {
        return false;
      }
      vols := vols[v.name := v];
      ok := Persist();
    }

    /** Removing an absent record succeeds without touching the file. */
    method Remove(name: string) returns (ok: bool)
      requires Valid()
      modifies this, fs
      ensures Valid() && vols == Apply(old(vols), OpRemove(name))
      ensures name !in old(vols) ==> ok && fs.main == old(fs.main)
      ensures old(fs.history) <= fs.history
      ensures name in old(vols) ==>
                CrashAtomic(old(fs.main), fs.history[|old(fs.history)|..], fs.main, vols, ok)
    {
      if name !in vols {
        return true;
      }
      vols := vols - {name};
      ok := Persist();
    }

    /** Applies `f` to the record in place; an error if there is none. */
    method Update(name: string, f: Volume -> Volume) returns (ok: bool)
      requires Valid() && forall v :: f(v).name == v.name
      modifies this, fs
      ensures Valid()
      ensures vols == if name in old(vols) then old(vols)[name := f(old(vols)[name])] else old(vols)
      ensures ok ==> name in old(vols)
      ensures old(fs.history) <= fs.history
      ensures CrashAtomic(old(fs.main), fs.history[|old(fs.history)|..], fs.main, vols, ok)
    {
      if name !in vols {
        return false;
      }
      vols := vols[name := f(vols[name])];
      ok := Persist();
    }

    method IncRef(name: string, mountpoint: string) returns (n: int, ok: bool)
      requires Valid()
      modifies this, fs
      ensures Valid() && vols == Apply(old(vols), OpIncRef(name, mountpoint))
      ensures ok ==> name in old(vols) && n == old(vols)[name].refCount + 1
      ensures old(fs.history) <= fs.history
      ensures CrashAtomic(old(fs.main), fs.history[|old(fs.history)|..], fs.main, vols, ok)
    {
      ok := Update(name, v => IncRefd(v, mountpoint));
      n := if name in vols then vols[name].refCount else 0;
    }

    method DecRef(name: string) returns (n: int, ok: bool)
      requires Valid()
      modifies this, fs
      ensures Valid() && vols == Apply(old(vols), OpDecRef(name))
      ensures ok ==> name in old(vols) && n == vols[name].refCount
      ensures old(fs.history) <= fs.history
      ensures CrashAtomic(old(fs.main), fs.history[|old(fs.history)|..], fs.main, vols, ok)
    {
      ok := Update(name, v => DecRefd(v));
      n := if name in vols then vols[name].refCount else 0;
    }

    method SetMounted(name: string, mountpoint: string) returns (ok: bool)
      requires Valid()
      modifies this, fs
      ensures Valid() && vols == Apply(old(vols), OpSetMounted(name, mountpoint))
      ensures ok ==> name in old(vols)
      ensures old(fs.history) <= fs.history
      ensures CrashAtomic(old(fs.main), fs.history[|old(fs.history)|..], fs.main, vols, ok)
    {
      ok := Update(name, v => SetMountedd(v, mountpoint));
    }

    /** Zeroes every count, one record after the other, then persists once. */
    method ResetRefCounts() returns (ok: bool)
      requires Valid()
      modifies this, fs
      ensures Valid() && vols == Apply(old(vols), OpReset)
      ensures old(fs.history) <= fs.history
      ensures CrashAtomic(old(fs.main), fs.history[|old(fs.history)|..], fs.main, vols, ok)
    {
      var todo := vols.Keys;
      while todo != {}
        invariant todo <= vols.Keys == old(vols).Keys
        invariant forall n | n in vols :: vols[n] == if n in todo then old(vols)[n] else Resetted(old(vols)[n])
        invariant fs.main == old(fs.main) && fs.history == old(fs.history)
        decreases todo
      {
        var n :| n in todo;
        vols := vols[n := Resetted(vols[n])];
        todo := todo - {n};
      }
      ok := Persist();
    }

    /** First loop of Reconcile: drops the records whose disk is not in GCE. */
    method DropMissing(gceSet: set<string>) returns (removed: seq<string>)
      requires Valid()
      modifies this
      ensures Valid() && vols == map n | n in old(vols) && n in gceSet :: old(vols)[n]
      ensures Distinct(removed) && Lists(removed, old(vols).Keys - gceSet)
    {
      removed := [];
      var todo := vols.Keys;
      while todo != {}
        invariant todo <= old(vols).Keys
        invariant vols == map n | n in old(vols) && (n in todo || n in gceSet) :: old(vols)[n]
        invariant Distinct(removed)
        invariant forall n :: n in removed <==> n in old(vols).Keys - todo - gceSet
        decreases todo
      {
        var n :| n in todo;
        assert n !in removed;
        todo := todo - {n};
        if n !in gceSet {
          vols := vols - {n};
          removed := removed + [n];
        }
      }
    }

    /** Second loop of Reconcile: imports the disks that have no record. */
    method ImportMissing(names: seq<string>, byName: map<string, DiskOptions>) returns (imported: seq<string>)
      requires Valid() && forall n | n in names :: n in byName
      requires forall n | n in vols :: n in names
      modifies this
      ensures Valid() && vols == Reconciled(old(vols), names, byName)
      ensures Distinct(imported) && Lists(imported, (set n | n in names) - old(vols).Keys)
    {
      imported := [];
      for i := 0 to |names|
        invariant vols == map n | n in names && (n in old(vols) || n in names[..i]) ::
                    if n in old(vols) then old(vols)[n] else Imported(n, byName[n])
        invariant Distinct(imported)
        invariant forall n :: n in imported <==> n in names[..i] && n !in old(vols)
      {
        var n := names[i];
        assert names[..i + 1] == names[..i] + [n];
        if n !in vols {
          assert n !in imported;
          vols := vols[n := Imported(n, byName[n])];
          imported := imported + [n];
        }
      }
      assert names[..|names|] == names;
    }

    /** Both loops, in memory; the differences are reported in ascending order. */
    method AlignRecords(names: seq<string>, byName: map<string, DiskOptions>) returns (r: ReconcileResult)
      requires Valid() && forall n | n in names :: n in byName
      modifies this
      ensures Valid() && vols == Reconciled(old(vols), names, byName)
      ensures Ascending(r.imported) && Lists(r.imported, (set n | n in names) - old(vols).Keys)
      ensures Ascending(r.removed) && Lists(r.removed, old(vols).Keys - (set n | n in names))
    {
      ghost var before := vols;
      var removed := DropMissing(set n | n in names);
      ghost var kept := vols;
      var imported := ImportMissing(names, byName);
      KeptThenImported(before, kept, names, byName);
      SortAscending(removed);
      SortAscending(imported);
      r := ReconcileResult(Sort(imported), Sort(removed));
    }

    /** Aligns the records with the names found in GCE, and persists once. */
    method Reconcile(names: seq<string>, byName: map<string, DiskOptions>) returns (r: ReconcileResult, ok: bool)
      requires Valid() && forall n | n in names :: n in byName
      modifies this, fs
      ensures Valid() && vols == Apply(old(vols), OpReconcile(names, byName))
      ensures Ascending(r.imported) && Lists(r.imported, (set n | n in names) - old(vols).Keys)
      ensures Ascending(r.removed) && Lists(r.removed, old(vols).Keys - (set n | n in names))
      ensures old(fs.history) <= fs.history
      ensures CrashAtomic(old(fs.main), fs.history[|old(fs.history)|..], fs.main, vols, ok)
    {
      r := AlignRecords(names, byName);
      ok := Persist();
    }
  }

  /** Dropping first makes no difference to what is kept and what is imported. */
  lemma KeptThenImported(before: Vols, kept: Vols, names: seq<string>, byName: map<string, DiskOptions>)
    requires forall n | n in names :: n in byName
    requires kept == map n | n in before && n in (set m | m in names) :: before[n]
    ensures Reconciled(kept, names, byName) == Reconciled(before, names, byName)
    ensures (set n | n in names) - kept.Keys == (set n | n in names) - before.Keys
  {
  }

  /** A second reconciliation with the same listing finds nothing to do. */
  lemma ReconcileIdempotent(vols: Vols, names: seq<string>, byName: map<string, DiskOptions>)
    requires forall n | n in names :: n in byName
    ensures var once := Reconciled(vols, names, byName);
            Reconciled(once, names, byName) == once &&
            once.Keys - (set n | n in names) == {} && (set n | n in names) - once.Keys == {}
  {
  }
}
