/** What the calls into GCE come to, told by the requests they have sent and the answers
    they got: which request follows which answer, and how the call ends. */
module Requests {
  import opened Options
  import opened Records
  import opened Protocol
  import opened World
  import opened Failovers
  import Refs

  function Maybe(a: Option<Asked>): seq<Asked> {
    if a.Some? then [a.value] else []
  }

  /** An insertion with the effective labels and a reading, both successful. */
  predicate CreatedBy(requests: seq<Asked>, n: string, options: DiskOptions) {
    |requests| == 2 && requests[0].q == QInsert(n, options, EffectiveLabels(options)) && requests[0].o.ODone? &&
    requests[1].q == QGet(n) && requests[1].o.OFound?
  }

  /** The user list shows this VM. */
  predicate ListsUs(cfg: Config, users: seq<string>) {
    exists i | 0 <= i < |users| :: Refs.SameInstance(users[i], Refs.SelfLink(cfg.project, cfg.zone, cfg.instance))
  }

  /** DetachDisk: a look, and a detach of this VM if it is shown as a user. */
  datatype Release = Release(look: Asked, detach: Option<Asked>)

  function ReleaseLog(rel: Release): seq<Asked> {
    [rel.look] + Maybe(rel.detach)
  }

  predicate Releases(cfg: Config, n: string, rel: Release) {
    && rel.look.q == QGet(n)
    && (rel.detach.Some? <==> rel.look.o.OFound? && ListsUs(cfg, rel.look.o.disk.users))
    && (rel.detach.Some? ==> rel.detach.value.q == QDetach(n, cfg.instance))
  }

  /** It succeeds if the disk was seen, and was not attached here or the detach was done. */
  predicate Released(rel: Release) {
    rel.look.o.OFound? && (rel.detach.Some? ==> rel.detach.value.o.ODone?)
  }

  /** These requests end with that release. */
  predicate EndsReleasing(requests: seq<Asked>, rel: Release) {
    var k := |ReleaseLog(rel)|;
    k <= |requests| && requests[|requests| - k..] == ReleaseLog(rel)
  }

  /** Taking a volume down: whether it was mounted, the umount, and the release. */
  datatype TakeDown = TakeDown(was: Option<bool>, runs: seq<Ran>, release: Option<Release>)

  /** umount runs exactly if the volume is mounted; the disk is released exactly if it is
      unmounted by then; and only a complete success is one. */
  predicate TakenDown(cfg: Config, n: string, t: TakeDown, fine: bool) {
    && (if t.was == Some(true) then |t.runs| == 1 && t.runs[0].args == ["umount", "/var/lib/docker-gcepd/mounts/" + n]
        else t.runs == [])
    && (t.release.Some? <==> t.was == Some(false) || (t.was == Some(true) && t.runs[0].code == 0))
    && (t.release.Some? ==> Releases(cfg, n, t.release.value))
    && (fine <==> t.release.Some? && Released(t.release.value))
  }

  /** AttachDisk: a look; a failover if another VM holds the disk and the scope is global;
      another look if that freed it; and the attach if the disk is free by now. */
  datatype Attaching = Attaching(look: Asked, failover: Option<Failover>, again: Option<Asked>, attach: Option<Asked>)

  function AttachLog(a: Attaching): seq<Asked> {
    [a.look] + (if a.failover.Some? then LogOf(a.failover.value) else []) + Maybe(a.again) + Maybe(a.attach)
  }

  /** The first user that the look shows is this VM. */
  predicate ShowsUs(cfg: Config, o: Outcome) {
    o.OFound? && o.disk.users != [] && Refs.SameInstance(o.disk.users[0], Refs.SelfLink(cfg.project, cfg.zone, cfg.instance))
  }

  /** It is another one, whose disk may be taken. */
  predicate MayTake(cfg: Config, o: Outcome) {
    o.OFound? && o.disk.users != [] && !ShowsUs(cfg, o) && cfg.global
  }

  /** The requests that come before the attach. */
  predicate Approached(cfg: Config, n: string, a: Attaching, grace: int)
    requires grace >= 0
  {
    && a.look.q == QGet(n)
    && (a.failover.Some? <==> MayTake(cfg, a.look.o))
    && (a.failover.Some? ==>
          FailoverKept(cfg, a.failover.value, n, Refs.InstanceNameFromRef(a.look.o.disk.users[0]), grace))
    && (a.again.Some? <==>
          a.failover.Some? && Freed(cfg, a.failover.value, n, Refs.InstanceNameFromRef(a.look.o.disk.users[0])))
    && (a.again.Some? ==> a.again.value.q == QGet(n))
  }

  /** By now the disk has no user. */
  predicate Vacant(a: Attaching) {
    Loose(a.look.o) || (a.again.Some? && a.again.value.o.OFound?)
  }

  predicate Attached(cfg: Config, n: string, a: Attaching, r: Ret, grace: int)
    requires grace >= 0
  {
    && Approached(cfg, n, a, grace)
    && (a.attach.Some? <==> Vacant(a))
    && (a.attach.Some? ==> a.attach.value.q == QAttach(n, cfg.instance))
    && (r.ROk? <==> ShowsUs(cfg, a.look.o) || (a.attach.Some? && a.attach.value.o.ODone?))
  }

  /** Up to the attach request: `ended` says how the call has ended without it. */
  predicate Readied(cfg: Config, n: string, a: Attaching, ended: Option<Ret>, grace: int)
    requires grace >= 0
  {
    Approached(cfg, n, a, grace) && a.attach.None? &&
    ended == if Vacant(a) then None else Some(if ShowsUs(cfg, a.look.o) then ROk else RErr)
  }

  lemma AttachLogSoFar(look: Asked, f: Failover, again: Option<Asked>)
    ensures [look] + (LogOf(f) + Maybe(again)) == AttachLog(Attaching(look, Some(f), again, None))
  {
  }

  lemma AttachLogDone(before: seq<Asked>, a: Attaching, attach: Asked)
    requires a.attach.None?
    ensures before + AttachLog(a) + [attach] == before + AttachLog(a.(attach := Some(attach)))
  {
  }

  /** DeleteDisk: a look; a second one and the mark if the disk is attached nowhere and not
      marked yet; a snapshot if asked for; and the deletion. */
  datatype Deleting = Deleting(look: Asked, read: Option<Asked>, mark: Option<Asked>, snap: Option<Asked>, delete: Option<Asked>)

  function DeleteLog(d: Deleting): seq<Asked> {
    [d.look] + (Maybe(d.read) + Maybe(d.mark)) + (Maybe(d.snap) + Maybe(d.delete))
  }

  predicate HasMark(labels: map<string, string>) {
    "gcepd-deleting" in labels && labels["gcepd-deleting"] == "true"
  }

  /** The disk is attached nowhere. */
  predicate Loose(o: Outcome) {
    o.OFound? && o.disk.users == []
  }

  /** The marking: the labels just read plus the mark, under the fingerprint just read. */
  predicate Marking(n: string, read: Asked, mark: Option<Asked>) {
    && read.q == QGet(n)
    && (mark.Some? <==> read.o.OFound?)
    && (mark.Some? ==>
          mark.value.q == QSetLabels(n, read.o.disk.fingerprint, read.o.disk.labels["gcepd-deleting" := "true"]))
  }

  /** The rest: a snapshot first if asked for; a disk that is gone is deleted. */
  predicate Finishing(n: string, snapshot: bool, snap: Option<Asked>, delete: Option<Asked>, r: Ret) {
    && (snap.Some? <==> snapshot)
    && (snap.Some? ==> snap.value.q == QSnapshot(n))
    && (delete.Some? <==> (snapshot ==> snap.value.o.ODone?))
    && (delete.Some? ==> delete.value.q == QDelete(n))
    && (r.ROk? <==> delete.Some? && (delete.value.o.ODone? || delete.value.o.OMissing?))
  }

  predicate Ready(d: Deleting) {
    Loose(d.look.o) && (HasMark(d.look.o.disk.labels) || (d.mark.Some? && d.mark.value.o.ODone?))
  }

  predicate Deleted(n: string, snapshot: bool, d: Deleting, r: Ret) {
    && d.look.q == QGet(n)
    && (d.read.Some? <==> Loose(d.look.o) && !HasMark(d.look.o.disk.labels))
    && (if d.read.Some? then Marking(n, d.read.value, d.mark) else d.mark.None?)
    && (if Ready(d) then Finishing(n, snapshot, d.snap, d.delete, r)
        else d.snap.None? && d.delete.None? && (r.ROk? <==> d.look.o.OMissing?))
  }

  /** The look ends it: the disk is gone, attached, or could not be read. */
  lemma EndsAtLook(n: string, snapshot: bool, look: Asked)
    requires look.q == QGet(n) && !Loose(look.o)
    ensures var d := Deleting(look, None, None, None, None);
            DeleteLog(d) == [look] && Deleted(n, snapshot, d, if look.o.OMissing? then ROk else RErr)
  {
  }

  /** The disk could not be marked. */
  lemma EndsUnmarked(n: string, snapshot: bool, look: Asked, read: Asked, mark: Option<Asked>)
    requires look.q == QGet(n) && Loose(look.o) && !HasMark(look.o.disk.labels) && Marking(n, read, mark)
    requires !(mark.Some? && mark.value.o.ODone?)
    ensures var d := Deleting(look, Some(read), mark, None, None);
            [look] + (Maybe(Some(read)) + Maybe(mark)) == DeleteLog(d) && Deleted(n, snapshot, d, RErr)
  {
  }

  lemma EndsFinished(n: string, snapshot: bool, d: Deleting, r: Ret)
    requires d.look.q == QGet(n) && Loose(d.look.o) && (d.read.Some? <==> !HasMark(d.look.o.disk.labels))
    requires if d.read.Some? then Marking(n, d.read.value, d.mark) else d.mark.None?
    requires Ready(d) && Finishing(n, snapshot, d.snap, d.delete, r)
    ensures Deleted(n, snapshot, d, r)
    ensures [d.look] + ((Maybe(d.read) + Maybe(d.mark)) + (Maybe(d.snap) + Maybe(d.delete))) == DeleteLog(d)
  {
  }

  // ---- how the look decides an attach ----

  lemma ReadiedAtOnce(cfg: Config, n: string, look: Asked, grace: int)
    requires look.q == QGet(n) && grace >= 0 && !MayTake(cfg, look.o)
    ensures var a := Attaching(look, None, None, None);
            AttachLog(a) == [look] &&
            Readied(cfg, n, a, if Loose(look.o) then None else Some(if ShowsUs(cfg, look.o) then ROk else RErr), grace)
  {
  }

  lemma ReadiedByFailover(cfg: Config, n: string, look: Asked, f: Failover, again: Option<Asked>, grace: int)
    requires look.q == QGet(n) && grace >= 0 && MayTake(cfg, look.o)
    requires var holder := Refs.InstanceNameFromRef(look.o.disk.users[0]);
             FailoverKept(cfg, f, n, holder, grace) && (again.Some? <==> Freed(cfg, f, n, holder))
    requires again.Some? ==> again.value.q == QGet(n)
    ensures Readied(cfg, n, Attaching(look, Some(f), again, None),
                    if again.Some? && again.value.o.OFound? then None else Some(RErr), grace)
  {
  }
}
