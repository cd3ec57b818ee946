/** Nobody loses a disk by default: what is removed without having been created for
    deletion is kept. */
module Retention {
  import opened Options
  import opened Records
  import opened Protocol
  import opened Cluster
  import Causality
  import OptionTexts

  /** The options come from a list that does not mention the reclaim policy. */
  ghost predicate PolicyNotNamed(o: DiskOptions) {
    exists raw, order ::
      VisitingOrder(raw, order) && ParseInOrder(raw, order) == Success(o) && OptionTexts.NotGiven(raw, "reclaimpolicy")
  }

  lemma NotNamedIsRetained(o: DiskOptions)
    requires PolicyNotNamed(o)
    ensures o.reclaimPolicy == "retain"
  {
    var raw, order :|
      VisitingOrder(raw, order) && ParseInOrder(raw, order) == Success(o) && OptionTexts.NotGiven(raw, "reclaimpolicy");
    OptionTexts.DefaultsWhenNotGiven(raw, order);
  }

  /** The Remove of a volume whose Create named no policy drops the record and starts no
      delete, whether the record can be persisted or not. */
  lemma RemoveKeepsTheDisk(t: Thread, n: string, ok: bool)
    requires n in t.vols && PolicyNotNamed(t.vols[n].options)
    ensures var ctl := Begin(t.vols, Remove(n));
            ctl == Idle(Refuse) ||
            (ctl == Storing(OpRemove(n), SRemoveRetain) &&
             AfterStore(t.(vols := Apply(t.vols, OpRemove(n))), SRemoveRetain, ok) ==
             t.(vols := t.vols - {n}, ctl := Idle(if ok then Fine else Refuse)))
  {
    NotNamedIsRetained(t.vols[n].options);
  }

  /** Over every run: if no Create of a name ever named a reclaim policy, no removal of it
      is ever one that deletes, on any VM; a deletion of its disk, if there is one, goes
      back to a rollback or a mark. */
  lemma DefaultNeverDeletes(r: Run, k: nat, n: string)
    requires IsRun(r) && k < |r.states|
    requires forall o | Requested(n, o) in r.states[k].log :: PolicyNotNamed(o)
    ensures forall p :: Removed(n, p) !in r.states[k].log
    ensures forall id: nat | Deleted(n, id) in r.states[k].log ::
              RolledBack(n) in r.states[k].log || FoundMarked(n) in r.states[k].log || Causality.AskedMarked(r.states[k].log, n)
  {
    var log := r.states[k].log;
    Causality.TraceableAlways(r, k);
    forall p ensures Removed(n, p) !in log {
      if Removed(n, p) in log {
        var i :| 0 <= i < |log| && log[i] == Removed(n, p);
        var o :| Requested(n, o) in log[..i] && o.reclaimPolicy == DELETE;
        NotNamedIsRetained(o);
        assert false;
      }
    }
    forall id: nat | Deleted(n, id) in log
      ensures RolledBack(n) in log || FoundMarked(n) in log || Causality.AskedMarked(log, n)
    {
      var i :| 0 <= i < |log| && log[i] == Deleted(n, id);
      assert log == log[..i] + log[i..];
      Causality.CausesStay(log[..i], log[i..], n);
    }
  }
}
