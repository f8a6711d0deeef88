// Where a device is, on every run of the agent core: the port a scan last saw it on is the one that
// is opened, monitored and announced (internal/agent/core.go).
module AgentHardware {
  import opened Prelude
  import opened Registry
  import opened AgentSystem
  import opened AgentTheorems
  import opened AgentRescan
  import Names

  /** The last of the n leading ports with key k. */
  function LastWithKey(ports: seq<PortInfo>, k: Key, n: nat): Option<PortInfo>
    requires n <= |ports|
  {
    if n == 0 then None
    else if ports[n - 1].key == k then Some(ports[n - 1])
    else LastWithKey(ports, k, n - 1)
  }

  /** What a step sees of the hardware of k: a scan sees the ports it reaches. */
  ghost function SeenBy(s: Sys, l: Label, k: Key): Option<Hardware>
    requires s.words.WellFormed() && Enabled(s, l)
  {
    match l
    case ScanStep(ports, minted, _) =>
      (match LastWithKey(ports, k, PortsReached(s.v, s.words, ports, minted, |ports|))
       case Some(p) => Some(p.hw)
       case None => None)
    case _ => None
  }

  /** The hardware of k when the first n steps last saw it, or none. */
  ghost function LastSeen(ss: seq<Sys>, ls: seq<Label>, k: Key, n: nat): Hardware
    requires Run(ss, ls) && n <= |ls|
  {
    if n == 0 then NO_HARDWARE
    else
      assert Linked(ss[n - 1], ls[n - 1], ss[n]);
      match SeenBy(ss[n - 1], ls[n - 1], k)
      case Some(hw) => hw
      case None => LastSeen(ss, ls, k, n - 1)
  }

  /** The hardware on record for k, none when there is no entry. */
  function HardwareOf(v: View, k: Key): Hardware { if k in v.devices then v.devices[k].hw else NO_HARDWARE }

  /** The entry of k after a step that saw that much of it. */
  ghost predicate Follows(v: View, t: View, k: Key, seen: Option<Hardware>) {
    && (k in v.devices ==> k in t.devices)
    && HardwareOf(t, k) == match seen case Some(hw) => hw case None => HardwareOf(v, k)
  }

  lemma {:induction false} ReconcileFollows(
      v: View, w: Names.Words, ports: seq<PortInfo>, minted: seq<Identity>, n: nat, k: Key)
    requires w.WellFormed() && |minted| == |ports| && n <= |ports|
    ensures var reached := PortsReached(v, w, ports, minted, n);
            && (Reconcile(v, w, ports, minted, n).1 <==> reached == n)
            && Follows(v, Reconcile(v, w, ports, minted, n).0, k,
                       match LastWithKey(ports, k, reached) case Some(p) => Some(p.hw) case None => None)
  {
    hide Names.Generated;
    if n > 0 { ReconcileFollows(v, w, ports, minted, n - 1, k); }
  }

  lemma ScanFollows(s: Sys, l: Label, k: Key)
    requires s.words.WellFormed() && Enabled(s, l) && l.ScanStep?
    ensures Follows(s.v, Step(s, l).v, k, SeenBy(s, l, k))
  {
    ReconcileFollows(s.v, s.words, l.ports, l.minted, |l.ports|, k);
    hide Reconcile, PortsReached, LastWithKey;
  }

  lemma PlaceholdersFollow(v: View, u: Uuid, k: Key)
    ensures Follows(v, WithDevice(v, u), k, None)
  {
  }

  lemma UpdateFollows(v: View, u: Uuid, e: Edit, k: Key)
    ensures Follows(v, UpdateRec(v, u, e), k, None)
  {
  }

  lemma RenameFollows(v: View, w: Names.Words, u: Uuid, draws: Names.Draws, k: Key)
    requires w.WellFormed()
    ensures Follows(v, Rename(v, w, u, draws), k, None)
  {
    hide Names.Generated;
  }

  lemma StepFollows(s: Sys, l: Label, k: Key)
    requires s.words.WellFormed() && Enabled(s, l)
    ensures Follows(s.v, Step(s, l).v, k, SeenBy(s, l, k))
  {
    hide Scan, UpdateRec, Rename, WithDevice;
    if l.ScanStep? {
      hide Follows, SeenBy;
      ScanFollows(s, l, k);
    } else if l.UpdateStep? {
      UpdateFollows(s.v, l.uuid, l.edit, k);
    } else if l.RenameStep? {
      RenameFollows(s.v, s.words, l.uuid, l.draws, k);
    } else if l.StartStep? || l.StopStep? {
      PlaceholdersFollow(s.v, l.uuid, k);
    } else {
      OtherStepsKeepRegistry(s, l);
      hide Step;
    }
  }

  lemma LastSeenNext(ss: seq<Sys>, ls: seq<Label>, k: Key, n: nat)
    requires Run(ss, ls) && 0 < n <= |ls| && ss[n - 1].words.WellFormed() && Enabled(ss[n - 1], ls[n - 1])
    ensures LastSeen(ss, ls, k, n) ==
            match SeenBy(ss[n - 1], ls[n - 1], k) case Some(hw) => hw case None => LastSeen(ss, ls, k, n - 1)
  {
    hide Run, Enabled, SeenBy;
  }

  lemma InitiallyUnseen(ss: seq<Sys>, ls: seq<Label>, k: Key)
    requires Run(ss, ls)
    ensures |ss| == |ls| + 1 && HardwareOf(ss[0].v, k) == NO_HARDWARE == LastSeen(ss, ls, k, 0)
  {
    hide Linked;
  }

  lemma FollowsAcross(ss: seq<Sys>, ls: seq<Label>, i: nat, k: Key)
    requires Run(ss, ls) && i < |ls| && |ss| == |ls| + 1
    ensures ss[i].words.WellFormed() && Enabled(ss[i], ls[i])
    ensures Follows(ss[i].v, ss[i + 1].v, k, SeenBy(ss[i], ls[i], k))
  {
    hide Run, Effect, Step, Enabled, ClaimsConserved, PortsTracked, MonitorsTracked, WellFormed, Follows, SeenBy;
    RunStep(ss, ls, i);
    StepFollows(ss[i], ls[i], k);
  }

  /** The hardware on record for a device is that of the last port with its key that a scan has reached,
      and none when no scan has seen it yet. */
  lemma {:induction false} HardwareIsLastSeen(ss: seq<Sys>, ls: seq<Label>, n: nat, k: Key)
    requires Run(ss, ls) && n <= |ls|
    ensures |ss| == |ls| + 1 && HardwareOf(ss[n].v, k) == LastSeen(ss, ls, k, n)
  {
    hide Run, LastSeen, HardwareOf, SeenBy, Enabled;
    InitiallyUnseen(ss, ls, k);
    if n > 0 {
      HardwareIsLastSeen(ss, ls, n - 1, k);
      FollowsAcross(ss, ls, n - 1, k);
      LastSeenNext(ss, ls, k, n);
    }
  }

  /** An open goes to the port its device was last seen on. */
  lemma OpensWhereLastSeen(ss: seq<Sys>, ls: seq<Label>, i: nat, k: Key)
    requires Run(ss, ls) && i < |ls| && |ss| == |ls| + 1 && ls[i].ClaimStep? && Offered(ss[i].v, k, ls[i].wordId)
    requires ClaimOutcomeOf(ss[i].v, ls[i].wordId, ls[i].lines).Claimed?
    ensures ClaimOutcomeOf(ss[i].v, ls[i].wordId, ls[i].lines).path == LastSeen(ss, ls, k, i).path
  {
    hide Run, LastSeen, ClaimOutcomeOf, Inv;
    RunKeepsInv(ss, ls, i);
    InvRegistry(ss[i]);
    ClaimSucceedsIff(ss[i].v, ls[i].wordId, ls[i].lines);
    HardwareIsLastSeen(ss, ls, i, k);
  }

  lemma InvRegistry(s: Sys)
    requires Inv(s)
    ensures WellFormed(s.v)
  {
  }

  /** A monitor is started on the port its device was last seen on. */
  lemma MonitorsWhereLastSeen(ss: seq<Sys>, ls: seq<Label>, i: nat, k: Key, u: Uuid)
    requires Run(ss, ls) && i < |ls| && |ss| == |ls| + 1 && ls[i].StartStep? && ls[i].uuid == u
    requires k in ss[i].v.cfg && ss[i].v.cfg[k].uuid == u && StartPath(ss[i].v, u).Some?
    ensures StartPath(ss[i].v, u).value == LastSeen(ss, ls, k, i).path
  {
    hide Run, LastSeen, Inv;
    RunKeepsInv(ss, ls, i);
    InvRegistry(ss[i]);
    HardwareIsLastSeen(ss, ls, i, k);
    assert KeyOf(ss[i].v.cfg, u) == Some(k);
  }

  // ---- Which devices have an entry ----

  predicate Named(v: View, k: Key, u: Uuid) { k in v.cfg && v.cfg[k].uuid == u }

  /** The step comes across the device with key k: a scan reaches a port of it, or a call names it. */
  ghost predicate Meets(s: Sys, l: Label, k: Key)
    requires s.words.WellFormed() && Enabled(s, l)
  {
    match l
    case ScanStep(_, _, _) => SeenBy(s, l, k).Some?
    case UpdateStep(u, _, _) => Named(s.v, k, u)
    case RenameStep(u, _) => Named(s.v, k, u)
    case StopStep(u) => Named(s.v, k, u)
    case StartStep(_, u) => Named(s.v, k, u) && u !in s.v.monitors
    case _ => false
  }

  lemma {:induction false} ReconcileMeets(
      v: View, w: Names.Words, ports: seq<PortInfo>, minted: seq<Identity>, n: nat, k: Key)
    requires w.WellFormed() && |minted| == |ports| && n <= |ports|
    ensures var (t, ok) := Reconcile(v, w, ports, minted, n);
            && (ok <==> PortsReached(v, w, ports, minted, n) == n)
            && (k in t.devices <==>
                  k in v.devices || LastWithKey(ports, k, PortsReached(v, w, ports, minted, n)).Some?)
  {
    hide Names.Generated;
    if n > 0 { ReconcileMeets(v, w, ports, minted, n - 1, k); }
  }

  lemma ScanMeets(s: Sys, l: Label, k: Key)
    requires s.words.WellFormed() && Enabled(s, l) && l.ScanStep?
    ensures k in Step(s, l).v.devices <==> k in s.v.devices || SeenBy(s, l, k).Some?
  {
    ReconcileMeets(s.v, s.words, l.ports, l.minted, |l.ports|, k);
    hide Reconcile, PortsReached, LastWithKey;
  }

  lemma PlaceholderMeets(v: View, u: Uuid, k: Key)
    requires WellFormed(v)
    ensures k in WithDevice(v, u).devices <==> k in v.devices || Named(v, k, u)
  {
  }

  lemma EditMeets(v: View, w: Names.Words, u: Uuid, e: Edit, draws: Names.Draws, k: Key)
    requires WellFormed(v) && w.WellFormed()
    ensures k in UpdateRec(v, u, e).devices <==> k in v.devices || Named(v, k, u)
    ensures k in Rename(v, w, u, draws).devices <==> k in v.devices || Named(v, k, u)
  {
    PlaceholderMeets(v, u, k);
    WithDeviceKeeps(v, u);
    hide WithDevice, Names.Generated, ApplyEdit;
  }

  lemma StepMeets(s: Sys, l: Label, k: Key)
    requires s.words.WellFormed() && WellFormed(s.v) && Enabled(s, l)
    ensures k in Step(s, l).v.devices <==> k in s.v.devices || Meets(s, l, k)
  {
    hide Scan, UpdateRec, Rename, WithDevice, WellFormed, Named;
    if l.ScanStep? {
      hide SeenBy;
      ScanMeets(s, l, k);
    } else if l.UpdateStep? {
      EditMeets(s.v, s.words, l.uuid, l.edit, _ => None, k);
    } else if l.RenameStep? {
      EditMeets(s.v, s.words, l.uuid, SetExposed(true), l.draws, k);
    } else if l.StartStep? || l.StopStep? {
      PlaceholderMeets(s.v, l.uuid, k);
    } else {
      OtherStepsKeepRegistry(s, l);
      hide Step;
    }
  }

  ghost predicate MetAt(ss: seq<Sys>, ls: seq<Label>, x: nat, k: Key) {
    && x < |ls| && x < |ss| && ss[x].words.WellFormed() && Enabled(ss[x], ls[x])
    && Meets(ss[x], ls[x], k)
  }

  ghost predicate Met(ss: seq<Sys>, ls: seq<Label>, n: nat, k: Key) { exists x: nat :: x < n && MetAt(ss, ls, x, k) }

  lemma MetNext(ss: seq<Sys>, ls: seq<Label>, n: nat, k: Key)
    ensures Met(ss, ls, n + 1, k) <==> Met(ss, ls, n, k) || MetAt(ss, ls, n, k)
  {
    hide MetAt;
  }

  /** The agent has an entry for a device exactly when some step has come across it: nothing forgets a
      device, and none appears from nowhere. */
  lemma {:induction false} EntryIffMet(ss: seq<Sys>, ls: seq<Label>, n: nat, k: Key)
    requires Run(ss, ls) && n <= |ls|
    ensures |ss| == |ls| + 1 && (k in ss[n].v.devices <==> Met(ss, ls, n, k))
  {
    hide Run, Inv, Effect, Step, Enabled, Meets, Met;
    NothingMet(ss, ls, k);
    if n > 0 {
      EntryIffMet(ss, ls, n - 1, k);
      RunStep(ss, ls, n - 1);
      InvWords(ss[n - 1]);
      InvRegistry(ss[n - 1]);
      StepMeets(ss[n - 1], ls[n - 1], k);
      MetNext(ss, ls, n - 1, k);
    }
  }

  lemma NothingMet(ss: seq<Sys>, ls: seq<Label>, k: Key)
    requires Run(ss, ls)
    ensures |ss| == |ls| + 1 && k !in ss[0].v.devices && !Met(ss, ls, 0, k)
  {
    hide Linked;
  }
}
