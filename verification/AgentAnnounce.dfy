// What the relay is told about a device, in terms of the whole run of the agent core
// (internal/agent/core.go).
module AgentAnnounce {
  import opened Prelude
  import opened Registry
  import opened AgentSystem
  import opened AgentTheorems
  import opened AgentRescan
  import opened AgentHardware

  lemma EntryOf(v: View, out: seq<Announced>, k: Key, d: Announced)
    requires WellFormed(v) && ListsExposed(v, out) && k in v.cfg
    ensures d in out && d.uuid == v.cfg[k].uuid <==> k in v.devices && v.cfg[k].exposed && d == AnnouncedOf(v, k)
  {
    hide Ordered;
    if d in out && d.uuid == v.cfg[k].uuid {
      var other :| other in v.devices && v.devices[other].rec.exposed && d == AnnouncedOf(v, other);
      assert v.cfg[other].uuid == v.cfg[k].uuid;
    }
  }

  /** What is announced for a device: its handle and settings as on record, whether the last scan that
      could tell found it, whether anything works on it, whether a monitor holds its port, the port it
      was last seen on, and how often it has come back. */
  ghost predicate TellsTheTruth(ss: seq<Sys>, ls: seq<Label>, n: nat, k: Key, d: Announced)
    requires Run(ss, ls) && n <= |ls| && n < |ss| && k in ss[n].v.cfg
  {
    var s, r := ss[n], ss[n].v.cfg[k];
    && d.wordId == r.wordId && d.uuid == r.uuid && d.hw == LastSeen(ss, ls, k, n)
    && (d.online <==> Latest(History(ss, ls, k, n)).Seen?)
    && (d.busy <==> exists sid :: WorksOn(s, sid, r.uuid))
    && (d.portHeld <==> exists m :: 0 <= m < |s.mons| && s.mons[m].status == Running(r.uuid))
    && (d.controlLines <==> r.allowControlLines) && (d.assertLines <==> r.assertLinesOnOpen)
    && (d.monitored <==> r.monitored) && d.resets == |Returns(History(ss, ls, k, n))|
  }

  /** An announce tells the truth about every device in it, and leaves out exactly the hidden ones and
      those the agent has not met. */
  lemma AnnouncesAreTrue(ss: seq<Sys>, ls: seq<Label>, n: nat, k: Key, out: seq<Announced>)
    requires Run(ss, ls) && n <= |ls| && n < |ss| && ListsExposed(ss[n].v, out) && k in ss[n].v.cfg
    ensures forall d | d in out && d.uuid == ss[n].v.cfg[k].uuid :: TellsTheTruth(ss, ls, n, k, d)
    ensures (exists d :: d in out && d.uuid == ss[n].v.cfg[k].uuid) <==>
              ss[n].v.cfg[k].exposed && Latest(History(ss, ls, k, n)) != Nothing
  {
    hide Run, Inv, History, Latest, Returns, LastSeen, WorksOn, ListsExposed, TellsTheTruth;
    RunKeepsInv(ss, ls, n);
    InvRegistry(ss[n]);
    ResetsCountReturns(ss, ls, k, n);
    forall d ensures d in out && d.uuid == ss[n].v.cfg[k].uuid <==>
                       k in ss[n].v.devices && ss[n].v.cfg[k].exposed && d == AnnouncedOf(ss[n].v, k) {
      EntryOf(ss[n].v, out, k, d);
    }
    if k in ss[n].v.devices {
      EntryTellsTheTruth(ss, ls, n, k);
      assert ss[n].v.cfg[k].exposed ==> AnnouncedOf(ss[n].v, k) in out;
    }
  }

  lemma EntryTellsTheTruth(ss: seq<Sys>, ls: seq<Label>, n: nat, k: Key)
    requires Run(ss, ls) && n <= |ls| && n < |ss| && k in ss[n].v.cfg && k in ss[n].v.devices
    ensures TellsTheTruth(ss, ls, n, k, AnnouncedOf(ss[n].v, k))
  {
    hide Run, Inv, History, Latest, Returns, LastSeen, WorksOn;
    RunKeepsInv(ss, ls, n);
    InvRegistry(ss[n]);
    ResetsCountReturns(ss, ls, k, n);
    HardwareIsLastSeen(ss, ls, n, k);
    var u := ss[n].v.cfg[k].uuid;
    forall sid ensures WorksOn(ss[n], sid, u) <==> StillOurs(ss[n].v, u, sid) {
      ClaimsAreOpensAndSessions(ss, ls, n, u, sid);
    }
    if u in ss[n].v.claims { assert WorksOn(ss[n], ss[n].v.claims[u], u); }
    forall m: nat | m < |ss[n].mons|
      ensures ss[n].mons[m].status == Running(u) <==> u in ss[n].v.monitors && ss[n].v.monitors[u] == m {
      MonitorsAreExclusive(ss, ls, n, u, m);
    }
    if u in ss[n].v.monitors { MonitorIsListed(ss[n], u); }
  }

  lemma MonitorIsListed(s: Sys, u: Uuid)
    requires Inv(s) && u in s.v.monitors
    ensures s.v.monitors[u] < |s.mons| && s.mons[s.v.monitors[u]].status == Running(u)
  {
    hide ClaimsConserved, PortsTracked, WellFormed;
  }
}
