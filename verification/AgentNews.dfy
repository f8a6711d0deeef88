// Reset news from end to end: what a session on the relay reports, in terms of what the agent's
// rescans saw (internal/agent/core.go, internal/relay/hub.go, internal/relayapi/broker.go).
//
// One connection epoch belongs to one run of the agent. The announces of that run may reach the hub
// in any order, so a lookup may answer with the count of any earlier state of the agent.
module AgentNews {
  import opened Registry
  import opened AgentSystem
  import opened AgentTheorems
  import opened AgentRescan
  import opened AgentSettings
  import Hub
  import RelaySystem

  /** In this state the agent announces n resets for the device with uuid u. */
  ghost predicate Announces(v: View, u: Uuid, n: nat) {
    exists k ::
      k in v.devices && v.devices[k].rec.exposed && AnnouncedOf(v, k).uuid == u && AnnouncedOf(v, k).resets == n
  }

  /** The steps from a up to b at which the device was found again after it had been away. */
  function ReturnsBetween(h: seq<Observation>, a: nat, b: nat): set<nat> {
    set i | i in Returns(h) && a <= i < b
  }

  lemma HistoryNext(ss: seq<Sys>, ls: seq<Label>, k: Key, n: nat) returns (o: Observation)
    requires Run(ss, ls) && 0 < n <= |ls|
    ensures History(ss, ls, k, n) == History(ss, ls, k, n - 1) + [o]
  {
    hide *;
    RunShape(ss, ls);
    RunStep(ss, ls, n - 1);
    InvWords(ss[n - 1]);
    HistoryStep(ss, ls, k, n);
    o := Observe(ss[n - 1], ls[n - 1], k);
  }

  lemma {:induction false} HistoryPrefix(ss: seq<Sys>, ls: seq<Label>, k: Key, a: nat, b: nat)
    requires Run(ss, ls) && a <= b <= |ls|
    ensures |History(ss, ls, k, b)| == b && History(ss, ls, k, b)[..a] == History(ss, ls, k, a)
    decreases b
  {
    hide *;
    NoHistory(ss, ls, k);
    if b > 0 {
      var o := HistoryNext(ss, ls, k, b);
      HistoryPrefix(ss, ls, k, if a < b then a else b - 1, b - 1);
    }
  }

  lemma NoHistory(ss: seq<Sys>, ls: seq<Label>, k: Key)
    requires Run(ss, ls)
    ensures History(ss, ls, k, 0) == []
  {
    hide Run;
  }

  lemma SubsetSize<T>(s: set<T>, t: set<T>)
    requires s <= t
    ensures |s| <= |t|
  {
    assert t == s + (t - s);
  }

  lemma ReturnsSplit(h: seq<Observation>, a: nat, c: nat, b: nat)
    requires a <= c <= b && c <= |h|
    ensures |Returns(h[..c])| == |Returns(h[..a])| + |ReturnsBetween(h, a, c)|
    ensures |ReturnsBetween(h, a, c)| <= |ReturnsBetween(h, a, b)|
  {
    hide Latest, IsAway;
    forall i: nat | i < c ensures h[..c][..i] == h[..i] {}
    forall i: nat | i < a ensures h[..a][..i] == h[..i] {}
    assert Returns(h[..c]) == Returns(h[..a]) + ReturnsBetween(h, a, c);
    SubsetSize(ReturnsBetween(h, a, c), ReturnsBetween(h, a, b));
  }

  lemma SameKey(ss: seq<Sys>, ls: seq<Label>, p: nat, b: nat, k: Key, other: Key, u: Uuid)
    requires Run(ss, ls) && p <= b <= |ls| < |ss|
    requires k in ss[b].v.cfg && ss[b].v.cfg[k].uuid == u
    requires other in ss[p].v.devices && ss[p].v.devices[other].rec.uuid == u
    ensures other == k
  {
    RunKeepsInv(ss, ls, p);
    RunKeepsInv(ss, ls, b);
    hide Run, ClaimsConserved, PortsTracked, MonitorsTracked;
    RecordsStay(ss, ls, p, b, other);
  }

  /** What the agent announces is the number of returns it has seen by then. */
  lemma AnnouncedIsReturns(ss: seq<Sys>, ls: seq<Label>, p: nat, b: nat, k: Key, u: Uuid, n: nat)
    requires Run(ss, ls) && p <= b <= |ls| < |ss| && k in ss[b].v.cfg && ss[b].v.cfg[k].uuid == u
    requires Announces(ss[p].v, u, n)
    ensures n == |Returns(History(ss, ls, k, p))|
  {
    hide Run, Returns, History, Latest, Announces;
    var other := AnnouncedKey(ss[p].v, u, n);
    SameKey(ss, ls, p, b, k, other, u);
    ResetsCountReturns(ss, ls, k, p);
  }

  lemma AnnouncedKey(v: View, u: Uuid, n: nat) returns (k: Key)
    requires Announces(v, u, n)
    ensures k in v.devices && v.devices[k].rec.uuid == u && v.devices[k].resets == n
  {
    k :| k in v.devices && v.devices[k].rec.exposed && AnnouncedOf(v, k).uuid == u && AnnouncedOf(v, k).resets == n;
  }

  /** Every lookup of this epoch answers with a count the agent announced no later than state b. */
  ghost predicate FromAnnounces(ss: seq<Sys>, b: nat, u: Uuid, epoch: nat, lookups: seq<RelaySystem.Lookup>) {
    forall n: nat | RelaySystem.CountsFrom(epoch, lookups, n) ::
      exists p | 0 <= p <= b && p < |ss| :: Announces(ss[p].v, u, n)
  }

  /** The core of the theorems below: seen counts the returns before state a. */
  lemma NewsSince(ss: seq<Sys>, ls: seq<Label>, k: Key, u: Uuid, epoch: nat, seen: nat,
                  lookups: seq<RelaySystem.Lookup>, a: nat, b: nat)
    requires Run(ss, ls) && a <= b <= |ls| < |ss| && k in ss[b].v.cfg && ss[b].v.cfg[k].uuid == u
    requires seen == |Returns(History(ss, ls, k, a))| && FromAnnounces(ss, b, u, epoch, lookups)
    ensures RelaySystem.Reports(epoch, seen, lookups) <= |ReturnsBetween(History(ss, ls, k, b), a, b)|
  {
    hide Run, Returns, History, ReturnsBetween;
    RelaySystem.ResetNewsIsExact(epoch, seen, lookups);
    var after := RelaySystem.SeenAfter(epoch, seen, lookups);
    if after > seen {
      var c :| 0 <= c <= b && c < |ss| && Announces(ss[c].v, u, after);
      AnnouncedIsReturns(ss, ls, c, b, k, u, after);
      CountsAreOrdered(ss, ls, k, a, c, b);
    }
  }

  /** Counts of later states are higher by the returns in between. */
  lemma CountsAreOrdered(ss: seq<Sys>, ls: seq<Label>, k: Key, a: nat, c: nat, b: nat)
    requires Run(ss, ls) && a <= b <= |ls| && c <= b
    ensures var h := History(ss, ls, k, b);
            if a <= c
            then |Returns(History(ss, ls, k, c))| == |Returns(History(ss, ls, k, a))| + |ReturnsBetween(h, a, c)|
                 && |ReturnsBetween(h, a, c)| <= |ReturnsBetween(h, a, b)|
            else |Returns(History(ss, ls, k, c))| <= |Returns(History(ss, ls, k, a))|
  {
    hide Run, Returns, History, ReturnsBetween;
    HistoryPrefix(ss, ls, k, a, b);
    HistoryPrefix(ss, ls, k, c, b);
    if a <= c {
      ReturnsSplit(History(ss, ls, k, b), a, c, b);
    } else {
      ReturnsSplit(History(ss, ls, k, b), c, a, b);
    }
  }

  /** End to end: a session whose lookup at open found the count announced in state a reports at most
      as many resets as its device returned to USB between then and the last announce looked up;
      and it reports one whenever it looks up a count from after such a return. */
  lemma ReportsAreReturns(ss: seq<Sys>, ls: seq<Label>, k: Key, u: Uuid, epoch: nat, atOpen: nat,
                          lookups: seq<RelaySystem.Lookup>, a: nat, b: nat)
    requires Run(ss, ls) && a <= b <= |ls| < |ss| && k in ss[b].v.cfg && ss[b].v.cfg[k].uuid == u
    requires Announces(ss[a].v, u, atOpen) && FromAnnounces(ss, b, u, epoch, lookups)
    ensures var seen := RelaySystem.Baseline(epoch, RelaySystem.Known(atOpen, epoch));
            && RelaySystem.Reports(epoch, seen, lookups) <= |ReturnsBetween(History(ss, ls, k, b), a, b)|
            && forall c, n: nat |
                 a <= c <= b && RelaySystem.CountsFrom(epoch, lookups, n) && Announces(ss[c].v, u, n) ::
                 |ReturnsBetween(History(ss, ls, k, b), a, c)| > 0 ==> RelaySystem.Reports(epoch, seen, lookups) > 0
  {
    hide Run, Returns, History, ReturnsBetween;
    var seen := atOpen;
    AnnouncedIsReturns(ss, ls, a, b, k, u, seen);
    NewsSince(ss, ls, k, u, epoch, seen, lookups, a, b);
    RelaySystem.ResetNewsIsExact(epoch, seen, lookups);
    forall c, n: nat | a <= c <= b && RelaySystem.CountsFrom(epoch, lookups, n) && Announces(ss[c].v, u, n)
      ensures |ReturnsBetween(History(ss, ls, k, b), a, c)| > 0 ==> RelaySystem.Reports(epoch, seen, lookups) > 0
    {
      AnnouncedIsReturns(ss, ls, c, b, k, u, n);
      CountsAreOrdered(ss, ls, k, a, c, b);
    }
  }

  /** When the lookup at open fails, the bound counts from the start of the agent's run. */
  lemma ReportsWithoutBaseline(ss: seq<Sys>, ls: seq<Label>, k: Key, u: Uuid, epoch: nat,
                               lookups: seq<RelaySystem.Lookup>, b: nat)
    requires Run(ss, ls) && b <= |ls| < |ss| && k in ss[b].v.cfg && ss[b].v.cfg[k].uuid == u
    requires FromAnnounces(ss, b, u, epoch, lookups)
    ensures RelaySystem.Reports(epoch, RelaySystem.Baseline(epoch, RelaySystem.Unknown), lookups)
            <= |ReturnsBetween(History(ss, ls, k, b), 0, b)|
  {
    hide Run, History, ReturnsBetween;
    NoReturns(ss, ls, k);
    NewsSince(ss, ls, k, u, epoch, 0, lookups, 0, b);
  }

  predicate InEpoch(epoch: nat, l: RelaySystem.Lookup) { l.Known? && l.epoch == epoch }

  /** A session opens in state o, and its first lookup answers with the count announced in a state c
      no later than that. What it then reports are returns from before it opened; it reports one
      exactly when there was one between the announce its lookup at open found (of state a) and c, or
      before c at all when that lookup failed. */
  lemma OldResetsAreNewsIff(ss: seq<Sys>, ls: seq<Label>, k: Key, u: Uuid, epoch: nat,
                            atOpen: RelaySystem.Lookup, a: nat, n: nat, c: nat, o: nat)
    requires Run(ss, ls) && a <= o && c <= o <= |ls| < |ss| && k in ss[o].v.cfg && ss[o].v.cfg[k].uuid == u
    requires InEpoch(epoch, atOpen) ==> Announces(ss[a].v, u, atOpen.count)
    requires Announces(ss[c].v, u, n)
    ensures RelaySystem.TakeNews(epoch, RelaySystem.Baseline(epoch, atOpen), RelaySystem.Known(n, epoch)).0 <==>
              ReturnsBetween(History(ss, ls, k, o), if InEpoch(epoch, atOpen) then a else 0, c) != {}
  {
    hide Run, Returns, History, ReturnsBetween;
    var since := if InEpoch(epoch, atOpen) then a else 0;
    AnnouncedIsReturns(ss, ls, c, o, k, u, n);
    if InEpoch(epoch, atOpen) {
      AnnouncedIsReturns(ss, ls, a, o, k, u, atOpen.count);
    } else {
      NoReturns(ss, ls, k);
    }
    CountsAreOrdered(ss, ls, k, since, c, o);
    NoneWithin(History(ss, ls, k, o), since, c);
  }

  lemma NoReturns(ss: seq<Sys>, ls: seq<Label>, k: Key)
    requires Run(ss, ls)
    ensures |Returns(History(ss, ls, k, 0))| == 0
  {
    hide Run;
    NoHistory(ss, ls, k);
    assert Returns([]) == {};
  }

  lemma NoneWithin(h: seq<Observation>, a: nat, b: nat)
    ensures b < a ==> ReturnsBetween(h, a, b) == {}
  {
    hide Returns;
  }

  // ---- Through the hub ----

  function OnWire(d: Announced): Hub.Announced { Hub.Announced(d.wordId, Hub.Device(d.uuid, d.resets)) }

  function Wire(list: seq<Announced>): seq<Hub.Announced> {
    seq(|list|, i requires 0 <= i < |list| => OnWire(list[i]))
  }

  /** The map the hub makes of an announce the agent sends in state v. */
  ghost predicate Carries(devices: map<string, Hub.Device>, v: View) {
    exists list :: ListsExposed(v, list) && Hub.MapOf(devices, Wire(list))
  }

  lemma EntriesAreLast(list: seq<Announced>, i: nat)
    requires Ordered(list) && i < |list|
    ensures Hub.LastEntry(Wire(list), |list|, i)
  {
    forall j | i < j < |list| ensures Wire(list)[j].handle != Wire(list)[i].handle {
      BeforeIsTotal(list[i].wordId, list[j].wordId);
    }
  }

  /** The hub holds exactly the counts the agent announced: neither sorting nor keying by handle
      loses or mixes up a device. */
  lemma HubHoldsTheAnnounce(devices: map<string, Hub.Device>, v: View, u: Uuid, n: nat)
    requires Carries(devices, v)
    ensures (exists h :: h in devices && devices[h] == Hub.Device(u, n)) <==> Announces(v, u, n)
  {
    hide Ordered, AnnouncedOf, Hub.LastEntry;
    var list :| ListsExposed(v, list) && Hub.MapOf(devices, Wire(list));
    if h :| h in devices && devices[h] == Hub.Device(u, n) {
      var i :| Hub.LastEntry(Wire(list), |list|, i) && Wire(list)[i].handle == h;
      assert list[i] in list && Wire(list)[i] == OnWire(list[i]);
    }
    if k :| k in v.devices && v.devices[k].rec.exposed && AnnouncedOf(v, k).uuid == u && AnnouncedOf(v, k).resets == n {
      assert AnnouncedOf(v, k) in list;
      var i :| 0 <= i < |list| && list[i] == AnnouncedOf(v, k);
      EntriesAreLast(list, i);
      assert Wire(list)[i] == OnWire(list[i]);
    }
  }

  /** When the live connection of the agent has this epoch, the hub holds an announce of some state
      up to b, or none yet. */
  ghost predicate Follows(ss: seq<Sys>, b: nat, agents: map<Hub.AgentId, Hub.Conn>, agent: Hub.AgentId, epoch: nat) {
    agent in agents && agents[agent].epoch == epoch ==>
      agents[agent].devices == map[] || exists p: nat | p <= b && p < |ss| :: Carries(agents[agent].devices, ss[p].v)
  }

  lemma AnswerIsAnnounced(ss: seq<Sys>, b: nat, agents: map<Hub.AgentId, Hub.Conn>, agent: Hub.AgentId,
                          u: Uuid, epoch: nat, l: RelaySystem.Lookup)
    returns (p: nat)
    requires Follows(ss, b, agents, agent, epoch) && Hub.Answers(agents, agent, u, l) && InEpoch(epoch, l)
    ensures p <= b && p < |ss| && Announces(ss[p].v, u, l.count)
  {
    hide Carries, Announces;
    p :| p <= b && p < |ss| && Carries(agents[agent].devices, ss[p].v);
    HubHoldsTheAnnounce(agents[agent].devices, ss[p].v, u, l.count);
  }

  /** Looked up through the hub, whatever announces it has received by each lookup and in whatever
      order: the session reports at most the returns since some announce of the count it started
      from, or since the start of the agent when it could not look one up. */
  lemma ReportsThroughTheHub(ss: seq<Sys>, ls: seq<Label>, k: Key, u: Uuid, agent: Hub.AgentId, epoch: nat,
                             atOpen: RelaySystem.Lookup, opening: map<Hub.AgentId, Hub.Conn>,
                             lookups: seq<RelaySystem.Lookup>, hubs: seq<map<Hub.AgentId, Hub.Conn>>, b: nat)
    returns (a: nat)
    requires Run(ss, ls) && b <= |ls| < |ss| && k in ss[b].v.cfg && ss[b].v.cfg[k].uuid == u
    requires Follows(ss, b, opening, agent, epoch) && Hub.Answers(opening, agent, u, atOpen)
    requires |hubs| == |lookups|
    requires forall i | 0 <= i < |hubs| ::
               Follows(ss, b, hubs[i], agent, epoch) && Hub.Answers(hubs[i], agent, u, lookups[i])
    ensures a <= b && FromAnnounces(ss, b, u, epoch, lookups)
    ensures if InEpoch(epoch, atOpen) then Announces(ss[a].v, u, atOpen.count) else a == 0
    ensures RelaySystem.Reports(epoch, RelaySystem.Baseline(epoch, atOpen), lookups)
            <= |ReturnsBetween(History(ss, ls, k, b), a, b)|
  {
    hide Run, Returns, History, ReturnsBetween, Announces, Follows, Hub.Answers;
    forall n: nat | RelaySystem.CountsFrom(epoch, lookups, n)
      ensures exists p | 0 <= p <= b && p < |ss| :: Announces(ss[p].v, u, n)
    {
      var i :| 0 <= i < |lookups| && lookups[i] == RelaySystem.Known(n, epoch);
      var p := AnswerIsAnnounced(ss, b, hubs[i], agent, u, epoch, lookups[i]);
    }
    if InEpoch(epoch, atOpen) {
      a := AnswerIsAnnounced(ss, b, opening, agent, u, epoch, atOpen);
      AnnouncedIsReturns(ss, ls, a, b, k, u, atOpen.count);
    } else {
      a := 0;
      NoReturns(ss, ls, k);
    }
    NewsSince(ss, ls, k, u, epoch, RelaySystem.Baseline(epoch, atOpen), lookups, a, b);
  }
}
