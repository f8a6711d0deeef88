// The relay's registry of connected agents (internal/relay/hub.go):
// newest-connection-wins registration, correlated requests and name resolution.
module Hub {
  import opened Prelude
  import RelaySystem

  type AgentId = string
  type ConnId = nat

  datatype Device = Device(uuid: nat, resets: nat)

  /** One accepted connection; devices is its last announced set, by handle. */
  datatype Conn = Conn(id: AgentId, epoch: nat, devices: map<string, Device>)

  // ---- Registration ----

  datatype Event = Register(agent: AgentId, conn: ConnId) | Cleanup(agent: AgentId, conn: ConnId)

  function Apply(agents: map<AgentId, ConnId>, e: Event): map<AgentId, ConnId> {
    match e
    case Register(a, c) => agents[a := c]
    case Cleanup(a, c) => if a in agents && agents[a] == c then agents - {a} else agents
  }

  function ApplyAll(events: seq<Event>): map<AgentId, ConnId> {
    if events == [] then map[] else Apply(ApplyAll(events[..|events| - 1]), events[|events| - 1])
  }

  /** A connection registers once, under one agent, and cleans up at most once, afterwards. */
  ghost predicate Proper(events: seq<Event>) {
    && (forall i, j | 0 <= i < j < |events| && events[i].Register? && events[j].Register? ::
          events[i].conn != events[j].conn)
    && (forall j | 0 <= j < |events| && events[j].Cleanup? ::
          Register(events[j].agent, events[j].conn) in events[..j])
  }

  function LastRegistered(events: seq<Event>, a: AgentId): Option<ConnId> {
    if events == [] then None
    else
      var e := events[|events| - 1];
      if e.Register? && e.agent == a then Some(e.conn) else LastRegistered(events[..|events| - 1], a)
  }

  lemma ProperPrefix(events: seq<Event>)
    requires events != [] && Proper(events)
    ensures Proper(events[..|events| - 1])
  {
    var init := events[..|events| - 1];
    forall j | 0 <= j < |init| && init[j].Cleanup? ensures Register(init[j].agent, init[j].conn) in init[..j] {
      assert events[..j] == init[..j] && events[j] == init[j];
    }
  }

  lemma NoEarlyCleanup(events: seq<Event>)
    requires events != [] && Proper(events)
    ensures var e := events[|events| - 1]; e.Register? ==> Cleanup(e.agent, e.conn) !in events[..|events| - 1]
  {
    var e := events[|events| - 1];
    if e.Register? && Cleanup(e.agent, e.conn) in events[..|events| - 1] {
      assert false;
    }
  }

  /** The entry of an agent is its last-registered connection exactly while that connection has
      not cleaned up; in particular the cleanup of an older connection never removes it. */
  lemma {:induction false} EntryIsNewestLiveConnection(events: seq<Event>, a: AgentId, c: ConnId)
    requires Proper(events)
    ensures (a in ApplyAll(events) && ApplyAll(events)[a] == c) <==>
            LastRegistered(events, a) == Some(c) && Cleanup(a, c) !in events
    ensures a in ApplyAll(events) ==> LastRegistered(events, a).Some?
  {
    hide Proper;
    if events != [] {
      var init, e := events[..|events| - 1], events[|events| - 1];
      assert events == init + [e];
      ProperPrefix(events);
      NoEarlyCleanup(events);
      EntryIsNewestLiveConnection(init, a, c);
    }
  }

  /** Once a connection has been displaced by a newer one, its cleanup changes nothing. */
  lemma OlderCleanupIsHarmless(events: seq<Event>, a: AgentId, older: ConnId)
    requires Proper(events) && LastRegistered(events, a) != Some(older)
    ensures ApplyAll(events + [Cleanup(a, older)]) == ApplyAll(events)
  {
    EntryIsNewestLiveConnection(events, a, older);
    assert (events + [Cleanup(a, older)])[..|events|] == events;
  }

  // ---- Name resolution ----

  datatype Resolution = Found(agent: AgentId, wordId: string) | Ambiguous | NotFound

  function SlashAt(s: string, i: nat): (r: nat)
    requires i <= |s|
    ensures i <= r <= |s| && (r < |s| ==> s[r] == '/') && forall j | i <= j < r :: s[j] != '/'
    decreases |s| - i
  {
    if i == |s| || s[i] == '/' then i else SlashAt(s, i + 1)
  }

  /** "agent/word" qualifies a name; the first slash separates. No slash, or nothing before it,
      leaves the agent open. */
  function Qualifier(deviceId: string): string {
    var i := SlashAt(deviceId, 0);
    if i < |deviceId| then deviceId[..i] else ""
  }

  function WordOf(deviceId: string): string {
    var i := SlashAt(deviceId, 0);
    if i < |deviceId| then deviceId[i + 1..] else deviceId
  }

  predicate Holds(c: Conn, want: string, word: string, filter: seq<string>) {
    && (want == "" || c.id == want)
    && (filter == [] || c.id in filter)
    && word in c.devices
  }

  function Holders(agents: map<AgentId, Conn>, want: string, word: string, filter: seq<string>): set<AgentId> {
    set a | a in agents && Holds(agents[a], want, word, filter)
  }

  /** A connection is entered under its own agent id. */
  predicate Keyed(agents: map<AgentId, Conn>) { forall a | a in agents :: agents[a].id == a }

  /** The unique allowed agent holding the name; ambiguous exactly when there are two or more. The
      result does not depend on the order in which the agents are visited. */
  method Resolve(agents: map<AgentId, Conn>, deviceId: string, filter: seq<string>) returns (r: Resolution)
    requires Keyed(agents)
    ensures var h := Holders(agents, Qualifier(deviceId), WordOf(deviceId), filter);
            && (forall a :: r == Found(a, WordOf(deviceId)) <==> h == {a})
            && (r.Found? ==> h == {r.agent} && r.wordId == WordOf(deviceId))
            && (r == Ambiguous <==> |h| >= 2)
            && (r == NotFound <==> h == {})
  {
    var want, word := Qualifier(deviceId), WordOf(deviceId);
    ghost var h := Holders(agents, want, word, filter);
    var found: Option<AgentId> := None;
    var todo := agents.Keys;
    while todo != {}
      invariant todo <= agents.Keys
      invariant found.None? ==> h <= todo
      invariant found.Some? ==> found.value in h && found.value !in todo && h <= todo + {found.value}
      decreases todo
    {
      var a :| a in todo;
      todo := todo - {a};
      var c := agents[a];
      if want != "" && c.id != want { continue; }
      if |filter| > 0 && c.id !in filter { continue; }
      if word !in c.devices { continue; }
      if found.Some? {
        TwoMembers(h, found.value, a);
        return Ambiguous;
      }
      found := Some(a);
    }
    if found.None? { return NotFound; }
    assert h == {found.value};
    return Found(found.value, word);
  }

  lemma TwoMembers<T>(s: set<T>, a: T, b: T)
    requires a in s && b in s && a != b
    ensures |s| >= 2
  {
    assert {a, b} <= s;
    assert s == {a, b} + (s - {a, b});
  }

  /** Qualifying a name that is held resolves it, provided the agent id itself has no slash. */
  lemma QualifiedNameResolves(agents: map<AgentId, Conn>, a: AgentId, word: string, filter: seq<string>)
    requires Keyed(agents) && a in agents && word in agents[a].devices && (filter == [] || a in filter)
    requires '/' !in a && a != ""
    ensures Qualifier(a + "/" + word) == a && WordOf(a + "/" + word) == word
    ensures Holders(agents, a, word, filter) == {a}
  {
    var id := a + "/" + word;
    assert id[|a|] == '/';
    assert forall j | 0 <= j < |a| :: id[j] == a[j];
    assert id[..|a|] == a && id[|a| + 1..] == word;
  }

  lemma {:induction false} SlashIs(s: string, i: nat, n: nat)
    requires i <= n <= |s| && (n < |s| ==> s[n] == '/') && forall j | i <= j < n :: s[j] != '/'
    ensures SlashAt(s, i) == n
    decreases n - i
  {
    if i < n { SlashIs(s, i + 1, n); }
  }

  /** A bare name, or one with nothing before its slash, stands for that handle at any agent. */
  lemma BareNameMeansAnyAgent(agents: map<AgentId, Conn>, word: string, filter: seq<string>, a: AgentId)
    requires Keyed(agents)
    ensures WordOf("/" + word) == word && Qualifier("/" + word) == ""
    ensures '/' !in word ==> WordOf(word) == word && Qualifier(word) == ""
    ensures a in Holders(agents, "", word, filter) <==>
              a in agents && word in agents[a].devices && (filter == [] || a in filter)
  {
    assert ("/" + word)[0] == '/' && ("/" + word)[1..] == word;
    SlashIs("/" + word, 0, 0);
    if '/' !in word { SlashIs(word, 0, |word|); }
  }

  /** The agents a scoped token may see. */
  function Within(agents: map<AgentId, Conn>, filter: seq<string>): map<AgentId, Conn> {
    map a | a in agents && (filter == [] || a in filter) :: agents[a]
  }

  /** A scoped token resolves names as if no other agent were connected. */
  lemma ScopeHidesOtherAgents(agents: map<AgentId, Conn>, want: string, word: string, filter: seq<string>)
    requires Keyed(agents)
    ensures Holders(agents, want, word, filter) == Holders(Within(agents, filter), want, word, [])
  {
  }

  // ---- Announced devices and reset counts ----

  datatype Announced = Announced(handle: string, device: Device)

  /** Entry i is the last of the first n for its handle. */
  predicate LastEntry(ann: seq<Announced>, n: nat, i: int)
    requires n <= |ann|
  {
    0 <= i < n && forall j | i < j < n :: ann[j].handle != ann[i].handle
  }

  lemma LastEntryNext(ann: seq<Announced>, n: nat, i: int)
    requires n < |ann|
    ensures LastEntry(ann, n + 1, i) <==> i == n || (LastEntry(ann, n, i) && ann[n].handle != ann[i].handle)
  {
  }

  /** Every handle announced, and no other, with its last entry. */
  ghost predicate MapOf(devices: map<string, Device>, ann: seq<Announced>) {
    && (forall i | 0 <= i < |ann| :: ann[i].handle in devices)
    && (forall h | h in devices :: exists i :: LastEntry(ann, |ann|, i) && ann[i].handle == h)
    && (forall i | LastEntry(ann, |ann|, i) ::
          0 <= i < |ann| && ann[i].handle in devices && devices[ann[i].handle] == ann[i].device)
  }

  /** Each announce replaces the whole set; for a repeated handle the last entry wins. */
  method DeviceMap(ann: seq<Announced>) returns (devices: map<string, Device>)
    ensures MapOf(devices, ann)
  {
    hide LastEntry;
    devices := map[];
    EntriesInRange(ann, 0);
    for n := 0 to |ann|
      invariant forall i | LastEntry(ann, n, i) :: 0 <= i < n
      invariant forall i | 0 <= i < n :: ann[i].handle in devices
      invariant forall h | h in devices :: exists i :: LastEntry(ann, n, i) && ann[i].handle == h
      invariant forall i | LastEntry(ann, n, i) :: ann[i].handle in devices && devices[ann[i].handle] == ann[i].device
    {
      forall i ensures LastEntry(ann, n + 1, i) <==>
                       i == n || (LastEntry(ann, n, i) && ann[n].handle != ann[i].handle) {
        LastEntryNext(ann, n, i);
      }
      EntriesInRange(ann, n + 1);
      ghost var before := devices;
      devices := devices[ann[n].handle := ann[n].device];
      forall h | h in devices ensures exists i :: LastEntry(ann, n + 1, i) && ann[i].handle == h {
        if h == ann[n].handle {
          assert LastEntry(ann, n + 1, n);
        } else {
          assert h in before;
        }
      }
    }
    EntriesInRange(ann, |ann|);
  }

  lemma EntriesInRange(ann: seq<Announced>, n: nat)
    requires n <= |ann|
    ensures forall i | LastEntry(ann, n, i) :: 0 <= i < n
  {
  }

  ghost predicate Reported(agents: map<AgentId, Conn>, agent: AgentId, uuid: nat, n: nat, epoch: nat) {
    && agent in agents && agents[agent].epoch == epoch
    && exists h :: h in agents[agent].devices && agents[agent].devices[h] == Device(uuid, n)
  }

  ghost predicate Answers(agents: map<AgentId, Conn>, agent: AgentId, uuid: nat, r: RelaySystem.Lookup) {
    match r
    case Known(n, epoch) => Reported(agents, agent, uuid, n, epoch)
    case Unknown => forall n, epoch :: !Reported(agents, agent, uuid, n, epoch)
  }

  /** ResetsFor answers with a count the live connection announced for that device, and with no
      answer exactly when the agent or the device is gone. */
  method ResetsFor(agents: map<AgentId, Conn>, agent: AgentId, uuid: nat) returns (r: RelaySystem.Lookup)
    ensures Answers(agents, agent, uuid, r)
  {
    if agent !in agents { return RelaySystem.Unknown; }
    var c := agents[agent];
    var todo := c.devices.Keys;
    while todo != {}
      invariant todo <= c.devices.Keys
      invariant forall h | h in c.devices && h !in todo :: c.devices[h].uuid != uuid
      decreases todo
    {
      var h :| h in todo;
      todo := todo - {h};
      if c.devices[h].uuid == uuid {
        assert c.devices[h] == Device(uuid, c.devices[h].resets);
        return RelaySystem.Known(c.devices[h].resets, c.epoch);
      }
    }
    return RelaySystem.Unknown;
  }

  // ---- Correlated requests ----

  datatype RpcState = Sending | Awaiting | Returned(result: Option<nat>)

  /** pending is the map of open requests; chan is the content of each one-slot channel; inHand is
      a result the control loop has taken a channel for but not yet sent. */
  datatype Rpcs = Rpcs(
    pending: set<nat>,
    chan: map<nat, seq<nat>>,
    inHand: Option<(nat, nat)>,
    calls: map<nat, RpcState>,
    sent: map<nat, nat>)

  datatype RpcStep =
    | Add(corr: nat)
    | SendOk(corr: nat)
    | SendFails(corr: nat)
    | ResolveTake(corr: nat, result: nat)
    | ResolveSend
    | Receive(corr: nat)
    | TimesOut(corr: nat)

  /** Correlation ids are fresh. Results, also unknown or repeated ones, may arrive at any time the
      control loop is free. */
  ghost predicate RpcEnabled(s: Rpcs, l: RpcStep) {
    match l
    case Add(c) => c !in s.calls
    case SendOk(c) => c in s.calls && s.calls[c] == Sending
    case SendFails(c) => c in s.calls && s.calls[c] == Sending
    case ResolveTake(_, _) => s.inHand.None?
    case ResolveSend => s.inHand.Some?
    case Receive(c) => c in s.calls && s.calls[c] == Awaiting && c in s.chan && s.chan[c] != []
    case TimesOut(c) => c in s.calls && s.calls[c] == Awaiting
  }

  function RpcAfter(s: Rpcs, l: RpcStep): Rpcs
  {
    match l
    case Add(c) =>
      s.(pending := s.pending + {c}, chan := s.chan[c := []], calls := s.calls[c := Sending], sent := s.sent[c := 0])
    case SendOk(c) => s.(calls := s.calls[c := Awaiting])
    case SendFails(c) => s.(pending := s.pending - {c}, calls := s.calls[c := Returned(None)])
    case ResolveTake(c, r) =>
      if c in s.pending then s.(pending := s.pending - {c}, inHand := Some((c, r))) else s
    case ResolveSend =>
      if s.inHand.Some? && s.inHand.value.0 in s.chan && s.inHand.value.0 in s.sent then
        var (c, r) := s.inHand.value;
        s.(inHand := None, chan := s.chan[c := s.chan[c] + [r]], sent := s.sent[c := s.sent[c] + 1])
      else s
    case Receive(c) =>
      if c in s.chan && s.chan[c] != []
      then s.(chan := s.chan[c := s.chan[c][1..]], calls := s.calls[c := Returned(Some(s.chan[c][0]))])
      else s
    case TimesOut(c) => s.(pending := s.pending - {c}, calls := s.calls[c := Returned(None)])
  }

  predicate RpcInit(s: Rpcs) { s == Rpcs({}, map[], None, map[], map[]) }

  ghost predicate RpcLinked(s: Rpcs, l: RpcStep, t: Rpcs) { RpcEnabled(s, l) && t == RpcAfter(s, l) }

  ghost predicate RpcRun(ss: seq<Rpcs>, ls: seq<RpcStep>) {
    && |ss| == |ls| + 1 && RpcInit(ss[0])
    && forall i | 0 <= i < |ls| :: RpcLinked(ss[i], ls[i], ss[i + 1])
  }

  predicate InHand(s: Rpcs, c: nat) { s.inHand.Some? && s.inHand.value.0 == c }

  ghost predicate RpcInv(s: Rpcs) {
    && s.chan.Keys == s.calls.Keys == s.sent.Keys
    && s.pending <= s.calls.Keys
    && (s.inHand.Some? ==> s.inHand.value.0 in s.calls)
    && (forall c | c in s.calls ::
          && (c in s.pending ==> !s.calls[c].Returned? && !InHand(s, c) && s.sent[c] == 0)
          && (InHand(s, c) ==> s.sent[c] == 0)
          && |s.chan[c]| <= s.sent[c] <= 1)
  }

  lemma RpcStepKeeps(s: Rpcs, l: RpcStep)
    requires RpcInv(s) && RpcEnabled(s, l)
    ensures RpcInv(RpcAfter(s, l))
  {
    if l.Add? || l.SendOk? || l.SendFails? || l.TimesOut? {
      hide RpcInv, RpcAfter;
      CallStepKeeps(s, l);
    } else {
      hide RpcInv, RpcAfter;
      ResultStepKeeps(s, l);
    }
  }

  lemma CallStepKeeps(s: Rpcs, l: RpcStep)
    requires RpcInv(s) && RpcEnabled(s, l) && (l.Add? || l.SendOk? || l.SendFails? || l.TimesOut?)
    ensures RpcInv(RpcAfter(s, l))
  {
  }

  lemma ResultStepKeeps(s: Rpcs, l: RpcStep)
    requires RpcInv(s) && RpcEnabled(s, l) && (l.ResolveTake? || l.ResolveSend? || l.Receive?)
    ensures RpcInv(RpcAfter(s, l))
  {
  }

  lemma {:induction false} RpcRunKeeps(ss: seq<Rpcs>, ls: seq<RpcStep>, i: nat)
    requires RpcRun(ss, ls) && i < |ss|
    ensures RpcInv(ss[i])
  {
    if i > 0 {
      RpcRunKeeps(ss, ls, i - 1);
      assert RpcLinked(ss[i - 1], ls[i - 1], ss[i]);
      hide RpcInv, RpcAfter, RpcEnabled;
      RpcLinkKeeps(ss[i - 1], ls[i - 1], ss[i]);
    }
  }

  lemma RpcLinkKeeps(s: Rpcs, l: RpcStep, t: Rpcs)
    requires RpcInv(s) && RpcLinked(s, l, t)
    ensures RpcInv(t)
  {
    RpcStepKeeps(s, l);
    hide RpcInv, RpcAfter, RpcEnabled;
  }

  /** The control loop never blocks on a result: the slot it is about to fill is always empty. */
  lemma ResolveNeverBlocks(ss: seq<Rpcs>, ls: seq<RpcStep>, i: nat)
    requires RpcRun(ss, ls) && i < |ss| && ss[i].inHand.Some?
    ensures ss[i].inHand.value.0 in ss[i].chan && ss[i].chan[ss[i].inHand.value.0] == []
  {
    hide RpcRun;
    RpcRunKeeps(ss, ls, i);
  }

  /** A request gets at most one result, and leaves no pending entry behind when it returns. */
  lemma ReturnedRequestsLeaveNothing(ss: seq<Rpcs>, ls: seq<RpcStep>, i: nat, c: nat)
    requires RpcRun(ss, ls) && i < |ss| && c in ss[i].calls
    ensures c in ss[i].sent && ss[i].sent[c] <= 1
    ensures ss[i].calls[c].Returned? ==> c !in ss[i].pending
  {
    hide RpcRun;
    RpcRunKeeps(ss, ls, i);
  }

  ghost predicate FromAgent(ls: seq<RpcStep>, n: nat, c: nat, r: nat) {
    exists x :: 0 <= x < n && x < |ls| && ls[x] == ResolveTake(c, r)
  }

  ghost predicate Traceable(s: Rpcs, ls: seq<RpcStep>, n: nat) {
    && (s.inHand.Some? ==> FromAgent(ls, n, s.inHand.value.0, s.inHand.value.1))
    && (forall c, r | c in s.chan && r in s.chan[c] :: FromAgent(ls, n, c, r))
    && (forall c | c in s.calls && s.calls[c].Returned? && s.calls[c].result.Some? ::
          FromAgent(ls, n, c, s.calls[c].result.value))
  }

  lemma FromAgentGrows(ls: seq<RpcStep>, n: nat)
    ensures forall c, r | FromAgent(ls, n, c, r) :: FromAgent(ls, n + 1, c, r)
  {
  }

  lemma TraceableStep(s: Rpcs, ls: seq<RpcStep>, n: nat)
    requires Traceable(s, ls, n) && n < |ls| && RpcEnabled(s, ls[n])
    ensures Traceable(RpcAfter(s, ls[n]), ls, n + 1)
  {
    FromAgentGrows(ls, n);
    if ls[n].ResolveTake? { assert FromAgent(ls, n + 1, ls[n].corr, ls[n].result); }
    hide FromAgent;
    var t, l := RpcAfter(s, ls[n]), ls[n];
    if l.Receive? { assert s.chan[l.corr][0] in s.chan[l.corr]; }
    forall c, r | c in t.chan && r in t.chan[c] ensures FromAgent(ls, n + 1, c, r) {
      if c in s.chan && r in s.chan[c] { assert FromAgent(ls, n, c, r); }
    }
  }

  /** A request that returns a result returns one the agent sent under that very correlation id. */
  lemma {:induction false} ResultsAnswerTheirRequest(ss: seq<Rpcs>, ls: seq<RpcStep>, i: nat)
    requires RpcRun(ss, ls) && i < |ss|
    ensures Traceable(ss[i], ls, i)
  {
    if i > 0 {
      ResultsAnswerTheirRequest(ss, ls, i - 1);
      assert RpcLinked(ss[i - 1], ls[i - 1], ss[i]);
      hide Traceable;
      TraceableStep(ss[i - 1], ls, i - 1);
    }
  }

  // ---- A result reaches its request ----

  predicate GivesUp(l: RpcStep, c: nat) { l == SendFails(c) || l == TimesOut(c) }

  predicate Settles(l: RpcStep, c: nat) { GivesUp(l, c) || (l.ResolveTake? && l.corr == c) }

  /** The last step about the entry of c added it. */
  ghost predicate AddedBy(ls: seq<RpcStep>, x: nat, n: nat, c: nat) {
    x < n && x < |ls| && ls[x] == Add(c) && forall y | x < y < n && y < |ls| :: !Settles(ls[y], c)
  }

  ghost predicate Open(ls: seq<RpcStep>, n: nat, c: nat) { exists x: nat :: AddedBy(ls, x, n, c) }

  lemma OpenNext(ls: seq<RpcStep>, n: nat, c: nat)
    requires n < |ls|
    ensures Open(ls, n + 1, c) <==> ls[n] == Add(c) || (Open(ls, n, c) && !Settles(ls[n], c))
  {
    if ls[n] == Add(c) { assert AddedBy(ls, n, n + 1, c); }
    if x: nat :| AddedBy(ls, x, n, c) {
      if !Settles(ls[n], c) { assert AddedBy(ls, x, n + 1, c); }
    }
    if Open(ls, n + 1, c) {
      var x: nat :| AddedBy(ls, x, n + 1, c);
      if x < n { assert AddedBy(ls, x, n, c); }
    }
  }

  lemma PendingNext(s: Rpcs, l: RpcStep, c: nat)
    ensures c in RpcAfter(s, l).pending <==> l == Add(c) || (c in s.pending && !Settles(l, c))
  {
  }

  /** A request is open from when it is added until it fails, times out, or a result is taken for it. */
  lemma {:induction false} PendingIff(ss: seq<Rpcs>, ls: seq<RpcStep>, i: nat, c: nat)
    requires RpcRun(ss, ls) && i < |ss|
    ensures c in ss[i].pending <==> Open(ls, i, c)
  {
    if i > 0 {
      PendingIff(ss, ls, i - 1, c);
      assert RpcLinked(ss[i - 1], ls[i - 1], ss[i]);
      PendingNext(ss[i - 1], ls[i - 1], c);
      OpenNext(ls, i - 1, c);
      hide Open, RpcAfter;
    }
  }

  /** On its way, delivered, or given up on. */
  predicate UnderDelivery(s: Rpcs, c: nat, r: nat) {
    && c in s.calls && c !in s.pending && c in s.chan
    && (s.calls[c] == Returned(Some(r)) || s.calls[c] == Returned(None)
        || s.inHand == Some((c, r)) || s.chan[c] == [r])
    && (s.calls[c].Returned? && s.calls[c].result.Some? ==> s.calls[c].result.value == r)
    && (!s.calls[c].Returned? ==> s.inHand == Some((c, r)) || s.chan[c] == [r])
    && (InHand(s, c) ==> s.inHand.value.1 == r && s.chan[c] == [])
    && (s.chan[c] == [] || s.chan[c] == [r])
  }

  lemma DeliveryNext(s: Rpcs, l: RpcStep, c: nat, r: nat)
    requires RpcInv(s) && RpcEnabled(s, l) && UnderDelivery(s, c, r)
    ensures UnderDelivery(RpcAfter(s, l), c, r)
    ensures s.calls[c] == Returned(None) ==> RpcAfter(s, l).calls[c] == Returned(None)
    ensures RpcAfter(s, l).calls[c] == Returned(None) && !GivesUp(l, c) ==> s.calls[c] == Returned(None)
    ensures l == Receive(c) ==> RpcAfter(s, l).calls[c] == Returned(Some(r))
  {
  }

  lemma TakenIsInHand(s: Rpcs, c: nat, r: nat)
    requires RpcInv(s) && RpcEnabled(s, ResolveTake(c, r)) && c in s.pending
    ensures var t := RpcAfter(s, ResolveTake(c, r));
            t.inHand == Some((c, r)) && UnderDelivery(t, c, r) && !t.calls[c].Returned?
  {
  }

  /** A result that is resolved (step x) while its request is open is in hand at once, and is what the
      request returns: nothing but giving the request up can make it return without. */
  lemma {:induction false} ResultIsDelivered(ss: seq<Rpcs>, ls: seq<RpcStep>, x: nat, j: nat, c: nat, r: nat)
    requires RpcRun(ss, ls) && x < j <= |ls| && ls[x] == ResolveTake(c, r) && c in ss[x].pending
    ensures |ss| == |ls| + 1 && ss[x + 1].inHand == Some((c, r))
    ensures UnderDelivery(ss[j], c, r)
    ensures j < |ls| && ls[j] == Receive(c) ==> c in ss[j + 1].calls && ss[j + 1].calls[c] == Returned(Some(r))
    ensures ss[j].calls[c] == Returned(None) ==> exists y | x < y < j :: GivesUp(ls[y], c)
    decreases j
  {
    hide RpcRun, RpcInv, RpcAfter, RpcEnabled, UnderDelivery, GivesUp;
    RpcLink(ss, ls, x);
    RpcRunKeeps(ss, ls, x);
    TakenIsInHand(ss[x], c, r);
    if x + 1 < j {
      ResultIsDelivered(ss, ls, x, j - 1, c, r);
      RpcLink(ss, ls, j - 1);
      RpcRunKeeps(ss, ls, j - 1);
      DeliveryNext(ss[j - 1], ls[j - 1], c, r);
    }
    if j < |ls| && ls[j] == Receive(c) {
      RpcLink(ss, ls, j);
      RpcRunKeeps(ss, ls, j);
      DeliveryNext(ss[j], ls[j], c, r);
      StillCalled(ss[j + 1], c, r);
    }
  }

  lemma RpcExtend(ss: seq<Rpcs>, ls: seq<RpcStep>, l: RpcStep) returns (tt: seq<Rpcs>, ms: seq<RpcStep>)
    requires RpcRun(ss, ls) && |ss| == |ls| + 1 && RpcEnabled(ss[|ls|], l)
    ensures RpcRun(tt, ms) && tt == ss + [RpcAfter(ss[|ls|], l)] && ms == ls + [l]
  {
    hide RpcEnabled, RpcAfter;
    tt, ms := ss + [RpcAfter(ss[|ls|], l)], ls + [l];
    forall i | 0 <= i < |ms| ensures RpcLinked(tt[i], ms[i], tt[i + 1]) {
      if i < |ls| { assert RpcLinked(ss[i], ls[i], ss[i + 1]); }
    }
  }

  /** A new request can always be answered: sent, its result received and handed over, and returned. */
  lemma RequestsCanBeAnswered(ss: seq<Rpcs>, ls: seq<RpcStep>, c: nat, r: nat)
    returns (tt: seq<Rpcs>, ms: seq<RpcStep>)
    requires RpcRun(ss, ls) && |ss| == |ls| + 1 && c !in ss[|ls|].calls && ss[|ls|].inHand.None?
    ensures RpcRun(tt, ms) && ms == ls + [Add(c), SendOk(c), ResolveTake(c, r), ResolveSend, Receive(c)]
    ensures |tt| == |ms| + 1 && c in tt[|ms|].calls && tt[|ms|].calls[c] == Returned(Some(r))
  {
    hide RpcRun;
    tt, ms := RpcExtend(ss, ls, Add(c));
    tt, ms := RpcExtend(tt, ms, SendOk(c));
    tt, ms := RpcExtend(tt, ms, ResolveTake(c, r));
    tt, ms := RpcExtend(tt, ms, ResolveSend);
    tt, ms := RpcExtend(tt, ms, Receive(c));
  }

  lemma StillCalled(s: Rpcs, c: nat, r: nat)
    requires UnderDelivery(s, c, r)
    ensures c in s.calls
  {
  }

  lemma RpcLink(ss: seq<Rpcs>, ls: seq<RpcStep>, i: nat)
    requires RpcRun(ss, ls) && i < |ls|
    ensures |ss| == |ls| + 1 && RpcEnabled(ss[i], ls[i]) && ss[i + 1] == RpcAfter(ss[i], ls[i])
  {
    assert RpcLinked(ss[i], ls[i], ss[i + 1]);
    hide RpcAfter, RpcEnabled;
  }

  // ---- The objects ----

  class Registry {
    var agents: map<AgentId, ConnId>

    constructor ()
      ensures agents == map[]
    {
      agents := map[];
    }

    /** Returns the connection that has to be closed because a newer one replaces it. */
    method RegisterConn(a: AgentId, c: ConnId) returns (prev: Option<ConnId>)
      modifies this
      ensures agents == Apply(old(agents), Register(a, c))
      ensures prev == if a in old(agents) then Some(old(agents)[a]) else None
    {
      prev := if a in agents then Some(agents[a]) else None;
      agents := agents[a := c];
    }

    method CleanupConn(a: AgentId, c: ConnId)
      modifies this
      ensures agents == Apply(old(agents), Cleanup(a, c))
    {
      if a in agents && agents[a] == c { agents := agents - {a}; }
    }
  }

  class PendingMap {
    var m: set<nat>

    constructor ()
      ensures m == {}
    {
      m := {};
    }

    method AddCorr(c: nat, ghost s: Rpcs)
      requires m == s.pending
      modifies this
      ensures m == RpcAfter(s, Add(c)).pending
    {
      m := m + {c};
    }

    method TakeCorr(c: nat, r: nat, ghost s: Rpcs) returns (ok: bool)
      requires m == s.pending && s.inHand.None?
      modifies this
      ensures m == RpcAfter(s, ResolveTake(c, r)).pending
      ensures ok <==> RpcAfter(s, ResolveTake(c, r)).inHand == Some((c, r))
    {
      ok := c in m;
      m := m - {c};
    }

    method DropCorr(c: nat, ghost s: Rpcs)
      requires m == s.pending
      modifies this
      ensures m == RpcAfter(s, TimesOut(c)).pending && m == RpcAfter(s, SendFails(c)).pending
    {
      m := m - {c};
    }
  }
}
