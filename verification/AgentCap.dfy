// The session cap is checked when an open claims its device, not when it registers
// (internal/agent/core.go). SessionsAreBounded in AgentTheorems gives the bound that
// does hold; here a run is built that reaches it, for every number of overlapping opens.
module AgentCap {
  import opened Prelude
  import opened Registry
  import opened AgentSystem
  import opened AgentTheorems
  import Names

  function NameOf(i: nat): string { seq(i, _ => 'a') }

  lemma HandlesDiffer(i: nat, j: nat)
    requires NameOf(i) == NameOf(j)
    ensures i == j
  {
    assert |NameOf(i)| == i && |NameOf(j)| == j;
  }

  function Device(i: nat): Rec { Rec(i, NameOf(i), true, false, false, false, 0) }

  function Config(n: nat): map<Key, Rec> { map i: nat | i < n :: Device(i) }

  function Live(n: nat): map<Key, Dev> { map i: nat | i < n :: Dev(NO_HARDWARE, Device(i), true, 0) }

  predicate Between(a: nat, i: nat, b: nat) { a <= i < b }

  function Range(a: nat, b: nat): set<nat> { set i: nat | i < b && Between(a, i, b) }

  function Claims(n: nat): map<Uuid, Sid> { map i | i in Range(0, n) :: i }

  function AllPorts(n: nat): seq<PortInfo> { seq(n, i requires 0 <= i < n => PortInfo(i, NO_HARDWARE, true)) }

  function Unused(n: nat): seq<Identity> { seq(n, i requires 0 <= i < n => Identity(n + i, _ => None)) }

  /** n devices are exposed and online, the first a have sessions, the next b are being opened. */
  ghost predicate Ready(s: Sys, n: nat, a: nat, b: nat) {
    && s.words.WellFormed() && a + b <= n
    && s.v.cfg == Config(n) && s.v.devices == Live(n) && s.v.monitors == map[]
    && s.v.claims == Claims(a + b)
    && s.v.sessions.Keys == Range(0, a) && s.opens.Keys == Range(a, a + b) && s.used == Range(0, a + b)
    && (forall i | i in s.opens :: s.opens[i] == Opening(i, NameOf(i), Waiting))
  }

  /** A run within the limit on opens in flight that ends in s. */
  ghost predicate RunTo(ss: seq<Sys>, ls: seq<Label>, k: nat, s: Sys) {
    Run(ss, ls) && AtMostInFlight(ss, k) && ss[|ss| - 1] == s
  }

  lemma Extend(ss: seq<Sys>, ls: seq<Label>, k: nat, s: Sys, l: Label) returns (tt: seq<Sys>, ms: seq<Label>)
    requires RunTo(ss, ls, k, s) && s.words.WellFormed() && Enabled(s, l) && |Step(s, l).opens.Keys| <= k
    ensures RunTo(tt, ms, k, Step(s, l)) && ms == ls + [l]
  {
    hide Run, Enabled, Step;
    RunShape(ss, ls);
    tt, ms := ExtendRun(ss, ls, l);
  }

  lemma {:induction false} ScanSteps(w: Names.Words, v: View, n: nat, i: nat)
    requires w.WellFormed() && i <= n && v == View(Config(n), map[], map[], map[], map[])
    ensures Reconcile(v, w, AllPorts(n), Unused(n), i) == (v.(devices := Live(i)), true)
  {
    if i > 0 {
      ScanSteps(w, v, n, i - 1);
      var u := v.(devices := Live(i - 1));
      assert v.cfg[i - 1 := v.cfg[i - 1]] == v.cfg;
      assert Live(i - 1)[i - 1 := Dev(NO_HARDWARE, Device(i - 1), true, 0)] == Live(i);
      assert ReconcilePort(u, w, AllPorts(n)[i - 1], Unused(n)[i - 1]) == Some(v.(devices := Live(i)));
    } else {
      assert Live(0) == map[];
    }
  }

  lemma ScanAll(w: Names.Words, v: View, n: nat)
    requires w.WellFormed() && v == View(Config(n), map[], map[], map[], map[])
    ensures Scan(v, w, AllPorts(n), Unused(n), true).0 == v.(devices := Live(n))
  {
    ScanSteps(w, v, n, n);
    hide Reconcile;
    forall i: nat | i < n ensures i in PresentKeys(AllPorts(n)) {
      assert AllPorts(n)[i] in AllPorts(n);
    }
    assert MarkAbsent(v.(devices := Live(n)), PresentKeys(AllPorts(n))).devices == Live(n);
  }

  lemma InitialState(w: Names.Words, n: nat) returns (s: Sys)
    requires w.WellFormed()
    ensures Init(s) && s == Sys(w, View(Config(n), map[], map[], map[], map[]), map[], {}, map[], [], {}, [], [])
  {
    var v := View(Config(n), map[], map[], map[], map[]);
    forall i, j | i in v.cfg && j in v.cfg && v.cfg[i].wordId == v.cfg[j].wordId ensures i == j { HandlesDiffer(i, j); }
    s := Sys(w, v, map[], {}, map[], [], {}, [], []);
  }

  lemma Start(w: Names.Words, n: nat, k: nat) returns (ss: seq<Sys>, ls: seq<Label>, s: Sys)
    requires w.WellFormed()
    ensures RunTo(ss, ls, k, s) && Ready(s, n, 0, 0) && |ls| == 1
    ensures s.starts == map[] && s.mons == [] && s.owner == []
  {
    hide *;
    var s0 := InitialState(w, n);
    var l := ScanStep(AllPorts(n), Unused(n), true);
    ScanFindsAll(s0, n);
    s := Step(s0, l);
    StartsEmpty(s0, k);
    ss, ls := Extend([s0], [], k, s0, l);
  }

  lemma StartsEmpty(s: Sys, k: nat)
    requires Init(s)
    ensures RunTo([s], [], k, s) && s.words.WellFormed()
  {
  }

  lemma ScanFindsAll(s: Sys, n: nat)
    requires Init(s) && s.v.cfg == Config(n)
    ensures var l := ScanStep(AllPorts(n), Unused(n), true);
            && Enabled(s, l) && Ready(Step(s, l), n, 0, 0) && |Step(s, l).opens.Keys| == 0
            && Step(s, l).starts == map[] && Step(s, l).mons == [] && Step(s, l).owner == []
  {
    ScanAll(s.words, s.v, n);
    NewUuids(n);
    hide Scan, Config, Live, AllPorts, Unused, UuidsOf;
    assert |AllPorts(n)| == n == |Unused(n)| by { LengthsMatch(n); }
    assert Claims(0) == map[] && Range(0, 0) == {};
  }

  lemma LengthsMatch(n: nat)
    ensures |AllPorts(n)| == n == |Unused(n)|
  {
  }

  lemma NewUuids(n: nat)
    ensures FreshIdentities(Config(n), Unused(n))
  {
    forall u | u in UuidsOf(Config(n)) ensures u < n {
      var k :| k in Config(n) && Config(n)[k].uuid == u;
    }
  }

  lemma NextIsClaimable(s: Sys, n: nat, a: nat, b: nat)
    requires Ready(s, n, a, b) && a + b < n && a < MAX_SESSIONS
    ensures ClaimOutcomeOf(s.v, NameOf(a + b), Lines(None, None)) == Claimed(a + b, "", false)
    ensures a + b !in s.used && s.words.WellFormed()
  {
    var d := a + b;
    assert s.v.devices[d].rec.wordId == NameOf(d);
    assert KeyNamed(s.v, NameOf(d)) == Some(d) by { HandlesDiffer(KeyNamed(s.v, NameOf(d)).value, d); }
    hide KeyNamed;
    RangeSize(0, a);
    assert |s.v.sessions| == |s.v.sessions.Keys|;
    assert d !in s.v.claims;
  }

  lemma ClaimReady(s: Sys, n: nat, a: nat, b: nat) returns (l: Label)
    requires Ready(s, n, a, b) && a + b < n && a < MAX_SESSIONS
    ensures Enabled(s, l) && Ready(Step(s, l), n, a, b + 1)
  {
    hide Ready, Step, ClaimOutcomeOf, NameOf;
    var d := a + b;
    NextIsClaimable(s, n, a, b);
    l := ClaimStep(NameOf(d), Lines(None, None), d);
    ClaimGrows(s, l, d);
    GrownReady(s, Step(s, l), n, a, b);
  }

  lemma ClaimGrows(s: Sys, l: Label, d: nat)
    requires s.words.WellFormed() && l == ClaimStep(NameOf(d), Lines(None, None), d) && Enabled(s, l)
    requires ClaimOutcomeOf(s.v, NameOf(d), Lines(None, None)) == Claimed(d, "", false)
    ensures var t := Step(s, l);
            && t.words == s.words && t.v == s.v.(claims := s.v.claims[d := d]) && t.used == s.used + {d}
            && t.opens == s.opens[d := Opening(d, NameOf(d), Waiting)]
  {
    hide ClaimOutcomeOf, NameOf;
  }

  lemma GrownReady(s: Sys, t: Sys, n: nat, a: nat, b: nat)
    requires Ready(s, n, a, b) && a + b < n && t.words == s.words
    requires t.v == s.v.(claims := s.v.claims[a + b := a + b]) && t.used == s.used + {a + b}
    requires t.opens == s.opens[a + b := Opening(a + b, NameOf(a + b), Waiting)]
    ensures Ready(t, n, a, b + 1)
  {
    hide NameOf, Config, Live, Claims, Range;
    var d := a + b;
    MoreClaims(d);
    RangeGrows(a, d);
    RangeGrows(0, d);
    assert t.opens.Keys == s.opens.Keys + {d};
  }

  lemma MoreClaims(d: nat)
    ensures Claims(d)[d := d] == Claims(d + 1)
  {
  }

  lemma RangeGrows(a: nat, d: nat)
    requires a <= d
    ensures Range(a, d) + {d} == Range(a, d + 1)
  {
  }

  lemma ReadySize(s: Sys, n: nat, a: nat, b: nat)
    requires Ready(s, n, a, b)
    ensures |s.v.sessions.Keys| == a && |s.opens.Keys| == b
  {
    RangeSize(0, a);
    RangeSize(a, a + b);
  }

  lemma ReadyWords(s: Sys, n: nat, a: nat, b: nat)
    requires Ready(s, n, a, b)
    ensures s.words.WellFormed()
  {
  }

  lemma ClaimNext(ss: seq<Sys>, ls: seq<Label>, k: nat, s: Sys, n: nat, a: nat, b: nat)
    returns (tt: seq<Sys>, ms: seq<Label>, t: Sys)
    requires RunTo(ss, ls, k, s) && Ready(s, n, a, b) && a + b < n && a < MAX_SESSIONS && b < k
    ensures RunTo(tt, ms, k, t) && Ready(t, n, a, b + 1)
  {
    hide *;
    var l := ClaimReady(s, n, a, b);
    ReadyWords(s, n, a, b);
    ReadySize(Step(s, l), n, a, b + 1);
    t := Step(s, l);
    tt, ms := Extend(ss, ls, k, s, l);
  }

  lemma LookupReady(s: Sys, n: nat, a: nat, b: nat) returns (t: Sys)
    requires Ready(s, n, a, b) && 0 < b
    ensures Enabled(s, LookupStep(a)) && t == Step(s, LookupStep(a))
    ensures t == s.(opens := s.opens[a := Opening(a, NameOf(a), Looked(None))]) && |t.opens.Keys| == b
  {
    RangeSize(a, a + b);
    hide Config, Live, NameOf;
    t := s.(opens := s.opens[a := Opening(a, NameOf(a), Looked(None))]);
    assert t.opens.Keys == s.opens.Keys;
  }

  lemma OpenReady(s: Sys, s1: Sys, n: nat, a: nat, b: nat) returns (t: Sys)
    requires Ready(s, n, a, b) && 0 < b && s1 == s.(opens := s.opens[a := Opening(a, NameOf(a), Looked(None))])
    ensures Enabled(s1, OpenStep(a, true)) && t == Step(s1, OpenStep(a, true))
    ensures t.v == s.v && t.used == s.used && t.words == s.words && |t.opens.Keys| == b
    ensures t.opens == s.opens[a := Opening(a, NameOf(a), Holding(Direct(|s.owner|)))]
  {
    RangeSize(a, a + b);
    hide Config, Live, NameOf;
    t := Step(s1, OpenStep(a, true));
    assert t.opens.Keys == s.opens.Keys;
  }

  lemma RegisterReady(s: Sys, s2: Sys, n: nat, a: nat, b: nat)
    requires Ready(s, n, a, b) && 0 < b && s2.v == s.v && s2.used == s.used && s2.words == s.words
    requires s2.opens == s.opens[a := Opening(a, NameOf(a), Holding(Direct(|s.owner|)))]
    ensures Enabled(s2, RegisterStep(a)) && Ready(Step(s2, RegisterStep(a)), n, a + 1, b - 1)
  {
    hide Ready, Step, Enabled, Exposed, NameOf;
    RegistersFirst(s, s2, n, a, b);
    RegisteredReady(s, Step(s2, RegisterStep(a)), n, a, b);
  }

  lemma RegistersFirst(s: Sys, s2: Sys, n: nat, a: nat, b: nat)
    requires Ready(s, n, a, b) && 0 < b && s2.v == s.v && s2.used == s.used && s2.words == s.words
    requires s2.opens == s.opens[a := Opening(a, NameOf(a), Holding(Direct(|s.owner|)))]
    ensures s2.words.WellFormed() && Enabled(s2, RegisterStep(a))
    ensures var t := Step(s2, RegisterStep(a));
            && t.words == s.words && t.used == s.used && t.v == s.v.(sessions := t.v.sessions)
            && t.v.sessions.Keys == s.v.sessions.Keys + {a} && t.opens == s.opens - {a}
  {
    assert s2.v.devices[a].rec.exposed && s2.v.devices[a].rec.uuid == a;
    assert RegisterSucceeds(s2.v, a, a);
    hide Exposed, RegisterSucceeds, Ready, Config, Live, NameOf, Step;
    RegisterStepIs(s2, a);
  }

  lemma RegisteredReady(s: Sys, t: Sys, n: nat, a: nat, b: nat)
    requires Ready(s, n, a, b) && 0 < b && t.words == s.words && t.used == s.used
    requires t.v == s.v.(sessions := t.v.sessions) && t.v.sessions.Keys == s.v.sessions.Keys + {a}
    requires t.opens == s.opens - {a}
    ensures Ready(t, n, a + 1, b - 1)
  {
    hide Config, Live, NameOf, Claims;
    assert Range(a, a + b) - {a} == Range(a + 1, a + b);
    assert Range(0, a) + {a} == Range(0, a + 1);
  }

  lemma CompleteFirst(ss: seq<Sys>, ls: seq<Label>, k: nat, s: Sys, n: nat, a: nat, b: nat)
    returns (tt: seq<Sys>, ms: seq<Label>, t: Sys)
    requires RunTo(ss, ls, k, s) && Ready(s, n, a, b) && 0 < b <= k
    ensures RunTo(tt, ms, k, t) && Ready(t, n, a + 1, b - 1)
  {
    hide *;
    var s1 := LookupReady(s, n, a, b);
    var s2 := OpenReady(s, s1, n, a, b);
    RegisterReady(s, s2, n, a, b);
    ReadyWords(s, n, a, b);
    ReadySize(Step(s2, RegisterStep(a)), n, a + 1, b - 1);
    tt, ms := Extend(ss, ls, k, s, LookupStep(a));
    tt, ms := Extend(tt, ms, k, s1, OpenStep(a, true));
    tt, ms := Extend(tt, ms, k, s2, RegisterStep(a));
    t := Step(s2, RegisterStep(a));
  }

  lemma {:induction false} RangeSize(a: nat, b: nat)
    requires a <= b
    ensures |Range(a, b)| == b - a
  {
    if a < b {
      RangeSize(a, b - 1);
      assert Range(a, b) == Range(a, b - 1) + {b - 1};
    } else {
      assert Range(a, b) == {};
    }
  }

  /** For every k >= 1 some run with never more than k opens in flight ends with exactly
      MAX_SESSIONS + k - 1 sessions, so MAX_SESSIONS itself is not a bound once opens overlap. */
  lemma CapIsReached(w: Names.Words, k: nat) returns (ss: seq<Sys>, ls: seq<Label>)
    requires w.WellFormed() && k >= 1
    ensures Run(ss, ls) && AtMostInFlight(ss, k)
    ensures |ss[|ss| - 1].v.sessions.Keys| == MAX_SESSIONS + k - 1
  {
    hide RunTo, Ready, Run, AtMostInFlight;
    var n := MAX_SESSIONS + k - 1;
    var s: Sys;
    ss, ls, s := Start(w, n, k);
    var a := 0;
    while a < MAX_SESSIONS - 1
      invariant a <= MAX_SESSIONS - 1 && RunTo(ss, ls, k, s) && Ready(s, n, a, 0)
    {
      ss, ls, s := ClaimNext(ss, ls, k, s, n, a, 0);
      ss, ls, s := CompleteFirst(ss, ls, k, s, n, a, 1);
      a := a + 1;
    }
    var b := 0;
    while b < k
      invariant b <= k && RunTo(ss, ls, k, s) && Ready(s, n, a, b)
    {
      ss, ls, s := ClaimNext(ss, ls, k, s, n, a, b);
      b := b + 1;
    }
    while b > 0
      invariant b <= k && a + b == n && RunTo(ss, ls, k, s) && Ready(s, n, a, b)
    {
      ss, ls, s := CompleteFirst(ss, ls, k, s, n, a, b);
      a, b := a + 1, b - 1;
    }
    ReachedCap(ss, ls, k, s, n);
  }

  lemma ReachedCap(ss: seq<Sys>, ls: seq<Label>, k: nat, s: Sys, n: nat)
    requires RunTo(ss, ls, k, s) && Ready(s, n, n, 0)
    ensures Run(ss, ls) && AtMostInFlight(ss, k) && |ss[|ss| - 1].v.sessions.Keys| == n
  {
    hide Init, Linked;
    ReadySize(s, n, n, 0);
  }
}
