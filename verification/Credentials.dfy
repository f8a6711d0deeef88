// The relay's credential store (internal/auth/auth.go).
//
// Secrets are opaque and hash injectively. Part one is the store as one value;
// part two is the object shared by several processes through a file, proved to
// behave like that one value.
module Credentials {
  import opened Prelude

  const PAIRING_TTL: nat := 300  // seconds

  datatype Hash = HashOf(secret: nat)

  datatype Pairing = Pairing(hash: Hash, expiresAt: int, used: bool)

  datatype Agent = Agent(credential: Hash, name: string, revoked: bool)

  datatype ApiToken = ApiToken(hash: Hash, name: string, readOnly: bool, agents: seq<nat>, revoked: bool)

  datatype State = State(pairing: seq<Pairing>, agents: map<nat, Agent>, api: seq<ApiToken>)

  const EMPTY: State := State([], map[], [])

  /** Secrets and ids in an operation are the fresh values it generates, or the caller's. */
  datatype Op =
    | MintPairing(secret: nat, now: int)
    | Exchange(secret: nat, name: string, agentId: nat, credential: nat, now: int)
    | VerifyAgent(agentId: nat, credential: nat, now: int)
    | RevokeAgent(agentId: nat, now: int)
    | MintApi(secret: nat, name: string, readOnly: bool, agents: seq<nat>, now: int)
    | VerifyApi(secret: nat, now: int)

  datatype Result =
    | Done
    | Refused
    | NoSecret
    | Paired(agentId: nat, credential: nat)
    | Scope(name: string, readOnly: bool, agents: seq<nat>)

  // ---- One store ----

  predicate Live(p: Pairing, now: int) { !p.used && now < p.expiresAt }

  /** Pruning keeps the unused tokens that are not expired, in order. */
  function Pruned(ps: seq<Pairing>, now: int): seq<Pairing> {
    if ps == [] then []
    else
      var init, last := ps[..|ps| - 1], ps[|ps| - 1];
      Pruned(init, now) + if Live(last, now) then [last] else []
  }

  predicate Exchangeable(p: Pairing, secret: nat, now: int) {
    !p.used && now <= p.expiresAt && p.hash == HashOf(secret)
  }

  /** The first token the secret can be exchanged for. */
  function FirstMatch(ps: seq<Pairing>, secret: nat, now: int): (r: Option<nat>)
    ensures r.Some? ==> r.value < |ps| && Exchangeable(ps[r.value], secret, now)
    ensures r.Some? ==> forall j | 0 <= j < r.value :: !Exchangeable(ps[j], secret, now)
    ensures r.None? ==> forall j | 0 <= j < |ps| :: !Exchangeable(ps[j], secret, now)
  {
    if ps == [] then None
    else
      var before := FirstMatch(ps[..|ps| - 1], secret, now);
      if before.Some? then before
      else if Exchangeable(ps[|ps| - 1], secret, now) then Some(|ps| - 1)
      else None
  }

  function MarkUsed(ps: seq<Pairing>, i: nat): seq<Pairing> {
    if i < |ps| then ps[i := ps[i].(used := true)] else ps
  }

  predicate Unlocks(t: ApiToken, secret: nat) { !t.revoked && t.hash == HashOf(secret) }

  function FirstApi(ts: seq<ApiToken>, secret: nat): (r: Option<ApiToken>)
    ensures r.Some? ==> r.value in ts && Unlocks(r.value, secret)
    ensures r.None? ==> forall t | t in ts :: !Unlocks(t, secret)
  {
    if ts == [] then None
    else if Unlocks(ts[0], secret) then Some(ts[0])
    else FirstApi(ts[1..], secret)
  }

  function Apply(st: State, op: Op): (State, Result) {
    match op
    case MintPairing(secret, now) =>
      (st.(pairing := Pruned(st.pairing, now) + [Pairing(HashOf(secret), now + PAIRING_TTL, false)]), Done)
    case Exchange(secret, name, id, credential, now) =>
      (match FirstMatch(st.pairing, secret, now)
       case None => (st, Refused)
       case Some(i) =>
         (st.(pairing := MarkUsed(st.pairing, i), agents := st.agents[id := Agent(HashOf(credential), name, false)]),
          Paired(id, credential)))
    case VerifyAgent(id, credential, _) =>
      (st, if id in st.agents && !st.agents[id].revoked && st.agents[id].credential == HashOf(credential)
           then Done else Refused)
    case RevokeAgent(id, _) =>
      if id in st.agents then (st.(agents := st.agents[id := st.agents[id].(revoked := true)]), Done) else (st, Refused)
    case MintApi(secret, name, readOnly, agents, _) =>
      (st.(api := st.api + [ApiToken(HashOf(secret), name, readOnly, agents, false)]), Done)
    case VerifyApi(secret, _) =>
      (st, match FirstApi(st.api, secret)
           case Some(t) => Scope(t.name, t.readOnly, t.agents)
           case None => Refused)
  }

  function After(st: State, ops: seq<Op>): State {
    if ops == [] then st else Apply(After(st, ops[..|ops| - 1]), ops[|ops| - 1]).0
  }

  /** The result of the i-th operation. */
  function ResultAt(st: State, ops: seq<Op>, i: nat): Result
    requires i < |ops|
  {
    Apply(After(st, ops[..i]), ops[i]).1
  }

  // ---- Pairing tokens are single use and expire ----

  function Unused(ps: seq<Pairing>, h: Hash): nat {
    if ps == [] then 0
    else Unused(ps[..|ps| - 1], h) + if ps[|ps| - 1].hash == h && !ps[|ps| - 1].used then 1 else 0
  }

  function Mints(ops: seq<Op>, secret: nat): nat {
    if ops == [] then 0
    else
      var last := ops[|ops| - 1];
      Mints(ops[..|ops| - 1], secret) + if last.MintPairing? && last.secret == secret then 1 else 0
  }

  /** How many exchanges of the secret succeed. */
  function Exchanges(ops: seq<Op>, secret: nat): nat {
    if ops == [] then 0
    else
      var init, last := ops[..|ops| - 1], ops[|ops| - 1];
      Exchanges(init, secret) +
        if last.Exchange? && last.secret == secret && Apply(After(EMPTY, init), last).1.Paired? then 1 else 0
  }

  lemma {:induction false} PruningOnlyRemoves(ps: seq<Pairing>, now: int)
    ensures forall p :: p in Pruned(ps, now) <==> p in ps && Live(p, now)
  {
    if ps != [] {
      var init, last := ps[..|ps| - 1], ps[|ps| - 1];
      PruningOnlyRemoves(init, now);
      forall p ensures p in Pruned(ps, now) <==> p in ps && Live(p, now) {
        assert p in ps <==> p in init || p == last by { assert ps == init + [last]; }
      }
    }
  }

  lemma {:induction false} PruningNeverAdds(ps: seq<Pairing>, now: int, h: Hash)
    ensures Unused(Pruned(ps, now), h) <= Unused(ps, h)
  {
    if ps != [] {
      var init, last := ps[..|ps| - 1], ps[|ps| - 1];
      PruningNeverAdds(init, now, h);
      UnusedAppend(Pruned(init, now), last, h);
      if !Live(last, now) { assert Pruned(ps, now) == Pruned(init, now); }
    }
  }

  lemma UnusedAppend(ps: seq<Pairing>, p: Pairing, h: Hash)
    ensures Unused(ps + [p], h) == Unused(ps, h) + if p.hash == h && !p.used then 1 else 0
  {
    assert (ps + [p])[..|ps|] == ps;
  }

  lemma {:induction false} MarkingUsesOne(ps: seq<Pairing>, i: nat, h: Hash)
    requires i < |ps| && !ps[i].used
    ensures Unused(MarkUsed(ps, i), h) == Unused(ps, h) - if ps[i].hash == h then 1 else 0
  {
    var init, last := ps[..|ps| - 1], ps[|ps| - 1];
    if i == |ps| - 1 {
      assert MarkUsed(ps, i) == init + [last.(used := true)];
      UnusedAppend(init, last.(used := true), h);
    } else {
      assert MarkUsed(ps, i) == MarkUsed(init, i) + [last];
      MarkingUsesOne(init, i, h);
      UnusedAppend(MarkUsed(init, i), last, h);
    }
  }

  lemma {:induction false} TokenBudget(ops: seq<Op>, secret: nat)
    ensures Unused(After(EMPTY, ops).pairing, HashOf(secret)) + Exchanges(ops, secret) <= Mints(ops, secret)
  {
    if ops != [] {
      var init, last := ops[..|ops| - 1], ops[|ops| - 1];
      TokenBudget(init, secret);
      var st := After(EMPTY, init);
      match last {
        case MintPairing(x, now) =>
          PruningNeverAdds(st.pairing, now, HashOf(secret));
          UnusedAppend(Pruned(st.pairing, now), Pairing(HashOf(x), now + PAIRING_TTL, false), HashOf(secret));
        case Exchange(x, _, _, _, now) =>
          if FirstMatch(st.pairing, x, now).Some? {
            MarkingUsesOne(st.pairing, FirstMatch(st.pairing, x, now).value, HashOf(secret));
          }
        case _ =>
      }
    }
  }

  /** A pairing token is exchanged at most as often as it was minted: once. */
  lemma ExchangesNeverExceedMints(ops: seq<Op>, secret: nat)
    ensures Exchanges(ops, secret) <= Mints(ops, secret)
  {
    TokenBudget(ops, secret);
  }

  ghost predicate MintedAt(ops: seq<Op>, n: nat, h: Hash, expiresAt: int) {
    exists j :: 0 <= j < n && j < |ops| && ops[j].MintPairing? && HashOf(ops[j].secret) == h
                && expiresAt == ops[j].now + PAIRING_TTL
  }

  lemma {:induction false} TokensWereMinted(ops: seq<Op>, n: nat)
    requires n <= |ops|
    ensures forall p | p in After(EMPTY, ops[..n]).pairing :: MintedAt(ops, n, p.hash, p.expiresAt)
  {
    if n > 0 {
      TokensWereMinted(ops, n - 1);
      var init, last := ops[..n - 1], ops[n - 1];
      assert ops[..n][..n - 1] == init;
      var st := After(EMPTY, init);
      assert After(EMPTY, ops[..n]) == Apply(st, last).0;
      forall p | p in After(EMPTY, ops[..n]).pairing ensures MintedAt(ops, n, p.hash, p.expiresAt) {
        match last {
          case MintPairing(x, now) =>
            PruningOnlyRemoves(st.pairing, now);
            if p in Pruned(st.pairing, now) {
              assert MintedAt(ops, n - 1, p.hash, p.expiresAt);
            } else {
              assert ops[n - 1].now == now;
            }
          case Exchange(x, _, _, _, now) =>
            var m := FirstMatch(st.pairing, x, now);
            if m.Some? {
              var k :| 0 <= k < |st.pairing| && p == MarkUsed(st.pairing, m.value)[k];
              assert MintedAt(ops, n - 1, st.pairing[k].hash, st.pairing[k].expiresAt);
            } else {
              assert MintedAt(ops, n - 1, p.hash, p.expiresAt);
            }
          case _ => assert MintedAt(ops, n - 1, p.hash, p.expiresAt);
        }
      }
    }
  }

  /** An exchange that succeeds presents a secret minted earlier, no more than PAIRING_TTL before. */
  lemma ExchangeMeansFreshToken(ops: seq<Op>, i: nat)
    requires i < |ops| && ops[i].Exchange? && ResultAt(EMPTY, ops, i).Paired?
    ensures exists j | 0 <= j < i ::
              ops[j].MintPairing? && ops[j].secret == ops[i].secret && ops[i].now <= ops[j].now + PAIRING_TTL
  {
    TokensWereMinted(ops, i);
    var st := After(EMPTY, ops[..i]);
    var m := FirstMatch(st.pairing, ops[i].secret, ops[i].now);
    var p := st.pairing[m.value];
    assert MintedAt(ops, i, p.hash, p.expiresAt);
  }

  // ---- Pruning cannot be observed ----

  lemma PrunedAppend(ps: seq<Pairing>, p: Pairing, now: int)
    ensures Pruned(ps + [p], now) == Pruned(ps, now) + if Live(p, now) then [p] else []
  {
    assert (ps + [p])[..|ps|] == ps;
  }

  lemma {:induction false} PrunedTwice(ps: seq<Pairing>, t: int, u: int)
    requires t <= u
    ensures Pruned(Pruned(ps, t), u) == Pruned(ps, u)
  {
    if ps != [] {
      var init, last := ps[..|ps| - 1], ps[|ps| - 1];
      PrunedTwice(init, t, u);
      if Live(last, t) {
        PrunedAppend(Pruned(init, t), last, u);
      } else {
        assert Pruned(ps, t) == Pruned(init, t) && Pruned(ps, u) == Pruned(init, u);
      }
    }
  }

  /** What an exchange does to a list of tokens: the first match becomes used. */
  function Consume(ps: seq<Pairing>, secret: nat, now: int): seq<Pairing> {
    match FirstMatch(ps, secret, now)
    case Some(i) => MarkUsed(ps, i)
    case None => ps
  }

  /** What an exchange at time u leaves of the last token after a prune at time t, given whether an
      earlier token matched. */
  function Tail(last: Pairing, matched: bool, secret: nat, t: int, u: int): seq<Pairing> {
    if Live(last, t) && (matched || !Exchangeable(last, secret, u)) then [last] else []
  }

  lemma DeadStaysDead(p: Pairing, matched: bool, secret: nat, t: int, u: int)
    requires t < u && !Live(p, t)
    ensures !Exchangeable(p, secret, u) && Tail(p, matched, secret, t, u) == []
  {
  }

  /** An exchange later than a prune neither notices it nor disturbs what it keeps. */
  lemma {:induction false} ConsumePruned(ps: seq<Pairing>, secret: nat, t: int, u: int)
    requires t < u
    ensures FirstMatch(ps, secret, u).Some? <==> FirstMatch(Pruned(ps, t), secret, u).Some?
    ensures Pruned(Consume(ps, secret, u), t) == Pruned(Consume(Pruned(ps, t), secret, u), t)
  {
    hide Consume, FirstMatch, Live, Exchangeable, Tail;
    if ps != [] {
      var init, last := ps[..|ps| - 1], ps[|ps| - 1];
      ConsumePruned(init, secret, t, u);
      assert ps == init + [last];
      ConsumeLast(init, last, secret, t, u);
      if Live(last, t) {
        ConsumeLast(Pruned(init, t), last, secret, t, u);
      } else {
        DeadStaysDead(last, FirstMatch(init, secret, u).Some?, secret, t, u);
        ConsumeNothing(Pruned(Consume(init, secret, u), t), Pruned(init, t));
      }
    }
  }

  lemma ConsumeNothing(a: seq<Pairing>, b: seq<Pairing>)
    ensures a + [] == a && b + [] == b
  {
  }

  lemma ConsumeLast(init: seq<Pairing>, last: Pairing, secret: nat, t: int, u: int)
    ensures FirstMatch(init + [last], secret, u).Some? <==>
              FirstMatch(init, secret, u).Some? || Exchangeable(last, secret, u)
    ensures Pruned(Consume(init + [last], secret, u), t) ==
              Pruned(Consume(init, secret, u), t) + Tail(last, FirstMatch(init, secret, u).Some?, secret, t, u)
  {
    var ps := init + [last];
    assert ps[..|init|] == init;
    var m := FirstMatch(init, secret, u);
    if m.Some? {
      assert Consume(ps, secret, u) == Consume(init, secret, u) + [last];
      PrunedAppend(Consume(init, secret, u), last, t);
    } else if Exchangeable(last, secret, u) {
      assert Consume(ps, secret, u) == init + [last.(used := true)];
      PrunedAppend(init, last.(used := true), t);
    } else {
      PrunedAppend(init, last, t);
    }
  }

  /** The store without pruning: the reference the pruning one is compared with. */
  function ApplyKeeping(st: State, op: Op): (State, Result) {
    match op
    case MintPairing(secret, now) =>
      (st.(pairing := st.pairing + [Pairing(HashOf(secret), now + PAIRING_TTL, false)]), Done)
    case _ => Apply(st, op)
  }

  function AfterKeeping(st: State, ops: seq<Op>): State {
    if ops == [] then st else ApplyKeeping(AfterKeeping(st, ops[..|ops| - 1]), ops[|ops| - 1]).0
  }

  /** The latest time at which the operations minted, and so pruned. */
  function LastPrune(ops: seq<Op>): Option<int> {
    if ops == [] then None
    else
      var before, last := LastPrune(ops[..|ops| - 1]), ops[|ops| - 1];
      if !last.MintPairing? then before
      else if before.None? then Some(last.now)
      else Some(Max(before.value, last.now))
  }

  /** The tokens that no prune up to time t would remove are the same; before any prune, all are. */
  ghost predicate Agree(a: seq<Pairing>, b: seq<Pairing>, t: Option<int>) {
    match t
    case None => a == b
    case Some(x) => Pruned(a, x) == Pruned(b, x)
  }

  ghost predicate SameFuture(a: State, b: State, t: Option<int>) {
    Agree(a.pairing, b.pairing, t) && a.agents == b.agents && a.api == b.api
  }

  lemma AgreeAfterMint(a: seq<Pairing>, b: seq<Pairing>, p: Pairing, t: Option<int>, u: int)
    requires Agree(a, b, t)
    ensures Agree(Pruned(a, u) + [p], b + [p], Some(if t.Some? then Max(t.value, u) else u))
  {
    var x := if t.Some? then Max(t.value, u) else u;
    if t.Some? {
      PrunedTwice(a, t.value, x);
      PrunedTwice(b, t.value, x);
    }
    PrunedTwice(a, u, x);
    PrunedAppend(Pruned(a, u), p, x);
    PrunedAppend(b, p, x);
  }

  lemma AgreeAfterExchange(a: seq<Pairing>, b: seq<Pairing>, secret: nat, t: Option<int>, u: int)
    requires Agree(a, b, t) && (t.Some? ==> t.value < u)
    ensures FirstMatch(a, secret, u).Some? <==> FirstMatch(b, secret, u).Some?
    ensures Agree(Consume(a, secret, u), Consume(b, secret, u), t)
  {
    hide FirstMatch, Consume, Pruned;
    if t.Some? {
      ConsumePruned(a, secret, t.value, u);
      ConsumePruned(b, secret, t.value, u);
    }
  }

  lemma PruningStep(a: State, b: State, op: Op, t: Option<int>)
    requires SameFuture(a, b, t) && (op.Exchange? && t.Some? ==> t.value < op.now)
    ensures SameFuture(Apply(a, op).0, ApplyKeeping(b, op).0,
                       if !op.MintPairing? then t else if t.None? then Some(op.now) else Some(Max(t.value, op.now)))
    ensures Apply(a, op).1 == ApplyKeeping(b, op).1
  {
    hide Agree, FirstMatch, MarkUsed, FirstApi, Pruned;
    if op.MintPairing? {
      AgreeAfterMint(a.pairing, b.pairing, Pairing(HashOf(op.secret), op.now + PAIRING_TTL, false), t, op.now);
    } else if op.Exchange? {
      AgreeAfterExchange(a.pairing, b.pairing, op.secret, t, op.now);
    }
  }

  /** Every exchange is strictly later than every mint before it. */
  ghost predicate ExchangesAreLater(ops: seq<Op>) {
    forall i, j | 0 <= i < j < |ops| && ops[i].MintPairing? && ops[j].Exchange? :: ops[i].now < ops[j].now
  }

  lemma {:induction false} PruneWasAMint(ops: seq<Op>, n: nat)
    requires n <= |ops|
    ensures LastPrune(ops[..n]).Some? ==>
              exists i | 0 <= i < n :: ops[i].MintPairing? && ops[i].now == LastPrune(ops[..n]).value
  {
    if n > 0 {
      assert ops[..n][..n - 1] == ops[..n - 1];
      PruneWasAMint(ops, n - 1);
    }
  }

  lemma NextFuture(ops: seq<Op>, n: nat)
    requires n < |ops| && ExchangesAreLater(ops)
    requires SameFuture(After(EMPTY, ops[..n]), AfterKeeping(EMPTY, ops[..n]), LastPrune(ops[..n]))
    ensures SameFuture(After(EMPTY, ops[..n + 1]), AfterKeeping(EMPTY, ops[..n + 1]), LastPrune(ops[..n + 1]))
    ensures ResultAt(EMPTY, ops, n) == ApplyKeeping(AfterKeeping(EMPTY, ops[..n]), ops[n]).1
  {
    hide SameFuture, Apply, ApplyKeeping;
    assert ops[..n + 1][..n] == ops[..n];
    PruneWasAMint(ops, n);
    PruningStep(After(EMPTY, ops[..n]), AfterKeeping(EMPTY, ops[..n]), ops[n], LastPrune(ops[..n]));
  }

  lemma {:induction false} FuturesAgree(ops: seq<Op>, n: nat)
    requires ExchangesAreLater(ops) && n <= |ops|
    ensures SameFuture(After(EMPTY, ops[..n]), AfterKeeping(EMPTY, ops[..n]), LastPrune(ops[..n]))
  {
    if n > 0 {
      hide ExchangesAreLater, SameFuture;
      FuturesAgree(ops, n - 1);
      NextFuture(ops, n - 1);
    }
  }

  /** When every exchange is strictly later than the mints before it, no operation's result tells
      whether minting prunes. Nothing is asked of the other operations, nor of the order of mints. */
  lemma PruningIsUnobservable(ops: seq<Op>, i: nat)
    requires ExchangesAreLater(ops) && i < |ops|
    ensures ResultAt(EMPTY, ops, i) == ApplyKeeping(AfterKeeping(EMPTY, ops[..i]), ops[i]).1
  {
    FuturesAgree(ops, i);
    NextFuture(ops, i);
  }

  /** A prune at time t takes a good token away from an exchange at time u exactly when every token
      the exchange could use has expired by t: never when u is later than t. */
  lemma PruneMattersOnlyAtExpiry(ps: seq<Pairing>, secret: nat, t: int, u: int)
    ensures FirstMatch(Pruned(ps, t), secret, u).Some? <==>
              exists p | p in ps :: Exchangeable(p, secret, u) && p.expiresAt > t
    ensures FirstMatch(ps, secret, u).Some? <==> exists p | p in ps :: Exchangeable(p, secret, u)
  {
    PruningOnlyRemoves(ps, t);
    var m, k := FirstMatch(Pruned(ps, t), secret, u), FirstMatch(ps, secret, u);
    if m.Some? { assert Pruned(ps, t)[m.value] in ps; }
    if k.Some? { assert ps[k.value] in ps; }
  }

  lemma AfterTwo(x: Op, y: Op)
    ensures After(EMPTY, [x, y]) == Apply(Apply(EMPTY, x).0, y).0
    ensures AfterKeeping(EMPTY, [x, y]) == ApplyKeeping(ApplyKeeping(EMPTY, x).0, y).0
  {
    hide Apply, ApplyKeeping;
    assert [x, y][..1] == [x] && [x][..0] == [];
    assert After(EMPTY, [x]) == Apply(EMPTY, x).0 && AfterKeeping(EMPTY, [x]) == ApplyKeeping(EMPTY, x).0;
  }

  lemma MatchOfOne(p: Pairing, secret: nat, now: int)
    ensures FirstMatch([p], secret, now).Some? <==> Exchangeable(p, secret, now)
    ensures Pruned([p], now) == if Live(p, now) then [p] else []
  {
    assert [p][..0] == [];
  }

  lemma TwoMints(x: nat, y: nat, t: int, u: int)
    requires t + PAIRING_TTL <= u
    ensures Apply(Apply(EMPTY, MintPairing(x, t)).0, MintPairing(y, u)).0
            == EMPTY.(pairing := [Pairing(HashOf(y), u + PAIRING_TTL, false)])
    ensures ApplyKeeping(ApplyKeeping(EMPTY, MintPairing(x, t)).0, MintPairing(y, u)).0
            == EMPTY.(pairing := [Pairing(HashOf(x), t + PAIRING_TTL, false),
                                  Pairing(HashOf(y), u + PAIRING_TTL, false)])
  {
    MatchOfOne(Pairing(HashOf(x), t + PAIRING_TTL, false), x, u);
  }

  /** The strictness is needed: a token is exchanged at its last instant, at which another has been
      minted. It is refused, and would be good without pruning. */
  lemma LastInstantCanBeLost()
    ensures var ops := [MintPairing(7, 0), MintPairing(8, PAIRING_TTL), Exchange(7, "", 1, 9, PAIRING_TTL)];
            && ResultAt(EMPTY, ops, 2) == Refused
            && ApplyKeeping(AfterKeeping(EMPTY, ops[..2]), ops[2]).1 == Paired(1, 9)
  {
    var x, y := MintPairing(7, 0), MintPairing(8, PAIRING_TTL);
    var p, q := Pairing(HashOf(7), PAIRING_TTL, false), Pairing(HashOf(8), 2 * PAIRING_TTL, false);
    assert [x, y, Exchange(7, "", 1, 9, PAIRING_TTL)][..2] == [x, y];
    hide After, AfterKeeping, FirstMatch, Pruned;
    AfterTwo(x, y);
    TwoMints(7, 8, 0, PAIRING_TTL);
    MatchOfOne(q, 7, PAIRING_TTL);
    MatchOfOne(p, 7, PAIRING_TTL);
    assert [p] + [q] == [p, q];
    ConsumeLast([p], q, 7, PAIRING_TTL, PAIRING_TTL);
  }

  // ---- Revocation is final, nothing is lost ----

  ghost predicate FreshAgents(st: State, ops: seq<Op>) {
    forall i | 0 <= i < |ops| && ops[i].Exchange? :: ops[i].agentId !in After(st, ops[..i]).agents
  }

  lemma FreshPrefix(st: State, ops: seq<Op>)
    requires FreshAgents(st, ops) && ops != []
    ensures FreshAgents(st, ops[..|ops| - 1])
    ensures ops[|ops| - 1].Exchange? ==> ops[|ops| - 1].agentId !in After(st, ops[..|ops| - 1]).agents
  {
    var init := ops[..|ops| - 1];
    forall i | 0 <= i < |init| && init[i].Exchange? ensures init[i].agentId !in After(st, init[..i]).agents {
      assert init[..i] == ops[..i] && init[i] == ops[i];
    }
  }

  /** Agents are never removed, their credential never changes, and revocation is final. */
  lemma {:induction false} AgentsOnlyGainRevocation(st: State, ops: seq<Op>, id: nat)
    requires FreshAgents(st, ops) && id in st.agents
    ensures id in After(st, ops).agents
    ensures After(st, ops).agents[id].credential == st.agents[id].credential
    ensures st.agents[id].revoked ==> After(st, ops).agents[id].revoked
  {
    if ops != [] {
      FreshPrefix(st, ops);
      AgentsOnlyGainRevocation(st, ops[..|ops| - 1], id);
    }
  }

  /** After a successful revocation no credential verifies for that agent again. */
  lemma RevocationIsFinal(st: State, id: nat, t: int, ops: seq<Op>, credential: nat, now: int)
    requires id in st.agents && FreshAgents(Apply(st, RevokeAgent(id, t)).0, ops)
    ensures Apply(After(Apply(st, RevokeAgent(id, t)).0, ops), VerifyAgent(id, credential, now)).1 == Refused
  {
    AgentsOnlyGainRevocation(Apply(st, RevokeAgent(id, t)).0, ops, id);
  }

  /** A paired agent verifies with exactly its own credential until it is revoked. */
  lemma {:induction false} CredentialsWorkUntilRevoked(st: State, id: nat, ops: seq<Op>, credential: nat, now: int)
    requires id in st.agents && !st.agents[id].revoked && FreshAgents(st, ops)
    requires forall i | 0 <= i < |ops| && ops[i].RevokeAgent? :: ops[i].agentId != id
    ensures id in After(st, ops).agents && !After(st, ops).agents[id].revoked
    ensures Apply(After(st, ops), VerifyAgent(id, credential, now)).1 == Done <==>
            st.agents[id].credential == HashOf(credential)
  {
    AgentsOnlyGainRevocation(st, ops, id);
    if ops != [] {
      FreshPrefix(st, ops);
      CredentialsWorkUntilRevoked(st, id, ops[..|ops| - 1], credential, now);
      assert ops[|ops| - 1].RevokeAgent? ==> ops[|ops| - 1].agentId != id;
    }
  }

  // ---- The shared file and its stores ----

  /** The file: absent, or a state with a stamp that no two saves share. */
  class Disk {
    var content: Option<State>
    var stamp: nat

    constructor ()
      ensures content == None && stamp == 0
    {
      content, stamp := None, 0;
    }
  }

  function Current(content: Option<State>): State {
    match content case Some(st) => st case None => EMPTY
  }

  /** A store's memory agrees with the file whenever its stamp says it is up to date. */
  predicate InStep(st: State, stamp: nat, content: Option<State>, diskStamp: nat) {
    && stamp <= diskStamp
    && (content.None? ==> diskStamp == 0 && st == EMPTY)
    && (content.Some? ==> diskStamp > 0)
    && (content.Some? && stamp == diskStamp ==> st == content.value)
  }

  /** Pruning compacts the slice in place: kept entries are written over the front of the array
      while it is still being read. */
  method CompactInPlace(a: array<Pairing>, now: int) returns (k: nat)
    modifies a
    ensures k <= a.Length && a[..k] == Pruned(old(a[..]), now)
  {
    k := 0;
    for i := 0 to a.Length
      invariant k <= i
      invariant a[..k] == Pruned(old(a[..])[..i], now)
      invariant a[i..] == old(a[..])[i..]
    {
      assert old(a[..])[..i + 1][..i] == old(a[..])[..i];
      var p := a[i];
      assert p == old(a[..])[i];
      if !p.used && now < p.expiresAt {
        a[k] := p;
        k := k + 1;
      }
    }
    assert old(a[..])[..a.Length] == old(a[..]);
  }

  class Store {
    const disk: Disk
    var st: State
    var stamp: nat

    ghost predicate Valid()
      reads this, disk
    {
      InStep(st, stamp, disk.content, disk.stamp)
    }

    constructor (disk: Disk)
      requires disk.content.None? <==> disk.stamp == 0
      ensures this.disk == disk && Valid()
    {
      this.disk := disk;
      st := match disk.content case Some(x) => x case None => EMPTY;
      stamp := disk.stamp;
    }

    /** When the file cannot be looked at, read or parsed, memory stays as it is. */
    method Reload(readable: bool)
      requires Valid()
      modifies this`st, this`stamp
      ensures Valid()
      ensures readable ==> st == Current(disk.content)
      ensures !readable ==> st == old(st) && stamp == old(stamp)
    {
      if !readable || disk.content.None? || disk.stamp == stamp { return; }
      st := disk.content.value;
      stamp := disk.stamp;
    }

    /** A failed save leaves the file and its stamp alone; memory keeps the change. */
    method Save(ok: bool)
      modifies this`stamp, disk
      ensures if ok then disk.content == Some(st) && disk.stamp == old(disk.stamp) + 1 && stamp == disk.stamp
              else disk.content == old(disk.content) && disk.stamp == old(disk.stamp) && stamp == old(stamp)
    {
      if ok {
        disk.content := Some(st);
        disk.stamp := disk.stamp + 1;
        stamp := disk.stamp;
      }
    }

    method MintPairingToken(secret: nat, now: int, saveOk: bool)
      requires Valid()
      modifies this`st, this`stamp, disk
      ensures st == Apply(Current(old(disk.content)), MintPairing(secret, now)).0
      ensures saveOk ==> disk.content == Some(st) && disk.stamp == old(disk.stamp) + 1 && stamp == disk.stamp
      ensures !saveOk ==> disk.content == old(disk.content) && disk.stamp == old(disk.stamp)
    {
      Reload(true);
      var tokens := st.pairing;
      var a := new Pairing[|tokens|](i requires 0 <= i < |tokens| => tokens[i]);
      assert a[..] == tokens;
      var k := CompactInPlace(a, now);
      st := st.(pairing := a[..k] + [Pairing(HashOf(secret), now + PAIRING_TTL, false)]);
      Save(saveOk);
    }

    /** drawn is the new credential, or None when the random source fails. It is drawn only once the
        token has been marked used in memory. */
    method ExchangePairing(secret: nat, name: string, id: nat, drawn: Option<nat>, now: int, saveOk: bool)
      returns (r: Result)
      requires Valid()
      modifies this`st, this`stamp, disk
      ensures drawn.Some? ==> (st, r) == Apply(Current(old(disk.content)), Exchange(secret, name, id, drawn.value, now))
      ensures drawn.None? ==>
                var before := Current(old(disk.content));
                && st == before.(pairing := Consume(before.pairing, secret, now))
                && (r == if FirstMatch(before.pairing, secret, now).Some? then NoSecret else Refused)
      ensures r.Paired? && saveOk ==>
                disk.content == Some(st) && disk.stamp == old(disk.stamp) + 1 && stamp == disk.stamp
      ensures !r.Paired? || !saveOk ==> disk.content == old(disk.content) && disk.stamp == old(disk.stamp)
      ensures r.Refused? ==> Valid()
    {
      Reload(true);
      for i := 0 to |st.pairing|
        invariant Valid() && st == Current(disk.content)
        invariant disk.content == old(disk.content) && disk.stamp == old(disk.stamp)
        invariant forall j | 0 <= j < i :: !Exchangeable(st.pairing[j], secret, now)
      {
        var p := st.pairing[i];
        if p.used || now > p.expiresAt || p.hash != HashOf(secret) { continue; }
        assert FirstMatch(st.pairing, secret, now) == Some(i);
        st := st.(pairing := st.pairing[i := p.(used := true)]);
        if drawn.None? { return NoSecret; }
        st := st.(agents := st.agents[id := Agent(HashOf(drawn.value), name, false)]);
        Save(saveOk);
        return Paired(id, drawn.value);
      }
      return Refused;
    }

    method Verify(id: nat, credential: nat, now: int) returns (r: Result)
      requires Valid()
      modifies this`st, this`stamp
      ensures Valid() && (st, r) == Apply(Current(disk.content), VerifyAgent(id, credential, now))
    {
      Reload(true);
      if id in st.agents && !st.agents[id].revoked && st.agents[id].credential == HashOf(credential) { return Done; }
      return Refused;
    }

    method Revoke(id: nat, now: int, saveOk: bool) returns (r: Result)
      requires Valid()
      modifies this`st, this`stamp, disk
      ensures (st, r) == Apply(Current(old(disk.content)), RevokeAgent(id, now))
      ensures r.Done? && saveOk ==> disk.content == Some(st) && disk.stamp == old(disk.stamp) + 1 && stamp == disk.stamp
      ensures r.Refused? || !saveOk ==> disk.content == old(disk.content) && disk.stamp == old(disk.stamp)
      ensures r.Refused? ==> Valid()
    {
      Reload(true);
      if id !in st.agents { return Refused; }
      st := st.(agents := st.agents[id := st.agents[id].(revoked := true)]);
      Save(saveOk);
      return Done;
    }

    method MintApiToken(secret: nat, name: string, readOnly: bool, agents: seq<nat>, now: int, saveOk: bool)
      requires Valid()
      modifies this`st, this`stamp, disk
      ensures st == Apply(Current(old(disk.content)), MintApi(secret, name, readOnly, agents, now)).0
      ensures saveOk ==> disk.content == Some(st) && disk.stamp == old(disk.stamp) + 1 && stamp == disk.stamp
      ensures !saveOk ==> disk.content == old(disk.content) && disk.stamp == old(disk.stamp)
    {
      Reload(true);
      st := st.(api := st.api + [ApiToken(HashOf(secret), name, readOnly, agents, false)]);
      Save(saveOk);
    }

    method VerifyApiToken(secret: nat, now: int) returns (r: Result)
      requires Valid()
      modifies this`st, this`stamp
      ensures Valid() && (st, r) == Apply(Current(disk.content), VerifyApi(secret, now))
    {
      Reload(true);
      ghost var all := st.api;
      var i := 0;
      while i < |st.api|
        invariant i <= |st.api| && st.api == all && Valid() && st == Current(disk.content)
        invariant FirstApi(all, secret) == FirstApi(all[i..], secret)
      {
        var t := st.api[i];
        if !t.revoked && t.hash == HashOf(secret) { return Scope(t.name, t.readOnly, t.agents); }
        assert all[i..][1..] == all[i + 1..];
        i := i + 1;
      }
      return Refused;
    }

    /** One operation whose save, if it makes one, succeeds. */
    method Perform(op: Op) returns (r: Result)
      requires Valid()
      modifies this`st, this`stamp, disk
      ensures Valid() && (Current(disk.content), r) == Apply(Current(old(disk.content)), op)
      ensures (disk.content == old(disk.content) && disk.stamp == old(disk.stamp)) ||
              (disk.content.Some? && disk.stamp == old(disk.stamp) + 1)
    {
      match op
      case MintPairing(secret, now) => MintPairingToken(secret, now, true); r := Done;
      case Exchange(secret, name, id, credential, now) =>
        r := ExchangePairing(secret, name, id, Some(credential), now, true);
      case VerifyAgent(id, credential, now) => r := Verify(id, credential, now);
      case RevokeAgent(id, now) => r := Revoke(id, now, true);
      case MintApi(secret, name, readOnly, agents, now) =>
        MintApiToken(secret, name, readOnly, agents, now, true);
        r := Done;
      case VerifyApi(secret, now) => r := VerifyApiToken(secret, now);
    }
  }

  /** Two stores over one file, taking turns in any order: every result and the final contents
      are those of a single store, so neither ever discards or misses the other's writes. */
  method TakeTurns(a: Store, b: Store, ops: seq<Op>, turn: nat -> bool) returns (rs: seq<Result>)
    requires a != b && a.disk == b.disk && a.Valid() && b.Valid()
    modifies a`st, a`stamp, b`st, b`stamp, a.disk
    ensures a.Valid() && b.Valid()
    ensures Current(a.disk.content) == After(Current(old(a.disk.content)), ops)
    ensures |rs| == |ops| && forall i | 0 <= i < |ops| :: rs[i] == ResultAt(Current(old(a.disk.content)), ops, i)
  {
    hide Apply;
    ghost var start := Current(a.disk.content);
    rs := [];
    for n := 0 to |ops|
      invariant a.Valid() && b.Valid()
      invariant Current(a.disk.content) == After(start, ops[..n])
      invariant |rs| == n && forall i | 0 <= i < n :: rs[i] == ResultAt(start, ops, i)
    {
      assert ops[..n + 1][..n] == ops[..n];
      var r;
      if turn(n) { r := a.Perform(ops[n]); } else { r := b.Perform(ops[n]); }
      rs := rs + [r];
    }
    assert ops[..|ops|] == ops;
  }
}
