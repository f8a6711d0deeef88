// What the credential store promises its users, over every history of operations: which credentials
// verify, which pairing tokens can be exchanged, and which scope a bearer token carries
// (internal/auth/auth.go).
module CredentialLaws {
  import opened Prelude
  import opened Credentials

  // ---- Agent credentials ----

  /** Operation i is an exchange that pairs agent id and hands out this credential. */
  ghost predicate PairsAs(ops: seq<Op>, i: nat, id: nat, credential: nat) {
    i < |ops| && ops[i].Exchange? && ResultAt(EMPTY, ops, i) == Paired(id, credential)
  }

  ghost predicate NotRevoked(ops: seq<Op>, a: nat, b: nat, id: nat) {
    forall x | a <= x < b && x < |ops| && ops[x].RevokeAgent? :: ops[x].agentId != id
  }

  ghost predicate Verifies(st: State, id: nat, credential: nat) {
    id in st.agents && !st.agents[id].revoked && st.agents[id].credential == HashOf(credential)
  }

  lemma NextState(ops: seq<Op>, n: nat)
    requires n < |ops|
    ensures After(EMPTY, ops[..n + 1]) == Apply(After(EMPTY, ops[..n]), ops[n]).0
    ensures ResultAt(EMPTY, ops, n) == Apply(After(EMPTY, ops[..n]), ops[n]).1
  {
    assert ops[..n + 1][..n] == ops[..n];
  }

  /** The agents after one operation. */
  lemma AgentsNext(st: State, op: Op, id: nat)
    ensures var (t, r) := Apply(st, op);
            if op.Exchange? && r.Paired? && op.agentId == id
            then r == Paired(id, op.credential) && id in t.agents
                 && t.agents[id].credential == HashOf(op.credential) && !t.agents[id].revoked
                 && t.agents[id].name == op.name
            else
              && (id in t.agents <==> id in st.agents)
              && (id in st.agents ==> t.agents[id].credential == st.agents[id].credential)
              && (id in st.agents ==> t.agents[id].name == st.agents[id].name)
              && (id in st.agents ==>
                    (t.agents[id].revoked <==> st.agents[id].revoked || (op.RevokeAgent? && op.agentId == id)))
    ensures op.Exchange? && Apply(st, op).1.Paired? ==> Apply(st, op).1 == Paired(op.agentId, op.credential)
  {
    hide FirstMatch, MarkUsed, Pruned, FirstApi;
  }

  ghost predicate KnownAt(ops: seq<Op>, i: nat, id: nat) {
    i < |ops| && ops[i].Exchange? && ops[i].agentId == id && ResultAt(EMPTY, ops, i).Paired?
  }

  /** An agent is on record exactly when some exchange has paired it; only then can it be revoked. */
  lemma {:induction false} RevokeSucceedsIff(ops: seq<Op>, j: nat, id: nat, now: int)
    requires j <= |ops|
    ensures Apply(After(EMPTY, ops[..j]), RevokeAgent(id, now)).1 == Done <==>
              exists i: nat | i < j :: KnownAt(ops, i, id)
    ensures id in After(EMPTY, ops[..j]).agents <==> exists i: nat | i < j :: KnownAt(ops, i, id)
  {
    hide After, ResultAt;
    if j == 0 {
      assert After(EMPTY, ops[..0]) == EMPTY by { NothingYet(ops); }
    } else {
      RevokeSucceedsIff(ops, j - 1, id, now);
      NextState(ops, j - 1);
      AgentsNext(After(EMPTY, ops[..j - 1]), ops[j - 1], id);
      hide Apply;
      if KnownAt(ops, j - 1, id) { assert exists i: nat | i < j :: KnownAt(ops, i, id); }
    }
  }

  lemma NothingYet(ops: seq<Op>)
    ensures After(EMPTY, ops[..0]) == EMPTY
  {
  }

  /** Exchange i handed the credential out, and no revocation of the agent has come by n. */
  ghost predicate Grants(ops: seq<Op>, i: nat, n: nat, id: nat, credential: nat) {
    PairsAs(ops, i, id, credential) && NotRevoked(ops, i + 1, n, id)
  }

  ghost predicate Granted(ops: seq<Op>, n: nat, id: nat, credential: nat) {
    exists i: nat :: i < n && Grants(ops, i, n, id, credential)
  }

  lemma GrantedNext(ops: seq<Op>, n: nat, id: nat, credential: nat)
    requires n < |ops|
    ensures Granted(ops, n + 1, id, credential) <==>
              || PairsAs(ops, n, id, credential)
              || (Granted(ops, n, id, credential) && !(ops[n].RevokeAgent? && ops[n].agentId == id))
  {
    hide PairsAs;
    if PairsAs(ops, n, id, credential) { assert Grants(ops, n, n + 1, id, credential); }
    if Granted(ops, n, id, credential) && !(ops[n].RevokeAgent? && ops[n].agentId == id) {
      var i: nat :| i < n && Grants(ops, i, n, id, credential);
      assert Grants(ops, i, n + 1, id, credential);
    }
    if Granted(ops, n + 1, id, credential) {
      var i: nat :| i < n + 1 && Grants(ops, i, n + 1, id, credential);
      if i < n { assert Grants(ops, i, n, id, credential); }
    }
  }

  /** A credential verifies exactly when an exchange has handed it out for that agent and no revocation
      of the agent has come since. */
  lemma {:induction false} VerifiesIff(ops: seq<Op>, j: nat, id: nat, credential: nat, now: int)
    requires j <= |ops| && FreshAgents(EMPTY, ops)
    ensures Apply(After(EMPTY, ops[..j]), VerifyAgent(id, credential, now)).1 == Done <==>
              Granted(ops, j, id, credential)
    ensures Verifies(After(EMPTY, ops[..j]), id, credential) <==> Granted(ops, j, id, credential)
  {
    hide After, ResultAt, FreshAgents, Grants;
    if j == 0 {
      NothingYet(ops);
      assert !Granted(ops, 0, id, credential);
    } else {
      hide Granted;
      VerifiesIff(ops, j - 1, id, credential, now);
      VerifiesNext(ops, j - 1, id, credential);
    }
  }

  lemma VerifiesNext(ops: seq<Op>, n: nat, id: nat, credential: nat)
    requires n < |ops| && FreshAgents(EMPTY, ops)
    requires Verifies(After(EMPTY, ops[..n]), id, credential) <==> Granted(ops, n, id, credential)
    ensures Verifies(After(EMPTY, ops[..n + 1]), id, credential) <==> Granted(ops, n + 1, id, credential)
  {
    var op := ops[n];
    NextState(ops, n);
    AgentsNext(After(EMPTY, ops[..n]), op, id);
    GrantedNext(ops, n, id, credential);
    if op.Exchange? && ResultAt(EMPTY, ops, n).Paired? && op.agentId == id {
      NotYetPaired(ops, n, id);
      hide After, ResultAt, Apply, FreshAgents, NotRevoked;
      if i: nat :| i < n && Grants(ops, i, n, id, credential) { PairedIsKnown(ops, i, id, credential); }
    } else {
      hide After, ResultAt, Apply, FreshAgents, Granted;
    }
  }

  lemma NotYetPaired(ops: seq<Op>, n: nat, id: nat)
    requires n < |ops| && FreshAgents(EMPTY, ops) && ops[n].Exchange? && ops[n].agentId == id
    ensures forall i: nat | i < n :: !KnownAt(ops, i, id)
  {
    RevokeSucceedsIff(ops, n, id, 0);
    hide After, ResultAt, Apply;
  }

  lemma PairedIsKnown(ops: seq<Op>, i: nat, id: nat, credential: nat)
    requires PairsAs(ops, i, id, credential)
    ensures KnownAt(ops, i, id)
  {
    NextState(ops, i);
    AgentsNext(After(EMPTY, ops[..i]), ops[i], id);
    hide After, ResultAt, Apply;
  }

  lemma OnePairing(ops: seq<Op>, i: nat, x: nat, id: nat, given: nat, credential: nat)
    requires FreshAgents(EMPTY, ops) && PairsAs(ops, i, id, given) && PairsAs(ops, x, id, credential)
    ensures i == x && given == credential
  {
    PairedIsKnown(ops, i, id, given);
    PairedIsKnown(ops, x, id, credential);
    NotYetPaired(ops, i, id);
    NotYetPaired(ops, x, id);
    hide After, ResultAt, FreshAgents;
  }

  /** The credential an exchange hands out is the one that verifies, and the only one, until its agent
      is revoked. */
  lemma PairedCredentialVerifies(ops: seq<Op>, i: nat, j: nat, id: nat, given: nat, credential: nat, now: int)
    requires i < j <= |ops| && FreshAgents(EMPTY, ops) && PairsAs(ops, i, id, given) && NotRevoked(ops, i + 1, j, id)
    ensures Apply(After(EMPTY, ops[..j]), VerifyAgent(id, credential, now)).1 == Done <==> credential == given
  {
    VerifiesIff(ops, j, id, given, now);
    VerifiesIff(ops, j, id, credential, now);
    hide After, ResultAt, FreshAgents, PairsAs, NotRevoked;
    assert Grants(ops, i, j, id, given);
    if Granted(ops, j, id, credential) {
      var x: nat :| x < j && Grants(ops, x, j, id, credential);
      OnePairing(ops, i, x, id, given, credential);
    }
  }

  /** A paired agent keeps the name it was paired under. */
  lemma {:induction false} AgentKeepsItsName(ops: seq<Op>, i: nat, j: nat, id: nat)
    requires i < j <= |ops| && FreshAgents(EMPTY, ops) && KnownAt(ops, i, id)
    ensures id in After(EMPTY, ops[..j]).agents && After(EMPTY, ops[..j]).agents[id].name == ops[i].name
    decreases j
  {
    hide After, Apply, ResultAt, FreshAgents;
    NextState(ops, j - 1);
    AgentsNext(After(EMPTY, ops[..j - 1]), ops[j - 1], id);
    if i < j - 1 {
      AgentKeepsItsName(ops, i, j - 1, id);
      if KnownAt(ops, j - 1, id) { NotYetPaired(ops, j - 1, id); }
    }
  }

  // ---- Pairing tokens ----

  ghost predicate MintsSecret(ops: seq<Op>, x: nat, secret: nat) {
    x < |ops| && ops[x].MintPairing? && ops[x].secret == secret
  }

  ghost predicate ExchangesSecret(ops: seq<Op>, x: nat, secret: nat) {
    x < |ops| && ops[x].Exchange? && ops[x].secret == secret
  }

  /** No mint in between was made when the token had expired. */
  ghost predicate SurvivesPrunes(ops: seq<Op>, a: nat, b: nat, expiresAt: int) {
    forall x | a <= x < b && x < |ops| && ops[x].MintPairing? :: ops[x].now < expiresAt
  }

  /** The only token with this hash is p, if it is still there at all. */
  ghost predicate OnlyToken(ps: seq<Pairing>, p: Pairing, there: bool) {
    (p in ps <==> there) && forall q | q in ps && q.hash == p.hash :: q == p
  }

  lemma MintKeepsToken(ps: seq<Pairing>, p: Pairing, there: bool, q: Pairing, now: int)
    requires OnlyToken(ps, p, there) && !p.used && q.hash != p.hash
    ensures OnlyToken(Pruned(ps, now) + [q], p, there && now < p.expiresAt)
  {
    PruningOnlyRemoves(ps, now);
  }

  lemma ExchangeKeepsToken(ps: seq<Pairing>, p: Pairing, there: bool, secret: nat, now: int)
    requires OnlyToken(ps, p, there) && p.hash != HashOf(secret)
    ensures OnlyToken(Consume(ps, secret, now), p, there)
  {
    var m := FirstMatch(ps, secret, now);
    if m.Some? {
      var after := MarkUsed(ps, m.value);
      forall q: Pairing | q.hash == p.hash ensures q in after <==> q in ps {
        if q in ps {
          var k :| 0 <= k < |ps| && ps[k] == q;
          assert after[k] == q;
        }
        if q in after {
          var k :| 0 <= k < |after| && after[k] == q;
          assert k != m.value && ps[k] == q;
        }
      }
    }
  }

  lemma TokensNext(st: State, op: Op)
    ensures Apply(st, op).0.pairing ==
            match op
            case MintPairing(s, now) => Pruned(st.pairing, now) + [Pairing(HashOf(s), now + PAIRING_TTL, false)]
            case Exchange(s, _, _, _, now) => Consume(st.pairing, s, now)
            case _ => st.pairing
  {
    hide Pruned, FirstMatch, MarkUsed, FirstApi;
  }

  lemma TokenNext(st: State, op: Op, p: Pairing, there: bool)
    requires OnlyToken(st.pairing, p, there) && !p.used
    requires op.MintPairing? || op.Exchange? ==> p.hash != HashOf(op.secret)
    ensures OnlyToken(Apply(st, op).0.pairing, p, there && (op.MintPairing? ==> op.now < p.expiresAt))
  {
    TokensNext(st, op);
    hide Apply, OnlyToken, Pruned, Consume;
    match op {
      case MintPairing(s, now) =>
        MintKeepsToken(st.pairing, p, there, Pairing(HashOf(s), now + PAIRING_TTL, false), now);
      case Exchange(s, _, _, _, now) => ExchangeKeepsToken(st.pairing, p, there, s, now);
      case _ =>
    }
  }

  lemma TokenStarts(ops: seq<Op>, i: nat, secret: nat)
    requires MintsSecret(ops, i, secret) && forall x: nat | x < i :: !MintsSecret(ops, x, secret)
    ensures OnlyToken(After(EMPTY, ops[..i + 1]).pairing,
                      Pairing(HashOf(secret), ops[i].now + PAIRING_TTL, false), true)
  {
    var st := After(EMPTY, ops[..i]);
    NextState(ops, i);
    TokensNext(st, ops[i]);
    NoEarlierToken(ops, i, secret);
    PruningOnlyRemoves(st.pairing, ops[i].now);
    hide After, Apply;
  }

  lemma {:induction false} TokenStays(ops: seq<Op>, i: nat, n: nat, secret: nat)
    requires i < n <= |ops| && MintsSecret(ops, i, secret)
    requires forall x: nat | x < n && x != i :: !MintsSecret(ops, x, secret)
    requires forall x: nat | i < x < n :: !ExchangesSecret(ops, x, secret)
    ensures var expiresAt := ops[i].now + PAIRING_TTL;
            OnlyToken(After(EMPTY, ops[..n]).pairing, Pairing(HashOf(secret), expiresAt, false),
                      SurvivesPrunes(ops, i + 1, n, expiresAt))
    decreases n
  {
    hide After, Apply, OnlyToken;
    if n == i + 1 {
      TokenStarts(ops, i, secret);
    } else {
      var p := Pairing(HashOf(secret), ops[i].now + PAIRING_TTL, false);
      TokenStays(ops, i, n - 1, secret);
      assert !MintsSecret(ops, n - 1, secret) && !ExchangesSecret(ops, n - 1, secret);
      SurvivesNext(ops, i + 1, n - 1, p.expiresAt);
      NextState(ops, n - 1);
      TokenNext(After(EMPTY, ops[..n - 1]), ops[n - 1], p, SurvivesPrunes(ops, i + 1, n - 1, p.expiresAt));
      hide SurvivesPrunes;
    }
  }

  lemma SurvivesNext(ops: seq<Op>, a: nat, b: nat, expiresAt: int)
    requires a <= b < |ops|
    ensures SurvivesPrunes(ops, a, b + 1, expiresAt) <==>
              SurvivesPrunes(ops, a, b, expiresAt) && (ops[b].MintPairing? ==> ops[b].now < expiresAt)
  {
  }

  lemma NoEarlierToken(ops: seq<Op>, i: nat, secret: nat)
    requires i < |ops| && forall x: nat | x < i :: !MintsSecret(ops, x, secret)
    ensures forall q | q in After(EMPTY, ops[..i]).pairing :: q.hash != HashOf(secret)
  {
    TokensWereMinted(ops, i);
    forall q | q in After(EMPTY, ops[..i]).pairing ensures q.hash != HashOf(secret) {
      assert MintedAt(ops, i, q.hash, q.expiresAt);
      var j :| 0 <= j < i && j < |ops| && ops[j].MintPairing? && HashOf(ops[j].secret) == q.hash;
      assert !MintsSecret(ops, j, secret);
    }
  }

  /** The first exchange (operation j) of a secret minted once (operation i) succeeds exactly when the
      token has not expired, and no mint in between was made when it had. */
  lemma FirstExchangeSucceedsIff(ops: seq<Op>, i: nat, j: nat, secret: nat)
    requires i < j && MintsSecret(ops, i, secret) && ExchangesSecret(ops, j, secret)
    requires forall x: nat | x < j && x != i :: !MintsSecret(ops, x, secret)
    requires forall x: nat | i < x < j :: !ExchangesSecret(ops, x, secret)
    ensures ResultAt(EMPTY, ops, j).Paired? <==>
              var expiresAt := ops[i].now + PAIRING_TTL;
              ops[j].now <= expiresAt && SurvivesPrunes(ops, i + 1, j, expiresAt)
  {
    TokenStays(ops, i, j, secret);
    NextState(ops, j);
    var st := After(EMPTY, ops[..j]);
    var p := Pairing(HashOf(secret), ops[i].now + PAIRING_TTL, false);
    var m := FirstMatch(st.pairing, secret, ops[j].now);
    hide After, SurvivesPrunes;
    if m.Some? {
      assert st.pairing[m.value] in st.pairing && st.pairing[m.value] == p;
    } else if p in st.pairing {
      var k :| 0 <= k < |st.pairing| && st.pairing[k] == p;
      assert !Exchangeable(st.pairing[k], secret, ops[j].now);
    }
  }

  // ---- Bearer tokens ----

  ghost predicate MintsBearer(ops: seq<Op>, x: nat, secret: nat) {
    x < |ops| && ops[x].MintApi? && ops[x].secret == secret
  }

  ghost predicate NoBearer(ops: seq<Op>, n: nat, secret: nat) { forall x: nat | x < n :: !MintsBearer(ops, x, secret) }

  lemma NoBearerNext(ops: seq<Op>, n: nat, secret: nat)
    ensures NoBearer(ops, n + 1, secret) <==> NoBearer(ops, n, secret) && !MintsBearer(ops, n, secret)
  {
  }

  lemma NoBearerYet(ops: seq<Op>, secret: nat)
    ensures NoBearer(ops, 0, secret)
  {
  }

  /** The scope a bearer token was minted with. */
  function ScopeOf(op: Op): Result
    requires op.MintApi?
  {
    Scope(op.name, op.readOnly, op.agents)
  }

  lemma {:induction false} FirstApiAppend(ts: seq<ApiToken>, t: ApiToken, secret: nat)
    ensures FirstApi(ts + [t], secret) ==
            if FirstApi(ts, secret).Some? then FirstApi(ts, secret) else if Unlocks(t, secret) then Some(t) else None
  {
    if ts == [] {
      assert [] + [t] == [t] && [t][1..] == [];
    } else {
      FirstApiAppend(ts[1..], t, secret);
      assert (ts + [t])[1..] == ts[1..] + [t];
    }
  }

  lemma BearersNext(st: State, op: Op)
    ensures Apply(st, op).0.api ==
            st.api + if op.MintApi? then [ApiToken(HashOf(op.secret), op.name, op.readOnly, op.agents, false)] else []
  {
    hide Pruned, FirstMatch, MarkUsed, FirstApi;
  }

  /** A bearer token has the scope it was minted with, read-only or not and for exactly those agents;
      a secret that was never minted is refused. */
  lemma {:induction false} ScopeIsAsMinted(ops: seq<Op>, j: nat, secret: nat, now: int)
    requires j <= |ops|
    ensures var r := Apply(After(EMPTY, ops[..j]), VerifyApi(secret, now)).1;
            && (r == Refused <==> NoBearer(ops, j, secret))
            && forall i: nat | i < j && MintsBearer(ops, i, secret) && NoBearer(ops, i, secret) :: r == ScopeOf(ops[i])
  {
    hide After, NoBearer;
    VerifyApiIs(After(EMPTY, ops[..j]), secret, now);
    if j == 0 {
      NothingYet(ops);
      assert NoBearer(ops, 0, secret) by { NoBearerYet(ops, secret); }
    } else {
      hide Apply, FirstApi, ResultAt;
      ScopeIsAsMinted(ops, j - 1, secret, now);
      NextState(ops, j - 1);
      var st, op := After(EMPTY, ops[..j - 1]), ops[j - 1];
      BearersNext(st, op);
      if op.MintApi? {
        FirstApiAppend(st.api, ApiToken(HashOf(op.secret), op.name, op.readOnly, op.agents, false), secret);
      } else {
        assert st.api + [] == st.api && !MintsBearer(ops, j - 1, secret);
      }
      NoBearerNext(ops, j - 1, secret);
      VerifyApiIs(st, secret, now);
    }
  }

  /** In any store, also one with tokens revoked in its file: a bearer secret is accepted exactly when a
      token with it is there that has not been revoked. */
  lemma BearerIsAcceptedIff(st: State, secret: nat, now: int)
    ensures Apply(st, VerifyApi(secret, now)).1.Scope? <==>
              exists t :: t in st.api && !t.revoked && t.hash == HashOf(secret)
  {
    VerifyApiIs(st, secret, now);
    var t := FirstApi(st.api, secret);
    if x :| x in st.api && !x.revoked && x.hash == HashOf(secret) { assert Unlocks(x, secret); }
    hide Apply;
  }

  lemma VerifyApiIs(st: State, secret: nat, now: int)
    ensures Apply(st, VerifyApi(secret, now)).1 ==
            match FirstApi(st.api, secret)
            case Some(t) => Scope(t.name, t.readOnly, t.agents)
            case None => Refused
  {
  }
}
