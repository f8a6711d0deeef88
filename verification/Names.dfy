// Word-pair handles for devices (internal/names/names.go).
//
// Random picks are an arbitrary stream: draw(i) is the i-th number the random
// source yields, or None when reading the source fails.
module Names {
  import opened Prelude

  const TRIES: nat := 64

  type Draws = nat -> Option<nat>

  /** The two word lists. Neither is empty and no word contains a hyphen. */
  datatype Words = Words(adjectives: seq<string>, nouns: seq<string>) {
    ghost predicate WellFormed() {
      && adjectives != [] && nouns != []
      && (forall w | w in adjectives :: '-' !in w)
      && (forall w | w in nouns :: '-' !in w)
    }
  }

  /** What one trip round a retry loop produces. */
  datatype Attempt = SourceFailed | Skipped | Candidate(id: string)

  function Pick(list: seq<string>, d: Option<nat>): (w: Option<string>)
    requires list != []
    ensures w.Some? <==> d.Some?
    ensures w.Some? ==> w.value in list
  {
    match d
    case None => None
    case Some(n) => Some(list[n % |list|])
  }

  function PairId(a: string, n: string): string { a + "-" + n }

  function TripleId(a: string, n1: string, n2: string): string { PairId(a, n1) + "-" + n2 }

  function PairAttempt(w: Words, draw: Draws, i: nat): Attempt
    requires w.WellFormed()
  {
    match (Pick(w.adjectives, draw(2 * i)), Pick(w.nouns, draw(2 * i + 1)))
    case (Some(a), Some(n)) => Candidate(PairId(a, n))
    case _ => SourceFailed
  }

  function TripleAttempt(w: Words, draw: Draws, i: nat): Attempt
    requires w.WellFormed()
  {
    var base := 2 * TRIES + 3 * i;
    match (Pick(w.adjectives, draw(base)), Pick(w.nouns, draw(base + 1)), Pick(w.nouns, draw(base + 2)))
    case (Some(a), Some(n1), Some(n2)) =>
      if n1 == n2 then Skipped else Candidate(TripleId(a, n1, n2))
    case _ => SourceFailed
  }

  /** The attempts in the order the code makes them: TRIES pairs, then TRIES triples. */
  function AttemptAt(w: Words, draw: Draws, i: nat): Attempt
    requires w.WellFormed() && i < 2 * TRIES
  {
    if i < TRIES then PairAttempt(w, draw, i) else TripleAttempt(w, draw, i - TRIES)
  }

  predicate Rejected(a: Attempt, taken: set<string>) {
    a.Skipped? || (a.Candidate? && a.id in taken)
  }

  function GenerateFrom(w: Words, draw: Draws, taken: set<string>, i: nat): Option<string>
    requires w.WellFormed() && i <= 2 * TRIES
    decreases 2 * TRIES - i
  {
    if i == 2 * TRIES then None
    else
      var a := AttemptAt(w, draw, i);
      if a.SourceFailed? then None
      else if Rejected(a, taken) then GenerateFrom(w, draw, taken, i + 1)
      else Some(a.id)
  }

  /** The handle Generate settles on; None stands for its error return. */
  function Generated(w: Words, draw: Draws, taken: set<string>): Option<string>
    requires w.WellFormed()
  {
    GenerateFrom(w, draw, taken, 0)
  }

  method Generate(w: Words, draw: Draws, taken: set<string>) returns (r: Option<string>)
    requires w.WellFormed()
    ensures r == Generated(w, draw, taken)
  {
    for i := 0 to TRIES
      invariant Generated(w, draw, taken) == GenerateFrom(w, draw, taken, i)
    {
      var a := Pick(w.adjectives, draw(2 * i));
      if a.None? { return None; }
      var n := Pick(w.nouns, draw(2 * i + 1));
      if n.None? { return None; }
      var id := PairId(a.value, n.value);
      assert AttemptAt(w, draw, i) == Candidate(id);
      if id !in taken { return Some(id); }
    }
    for i := 0 to TRIES
      invariant Generated(w, draw, taken) == GenerateFrom(w, draw, taken, TRIES + i)
    {
      var base := 2 * TRIES + 3 * i;
      assert AttemptAt(w, draw, TRIES + i) == TripleAttempt(w, draw, i);
      var a := Pick(w.adjectives, draw(base));
      if a.None? { return None; }
      var n1 := Pick(w.nouns, draw(base + 1));
      if n1.None? { return None; }
      var n2 := Pick(w.nouns, draw(base + 2));
      if n2.None? { return None; }
      if n1.value == n2.value { continue; }
      var id := TripleId(a.value, n1.value, n2.value);
      if id !in taken { return Some(id); }
    }
    return None;
  }

  // ---- What a handle looks like ----

  /** strings.Split(s, "-"): the maximal hyphen-free pieces, in order. */
  function Split(s: string): (parts: seq<string>)
    ensures |parts| >= 1
  {
    if s == [] then [[]]
    else
      var rest := Split(s[1..]);
      if s[0] == '-' then [[]] + rest else [[s[0]] + rest[0]] + rest[1..]
  }

  function Join(parts: seq<string>): string
    requires parts != []
  {
    if |parts| == 1 then parts[0] else parts[0] + "-" + Join(parts[1..])
  }

  lemma {:induction false} JoinSplit(s: string)
    ensures Join(Split(s)) == s
    ensures forall p | p in Split(s) :: '-' !in p
  {
    if s != [] {
      JoinSplit(s[1..]);
      var rest := Split(s[1..]);
      if s[0] != '-' {
        assert Split(s)[1..] == rest[1..];
        assert forall p | p in Split(s) :: p == [s[0]] + rest[0] || p in rest;
      } else {
        assert Split(s)[1..] == rest;
      }
    }
  }

  lemma {:induction false} SplitJoin(parts: seq<string>)
    requires parts != [] && forall p | p in parts :: '-' !in p
    ensures Split(Join(parts)) == parts
    decreases |parts|, |parts[0]|
  {
    var s := Join(parts);
    if parts[0] == [] {
      if |parts| > 1 {
        assert s == ['-'] + Join(parts[1..]);
        assert s[1..] == Join(parts[1..]);
        SplitJoin(parts[1..]);
      }
    } else {
      var shorter := [parts[0][1..]] + parts[1..];
      assert shorter[1..] == parts[1..];
      assert s[1..] == Join(shorter);
      forall p | p in shorter ensures '-' !in p {
        assert p in parts[1..] ==> p in parts;
        assert p == parts[0][1..] ==> forall c | c in p :: c in parts[0];
        assert parts[0] in parts;
      }
      SplitJoin(shorter);
      assert s[0] == parts[0][0] && s[0] in parts[0] && parts[0] in parts;
      assert s[0] != '-';
      assert Split(s) == [[s[0]] + shorter[0]] + shorter[1..];
      assert [s[0]] + shorter[0] == parts[0];
      assert [parts[0]] + parts[1..] == parts;
    }
  }

  predicate Valid(w: Words, s: string) {
    var parts := Split(s);
    && (|parts| == 2 || |parts| == 3)
    && parts[0] in w.adjectives && parts[1] in w.nouns
    && (|parts| == 3 ==> parts[2] in w.nouns)
  }

  ghost predicate IsPair(w: Words, s: string) {
    exists a, n | a in w.adjectives && n in w.nouns :: s == PairId(a, n)
  }

  ghost predicate IsTriple(w: Words, s: string) {
    exists a, n1, n2 | a in w.adjectives && n1 in w.nouns && n2 in w.nouns :: s == TripleId(a, n1, n2)
  }

  lemma ValidIsListed(w: Words, s: string)
    requires Valid(w, s)
    ensures IsPair(w, s) || IsTriple(w, s)
  {
    JoinSplit(s);
    var p := Split(s);
    if |p| == 2 {
      assert s == PairId(p[0], p[1]);
    } else {
      assert Join(p[1..]) == p[1] + "-" + p[2];
      assert s == TripleId(p[0], p[1], p[2]);
    }
  }

  lemma PairIsValid(w: Words, s: string)
    requires w.WellFormed() && IsPair(w, s)
    ensures Valid(w, s)
  {
    hide Split;
    var a, n :| a in w.adjectives && n in w.nouns && s == PairId(a, n);
    assert s == Join([a, n]);
    SplitJoin([a, n]);
  }

  lemma TripleIsValid(w: Words, s: string)
    requires w.WellFormed() && IsTriple(w, s)
    ensures Valid(w, s)
  {
    hide Split;
    var a, n1, n2 :| a in w.adjectives && n1 in w.nouns && n2 in w.nouns && s == TripleId(a, n1, n2);
    TripleJoin(a, n1, n2);
    SplitJoin([a, n1, n2]);
  }

  lemma TripleJoin(a: string, n1: string, n2: string)
    ensures Join([a, n1, n2]) == TripleId(a, n1, n2)
  {
    assert [a, n1, n2][1..] == [n1, n2] && [n1, n2][1..] == [n2];
    assert Join([n1, n2]) == n1 + "-" + n2;
  }

  /** Valid accepts exactly the hyphen-joined pairs and triples of listed words. */
  lemma ValidIff(w: Words, s: string)
    requires w.WellFormed()
    ensures Valid(w, s) <==> IsPair(w, s) || IsTriple(w, s)
  {
    if Valid(w, s) { ValidIsListed(w, s); }
    if IsPair(w, s) { PairIsValid(w, s); }
    if IsTriple(w, s) { TripleIsValid(w, s); }
  }

  ghost predicate AllRejected(w: Words, draw: Draws, taken: set<string>, n: nat)
    requires w.WellFormed() && n <= 2 * TRIES
  {
    forall j | 0 <= j < n :: Rejected(AttemptAt(w, draw, j), taken)
  }

  lemma {:induction false} GenerateFromIs(w: Words, draw: Draws, taken: set<string>, i: nat, k: nat)
    requires w.WellFormed() && i <= k <= 2 * TRIES
    requires forall j | i <= j < k :: Rejected(AttemptAt(w, draw, j), taken)
    ensures GenerateFrom(w, draw, taken, i) == GenerateFrom(w, draw, taken, k)
    decreases k - i
  {
    if i < k { GenerateFromIs(w, draw, taken, i + 1, k); }
  }

  /** The first attempt that is not rejected, or 2 * TRIES. */
  lemma FirstAccepted(w: Words, draw: Draws, taken: set<string>) returns (k: nat)
    requires w.WellFormed()
    ensures k <= 2 * TRIES && AllRejected(w, draw, taken, k)
    ensures k < 2 * TRIES ==> !Rejected(AttemptAt(w, draw, k), taken)
    ensures Generated(w, draw, taken) == GenerateFrom(w, draw, taken, k)
  {
    k := 0;
    while k < 2 * TRIES && Rejected(AttemptAt(w, draw, k), taken)
      invariant k <= 2 * TRIES && AllRejected(w, draw, taken, k)
    {
      k := k + 1;
    }
    GenerateFromIs(w, draw, taken, 0, k);
  }

  /** A generated handle is well formed and was free. */
  lemma GeneratedIsValidAndFree(w: Words, draw: Draws, taken: set<string>)
    requires w.WellFormed()
    ensures Generated(w, draw, taken).Some? ==>
              && Generated(w, draw, taken).value !in taken
              && Valid(w, Generated(w, draw, taken).value)
  {
    var k := FirstAccepted(w, draw, taken);
    if k < 2 * TRIES && AttemptAt(w, draw, k).Candidate? {
      var id := AttemptAt(w, draw, k).id;
      if k < TRIES {
        assert IsPair(w, id);
      } else {
        assert IsTriple(w, id);
      }
      ValidIff(w, id);
    }
  }

  /** A generated handle is a pair, or a triple whose nouns differ. */
  lemma GeneratedTriplesDiffer(w: Words, draw: Draws, taken: set<string>)
    requires w.WellFormed() && Generated(w, draw, taken).Some?
    ensures var id := Generated(w, draw, taken).value;
            || IsPair(w, id)
            || exists a, n, m | a in w.adjectives && n in w.nouns && m in w.nouns && n != m :: id == TripleId(a, n, m)
  {
    hide PairId, TripleId, IsPair;
    var k := FirstAccepted(w, draw, taken);
    if k < TRIES { PairIsListed(w, draw, k); } else { TripleIsListed(w, draw, k - TRIES); }
  }

  lemma PairIsListed(w: Words, draw: Draws, i: nat)
    requires w.WellFormed()
    ensures var a := PairAttempt(w, draw, i); a.Candidate? ==> IsPair(w, a.id)
  {
  }

  lemma TripleIsListed(w: Words, draw: Draws, i: nat)
    requires w.WellFormed()
    ensures var x := TripleAttempt(w, draw, i);
            x.Candidate? ==>
              exists a, n, m | a in w.adjectives && n in w.nouns && m in w.nouns && n != m :: x.id == TripleId(a, n, m)
  {
    hide TripleId;
  }

  lemma PickAt(list: seq<string>, i: nat)
    requires i < |list|
    ensures Pick(list, Some(i)) == Some(list[i])
  {
  }

  lemma PairAttemptIs(w: Words, draw: Draws, n: nat, i: nat, j: nat)
    requires w.WellFormed() && i < |w.adjectives| && j < |w.nouns|
    requires draw(2 * n) == Some(i) && draw(2 * n + 1) == Some(j)
    ensures PairAttempt(w, draw, n) == Candidate(PairId(w.adjectives[i], w.nouns[j]))
  {
    hide Pick, PairId;
    PickAt(w.adjectives, i);
    PickAt(w.nouns, j);
  }

  lemma TripleAttemptIs(w: Words, draw: Draws, i: nat, j: nat, k: nat)
    requires w.WellFormed() && i < |w.adjectives| && j < |w.nouns| && k < |w.nouns| && w.nouns[j] != w.nouns[k]
    requires draw(2 * TRIES) == Some(i) && draw(2 * TRIES + 1) == Some(j) && draw(2 * TRIES + 2) == Some(k)
    ensures TripleAttempt(w, draw, 0) == Candidate(TripleId(w.adjectives[i], w.nouns[j], w.nouns[k]))
  {
    hide Pick, TripleId;
    PickAt(w.adjectives, i);
    PickAt(w.nouns, j);
    PickAt(w.nouns, k);
  }

  /** The first two draws name the pair that is used when it is free, so every listed pair can come up. */
  lemma EveryPairCanBeDrawn(w: Words, draw: Draws, i: nat, j: nat, taken: set<string>)
    requires w.WellFormed() && i < |w.adjectives| && j < |w.nouns| && draw(0) == Some(i) && draw(1) == Some(j)
    ensures PairId(w.adjectives[i], w.nouns[j]) !in taken ==>
              Generated(w, draw, taken) == Some(PairId(w.adjectives[i], w.nouns[j]))
  {
    hide PairAttempt, TripleAttempt, PairId;
    PairAttemptIs(w, draw, 0, i, j);
  }

  /** When every pair drawn is taken the next three draws name the triple that is used, if its nouns
      differ and it is free, so every such triple can come up. */
  lemma EveryTripleCanBeDrawn(w: Words, draw: Draws, i: nat, j: nat, k: nat, taken: set<string>)
    requires w.WellFormed() && i < |w.adjectives| && j < |w.nouns| && k < |w.nouns| && w.nouns[j] != w.nouns[k]
    requires draw(2 * TRIES) == Some(i) && draw(2 * TRIES + 1) == Some(j) && draw(2 * TRIES + 2) == Some(k)
    requires AllRejected(w, draw, taken, TRIES)
    ensures TripleId(w.adjectives[i], w.nouns[j], w.nouns[k]) !in taken ==>
              Generated(w, draw, taken) == Some(TripleId(w.adjectives[i], w.nouns[j], w.nouns[k]))
  {
    hide PairAttempt, TripleAttempt, TripleId;
    TripleAttemptIs(w, draw, i, j, k);
    GenerateFromIs(w, draw, taken, 0, TRIES);
  }

  /** Generation fails exactly when every attempt is rejected or the source fails first. */
  lemma GenerateFailsIff(w: Words, draw: Draws, taken: set<string>)
    requires w.WellFormed()
    ensures Generated(w, draw, taken).None? <==>
              || AllRejected(w, draw, taken, 2 * TRIES)
              || exists k | 0 <= k < 2 * TRIES ::
                   AllRejected(w, draw, taken, k) && AttemptAt(w, draw, k).SourceFailed?
  {
    var k := FirstAccepted(w, draw, taken);
    if j: nat :| j < 2 * TRIES && AllRejected(w, draw, taken, j) && AttemptAt(w, draw, j).SourceFailed? {
      GenerateFromIs(w, draw, taken, 0, j);
    }
  }
}
