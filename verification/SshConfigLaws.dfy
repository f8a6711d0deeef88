// What an ssh_config lookup answers on text as users write it (internal/sshtun/sshconfig.go).
module SshConfigLaws {
  import opened Prelude
  import opened SshConfig

  // ---- Words ----

  lemma LowerOf(s: string, t: string)
    requires |s| == |t| && forall i | 0 <= i < |s| :: LowerChar(s[i]) == t[i]
    ensures ToLower(s) == t
  {
  }

  /** The keywords as the manual spells them. */
  function Spelling(k: Keyword): string
    requires !k.Other?
  {
    match k
    case Host => "Host"
    case Match => "Match"
    case HostName => "HostName"
    case User => "User"
    case Port => "Port"
    case IdentityFile => "IdentityFile"
  }

  lemma LowerSpellings()
    ensures ToLower("Host") == "host" && ToLower("Match") == "match" && ToLower("HostName") == "hostname"
    ensures ToLower("User") == "user" && ToLower("Port") == "port" && ToLower("IdentityFile") == "identityfile"
  {
    LowerOf("Host", "host");
    LowerOf("Match", "match");
    LowerOf("HostName", "hostname");
    LowerOf("User", "user");
    LowerOf("Port", "port");
    LowerOf("IdentityFile", "identityfile");
  }

  /** A word is a keyword exactly when it is its spelling, in any mix of cases. */
  lemma KeywordIff(key: string, k: Keyword)
    requires !k.Other?
    ensures KeywordOf(key) == k <==> ToLower(key) == ToLower(Spelling(k))
  {
    LowerSpellings();
  }

  /** Quotes around a value are dropped, and only a pair of them. */
  lemma QuotesAreDropped(s: string)
    ensures Unquote("\"" + s + "\"") == s
    ensures (s == "" || s[0] != '"' || s[|s| - 1] != '"') ==> Unquote(s) == s
  {
    assert ("\"" + s + "\"")[1..|s| + 1] == s;
  }

  /** A path under the home directory is found there, when it is known; any other is left as written. */
  lemma HomeIsExpanded(rest: string, p: string)
    ensures ExpandHome("~/" + rest, true) == InHome(rest) && ExpandHome("~\\" + rest, true) == InHome(rest)
    ensures ExpandHome("%d" + rest, true) == InHome(rest) && ExpandHome("~", true) == HomeItself
    ensures ExpandHome(p, false) == AsWritten(p)
    ensures p != "~" && !("~/" <= p) && !("~\\" <= p) && !("%d" <= p) ==> ExpandHome(p, true) == AsWritten(p)
  {
    assert ("~/" + rest)[2..] == rest && ("~\\" + rest)[2..] == rest && ("%d" + rest)[2..] == rest;
  }

  // ---- Patterns ----

  /** A pattern without wildcards matches itself and nothing else. */
  lemma {:induction false} LiteralsMatchThemselves(p: string, s: string)
    requires '*' !in p && '?' !in p
    ensures Matches(p, s) <==> s == p
  {
    if p == "" {
      MatchesEmpty(s);
    } else {
      assert p[0] in p && p == [p[0]] + p[1..];
      MatchesOne(p, s);
      if s != "" {
        LiteralsMatchThemselves(p[1..], s[1..]);
        assert s == [s[0]] + s[1..];
      }
    }
  }

  /** A negated pattern that matches keeps the line from applying, whatever else is on it; a line of
      nothing but negated patterns never applies. */
  lemma NegationWins(patterns: seq<string>, p: string, alias: string)
    ensures "!" + p in patterns && Matches(p, alias) ==> !HostApplies(patterns, alias)
    ensures (forall q | q in patterns :: Negated(q)) ==> !HostApplies(patterns, alias)
  {
    hide Matches;
    assert ("!" + p)[1..] == p && Negated("!" + p);
  }

  /** An alias is looked up without its port, if it has one. */
  lemma PortIsDropped(host: string, port: string)
    requires ':' !in host && '[' !in host && ']' !in host && ':' !in port && ']' !in port
    ensures HostPart(host) == host && HostPart(host + ":" + port) == host
  {
    PlainHostSplits(host, port);
  }

  /** A bracketed address without a port is left alone, whatever colons it has. */
  lemma BracketedWithoutPort(address: string)
    ensures SplitHostPort("[" + address + "]") == None
  {
    var s := "[" + address + "]";
    var i := LastIndex(s, ':');
    if i >= 0 {
      assert s[|s| - 1] == ']' && i < |s| - 1;
      assert s[i + 1..][|s| - 2 - i] == ']';
    }
  }

  // ---- Lines ----

  predicate PlainKey(key: string) {
    key != "" && key[0] != '#' && forall c | c in key :: c !in SEPARATORS && c !in SPACES
  }

  predicate PlainValue(value: string) {
    value != "" && value[0] !in SEPARATORS && value[0] !in SPACES && value[|value| - 1] !in SPACES
  }

  lemma NothingToTrim(s: string, cut: string)
    requires s != "" && s[0] !in cut && s[|s| - 1] !in cut
    ensures Trim(s, cut) == s
  {
  }

  /** A line with a keyword and a value is read as that, whatever separates them. */
  lemma LineIsRead(key: string, gap: string, value: string)
    requires PlainKey(key) && PlainValue(value) && gap != "" && forall c | c in gap :: c in SEPARATORS
    ensures ReadLine(key + gap + value) == Some(Setting(KeywordOf(key), value))
  {
    hide KeywordOf, SplitDirective, Trim;
    var line := key + gap + value;
    assert key[0] in key && line[0] == key[0] && line[|line| - 1] == value[|value| - 1];
    NothingToTrim(line, SPACES);
    DirectiveReadsBack(key, gap, value);
  }

  /** A space, a tab or an equals sign may separate them. */
  lemma SeparatorsAre(key: string, value: string)
    requires PlainKey(key) && PlainValue(value)
    ensures ReadLine(key + " " + value) == ReadLine(key + "\t" + value) == Some(Setting(KeywordOf(key), value))
    ensures ReadLine(key + "=" + value) == ReadLine(key + " = " + value) == Some(Setting(KeywordOf(key), value))
  {
    hide ReadLine, KeywordOf;
    LineIsRead(key, " ", value);
    LineIsRead(key, "\t", value);
    LineIsRead(key, "=", value);
    LineIsRead(key, " = ", value);
  }

  predicate Blank(s: string) { forall c | c in s :: c in SPACES }

  lemma {:induction false} TrimRightDrops(s: string, gap: string)
    requires Blank(gap) && s != "" && s[|s| - 1] !in SPACES
    ensures TrimRight(s + gap, SPACES) == s
  {
    if gap == "" {
      assert s + gap == s;
    } else {
      assert gap[|gap| - 1] in gap && (s + gap)[|s + gap| - 1] == gap[|gap| - 1];
      assert (s + gap)[..|s + gap| - 1] == s + gap[..|gap| - 1];
      TrimRightDrops(s, gap[..|gap| - 1]);
    }
  }

  lemma BlanksDrop(before: string, s: string, after: string)
    requires Blank(before) && Blank(after) && s != "" && s[0] !in SPACES && s[|s| - 1] !in SPACES
    ensures Trim(before + (s + after), SPACES) == s
  {
    hide TrimLeft, TrimRight;
    TrimLeftDrops(before, s + after, SPACES);
    TrimRightDrops(s, after);
  }

  /** Blanks around a line, and comments, say nothing. */
  lemma BlanksAndCommentsSayNothing(before: string, s: string, after: string)
    requires Blank(before) && Blank(after) && s != "" && s[0] !in SPACES && s[|s| - 1] !in SPACES
    ensures ReadLine(before + (s + after)) == ReadLine(s)
    ensures s[0] == '#' ==> ReadLine(before + (s + after)) == None
  {
    hide SplitDirective, Trim;
    BlanksDrop(before, s, after);
    NothingToTrim(s, SPACES);
  }

  lemma OneWord(w: string)
    requires IsWord(w)
    ensures Fields(w) == [w]
  {
    hide IndexAny;
    assert w[0] in w;
    assert w + "" == w;
    FirstWord(w, "");
    assert Fields("") == [];
  }

  // ---- A block ----

  lemma Obtained(ds: seq<Setting>, n: nat, alias: string, key: Keyword, x: string, y: string)
    requires n <= |ds| && FirstObtained(ds, n, alias, key, x) && FirstObtained(ds, n, alias, key, y)
    requires forall d | d in ds :: d.value != ""
    ensures x == y
  {
    hide Supplies;
    if x != "" && y != "" {
      var i :| 0 <= i < n && Supplies(ds, alias, key, i) && ds[i].value == x
               && forall j | 0 <= j < i :: !Supplies(ds, alias, key, j);
      var k :| 0 <= k < n && Supplies(ds, alias, key, k) && ds[k].value == y
               && forall j | 0 <= j < k :: !Supplies(ds, alias, key, j);
      assert i == k;
    }
  }

  /** There is one answer. */
  lemma AnswerIsUnique(ds: seq<Setting>, n: nat, alias: string, homeKnown: bool, x: HostConfig, y: HostConfig)
    requires n <= |ds| && Answers(ds, n, alias, homeKnown, x) && Answers(ds, n, alias, homeKnown, y)
    requires forall d | d in ds :: d.value != ""
    ensures x == y
  {
    hide FirstObtained, Identities;
    Obtained(ds, n, alias, HostName, x.hostName, y.hostName);
    Obtained(ds, n, alias, User, x.user, y.user);
    Obtained(ds, n, alias, Port, x.port, y.port);
  }

  function Block(pattern: string, host: string, user: string, port: string, key: string): seq<Setting> {
    [Setting(Host, pattern), Setting(HostName, host), Setting(User, user), Setting(Port, port),
     Setting(IdentityFile, "~/" + key)]
  }

  lemma AppliesToOne(pattern: string, alias: string)
    requires IsWord(pattern) && pattern[0] != '!'
    ensures HostApplies(Fields(pattern), alias) <==> Matches(pattern, alias)
  {
    hide Fields, Matches, HostApplies;
    OneWord(pattern);
    AppliesToWord(pattern, alias);
  }

  lemma AppliesToWord(pattern: string, alias: string)
    requires pattern != "" && pattern[0] != '!'
    ensures HostApplies([pattern], alias) <==> Matches(pattern, alias)
  {
    hide Matches;
    assert pattern in [pattern];
  }

  lemma BlockAnswers(pattern: string, host: string, user: string, port: string, key: string, alias: string)
    requires IsWord(pattern) && pattern[0] != '!' && host != "" && user != "" && port != ""
    ensures Answers(Block(pattern, host, user, port, key), 5, alias, true,
                    if Matches(pattern, alias) then HostConfig(host, user, port, [InHome(key)]) else NO_CONFIG)
  {
    hide Active, Answers, ExpandHome, Unquote, HostApplies, Fields, Matches;
    var ds := Block(pattern, host, user, port, key);
    NothingYet(ds, alias, true);
    AppliesToOne(pattern, alias);
    HomeIsExpanded(key, "");
    NotQuoted("~/" + key);
    var m := Matches(pattern, alias);
    ActiveNext(ds, alias, 0);
    AnswersNext(ds, 0, alias, true, NO_CONFIG, false);
    ActiveNext(ds, alias, 1);
    AnswersNext(ds, 1, alias, true, NO_CONFIG, m);
    ActiveNext(ds, alias, 2);
    AnswersNext(ds, 2, alias, true, if m then HostConfig(host, "", "", []) else NO_CONFIG, m);
    ActiveNext(ds, alias, 3);
    AnswersNext(ds, 3, alias, true, if m then HostConfig(host, user, "", []) else NO_CONFIG, m);
    ActiveNext(ds, alias, 4);
    AnswersNext(ds, 4, alias, true, if m then HostConfig(host, user, port, []) else NO_CONFIG, m);
    assert [] + [InHome(key)] == [InHome(key)];
  }

  lemma NotQuoted(s: string)
    requires s != "" && s[0] != '"'
    ensures Unquote(s) == s
  {
  }

  function Line(k: Keyword, value: string): string
    requires !k.Other?
  {
    Spelling(k) + " " + value
  }

  function BlockLines(pattern: string, host: string, user: string, port: string, key: string): seq<string> {
    [Line(Host, pattern), Line(HostName, host), Line(User, user), Line(Port, port), Line(IdentityFile, "~/" + key)]
  }

  lemma BlockIsRead(pattern: string, host: string, user: string, port: string, key: string)
    requires PlainValue(pattern) && PlainValue(host) && PlainValue(user) && PlainValue(port) && PlainValue("~/" + key)
    ensures Directives(BlockLines(pattern, host, user, port, key)) == Block(pattern, host, user, port, key)
  {
    hide ReadLine, KeywordOf, ToLower, Line, PlainValue;
    LineOf(Host, pattern);
    LineOf(HostName, host);
    LineOf(User, user);
    LineOf(Port, port);
    LineOf(IdentityFile, "~/" + key);
    var lines := BlockLines(pattern, host, user, port, key);
    DirectivesOf(lines[4], []);
    DirectivesOf(lines[3], lines[4..]);
    DirectivesOf(lines[2], lines[3..]);
    DirectivesOf(lines[1], lines[2..]);
    DirectivesOf(lines[0], lines[1..]);
    assert lines == [lines[0]] + lines[1..] && lines[1..] == [lines[1]] + lines[2..];
    assert lines[2..] == [lines[2]] + lines[3..] && lines[3..] == [lines[3]] + lines[4..];
    assert lines[4..] == [lines[4]] + [];
    hide Directives;
    var d := Block(pattern, host, user, port, key);
    assert Directives(lines[3..]) == [d[3]] + [d[4]];
    assert Directives(lines[1..]) == [d[1]] + ([d[2]] + ([d[3]] + [d[4]]));
  }

  lemma LineOf(k: Keyword, value: string)
    requires !k.Other? && PlainValue(value)
    ensures ReadLine(Line(k, value)) == Some(Setting(k, value))
  {
    hide KeywordOf, ReadLine, ToLower;
    LineIsRead(Spelling(k), " ", value);
    KeywordIff(Spelling(k), k);
  }

  lemma DirectivesOf(line: string, rest: seq<string>)
    ensures Directives([line] + rest) ==
            (match ReadLine(line) case Some(d) => [d] case None => []) + Directives(rest)
    ensures Directives([]) == []
  {
    hide ReadLine;
    assert ([line] + rest)[1..] == rest;
  }

  /** A Host block written out: an alias its pattern matches gets exactly the host, user, port and key
      file it names, the key under the home directory; any other alias gets nothing. */
  lemma BlockIsAnswered(pattern: string, host: string, user: string, port: string, key: string,
                        alias: string, out: HostConfig)
    requires IsWord(pattern) && pattern[0] != '!' && PlainValue(pattern)
    requires PlainValue(host) && PlainValue(user) && PlainValue(port) && PlainValue("~/" + key)
    ensures var ds := Directives(BlockLines(pattern, host, user, port, key));
            Answers(ds, |ds|, alias, true, out) <==>
              out == if Matches(pattern, alias) then HostConfig(host, user, port, [InHome(key)]) else NO_CONFIG
  {
    hide Answers, Directives, Matches;
    BlockIsRead(pattern, host, user, port, key);
    BlockAnswers(pattern, host, user, port, key, alias);
    var ds := Block(pattern, host, user, port, key);
    var right := if Matches(pattern, alias) then HostConfig(host, user, port, [InHome(key)]) else NO_CONFIG;
    if Answers(ds, 5, alias, true, out) { AnswerIsUnique(ds, 5, alias, true, out, right); }
  }
}
