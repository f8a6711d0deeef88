// ssh_config lookup and Host globbing (internal/sshtun/sshconfig.go).
//
// A character here is one byte of the program's strings.
module SshConfig {
  import opened Prelude

  // ---- Globbing ----

  /** What one pattern character may stand for: '*' anything, '?' any one character, others themselves. */
  predicate Fits(c: char, part: string) {
    c == '*' || (|part| == 1 && (c == '?' || part[0] == c))
  }

  /** The text cut into one part per pattern character. */
  ghost predicate CutAs(pattern: string, s: string, parts: seq<string>) {
    |parts| == |pattern| && Flatten(parts) == s && forall i | 0 <= i < |pattern| :: Fits(pattern[i], parts[i])
  }

  ghost predicate Matches(pattern: string, s: string) {
    exists parts :: CutAs(pattern, s, parts)
  }

  lemma MatchesEmpty(s: string)
    ensures Matches("", s) <==> s == ""
  {
    if s == "" { assert CutAs("", s, []); }
  }

  lemma MatchesFirst(pattern: string, s: string, i: nat)
    requires pattern != "" && i <= |s| && Fits(pattern[0], s[..i]) && Matches(pattern[1..], s[i..])
    ensures Matches(pattern, s)
  {
    var rest :| CutAs(pattern[1..], s[i..], rest);
    var parts := [s[..i]] + rest;
    assert parts[1..] == rest;
    assert CutAs(pattern, s, parts);
  }

  lemma FirstOfMatch(pattern: string, s: string) returns (i: nat)
    requires pattern != "" && Matches(pattern, s)
    ensures i <= |s| && Fits(pattern[0], s[..i]) && Matches(pattern[1..], s[i..])
  {
    var parts :| CutAs(pattern, s, parts);
    i := |parts[0]|;
    assert s == parts[0] + Flatten(parts[1..]);
    assert s[..i] == parts[0] && s[i..] == Flatten(parts[1..]);
    assert CutAs(pattern[1..], s[i..], parts[1..]);
  }

  lemma MatchesOne(pattern: string, s: string)
    requires pattern != "" && pattern[0] != '*'
    ensures Matches(pattern, s) <==>
              s != "" && (pattern[0] == '?' || s[0] == pattern[0]) && Matches(pattern[1..], s[1..])
  {
    if Matches(pattern, s) { var i := FirstOfMatch(pattern, s); }
    if s != "" && (pattern[0] == '?' || s[0] == pattern[0]) && Matches(pattern[1..], s[1..]) {
      MatchesFirst(pattern, s, 1);
    }
  }

  lemma MatchesStar(rest: string, s: string)
    ensures Matches("*" + rest, s) <==> exists i | 0 <= i <= |s| :: Matches(rest, s[i..])
  {
    var pattern := "*" + rest;
    assert pattern[1..] == rest;
    if Matches(pattern, s) { var i := FirstOfMatch(pattern, s); }
    if i: nat :| i <= |s| && Matches(rest, s[i..]) { MatchesFirst(pattern, s, i); }
  }

  lemma StarsCollapse(rest: string, s: string)
    ensures Matches("*" + ("*" + rest), s) <==> Matches("*" + rest, s)
  {
    var one := "*" + rest;
    MatchesStar(one, s);
    MatchesStar(rest, s);
    if Matches(one, s) { assert s[0..] == s; }
    if i :| 0 <= i <= |s| && Matches(one, s[i..]) {
      MatchesStar(rest, s[i..]);
      var j :| 0 <= j <= |s[i..]| && Matches(rest, s[i..][j..]);
      assert s[i..][j..] == s[i + j..];
    }
  }

  /** The loop that collapses stars and splits recursively decides the declarative meaning. */
  method GlobMatch(pattern: string, s: string) returns (r: bool)
    ensures r <==> Matches(pattern, s)
    decreases |pattern|
  {
    var p, t := pattern, s;
    while |p| > 0
      invariant |p| <= |pattern|
      invariant Matches(p, t) <==> Matches(pattern, s)
    {
      if p[0] == '*' {
        assert p == "*" + p[1..];
        StarsCollapse(p[1..], t);
        while |p| > 0 && p[0] == '*'
          invariant |p| <= |pattern|
          invariant |p| == |pattern| ==> p != "" && p[0] == '*'
          invariant Matches("*" + p, t) <==> Matches(pattern, s)
        {
          assert p == "*" + p[1..];
          StarsCollapse(p[1..], t);
          p := p[1..];
        }
        MatchesStar(p, t);
        if p == "" {
          MatchesEmpty(t[|t|..]);
          return true;
        }
        for i := 0 to |t| + 1
          invariant forall j | 0 <= j < i :: !Matches(p, t[j..])
        {
          var hit := GlobMatch(p, t[i..]);
          if hit { return true; }
        }
        return false;
      } else {
        MatchesOne(p, t);
        if t == "" || (p[0] != '?' && t[0] != p[0]) { return false; }
        p, t := p[1..], t[1..];
      }
    }
    MatchesEmpty(t);
    return t == "";
  }

  /** The shortcut for a lone star agrees with globbing. */
  method MatchPattern(pattern: string, s: string) returns (r: bool)
    ensures r <==> Matches(pattern, s)
  {
    if pattern == "*" {
      assert "*" + "" == pattern;
      MatchesStar("", s);
      MatchesEmpty(s[|s|..]);
      return true;
    }
    r := GlobMatch(pattern, s);
  }

  // ---- Text ----

  const SPACES := " \t\n\r\U{000B}\U{000C}"
  const SEPARATORS := " \t="

  function TrimLeft(s: string, cut: string): (r: string)
    ensures |r| <= |s| && r == s[|s| - |r|..]
    ensures forall c | c in s[..|s| - |r|] :: c in cut
    ensures r == "" || r[0] !in cut
  {
    if s != "" && s[0] in cut then TrimLeft(s[1..], cut) else s
  }

  function TrimRight(s: string, cut: string): (r: string)
    ensures |r| <= |s| && r == s[..|r|]
    ensures forall c | c in s[|r|..] :: c in cut
    ensures r == "" || r[|r| - 1] !in cut
  {
    if s != "" && s[|s| - 1] in cut then TrimRight(s[..|s| - 1], cut) else s
  }

  function Trim(s: string, cut: string): string { TrimRight(TrimLeft(s, cut), cut) }

  /** Where the first of some characters stands, or the length when there is none. */
  function IndexAny(s: string, chars: string): (i: nat)
    ensures i <= |s| && (i < |s| ==> s[i] in chars)
    ensures forall j | 0 <= j < i :: s[j] !in chars
  {
    if s == "" || s[0] in chars then 0 else 1 + IndexAny(s[1..], chars)
  }

  predicate IsWord(w: string) { w != "" && forall c | c in w :: c !in SPACES }

  /** The words of a text, split at runs of spaces. */
  function Fields(s: string): (fs: seq<string>)
    ensures forall f | f in fs :: IsWord(f)
    decreases |s|
  {
    var t := TrimLeft(s, SPACES);
    if t == "" then [] else
      var n := IndexAny(t, SPACES);
      [t[..n]] + Fields(t[n..])
  }

  function LowerChar(c: char): char { if 'A' <= c <= 'Z' then c + 32 as char else c }

  function ToLower(s: string): string { seq(|s|, i requires 0 <= i < |s| => LowerChar(s[i])) }

  function Unquote(s: string): string {
    if |s| >= 2 && s[0] == '"' && s[|s| - 1] == '"' then s[1..|s| - 1] else s
  }

  /** A key file's path: as written, or under the home directory. */
  datatype KeyPath = AsWritten(path: string) | InHome(rest: string) | HomeItself

  function ExpandHome(p: string, homeKnown: bool): KeyPath {
    if p == "" || !homeKnown then AsWritten(p)
    else if "~/" <= p || "~\\" <= p || "%d" <= p then InHome(p[2..])
    else if p == "~" then HomeItself
    else AsWritten(p)
  }

  datatype Directive = Directive(key: string, value: string)

  /** "Key value" and "Key=value". */
  function SplitDirective(line: string): (r: Option<Directive>)
    ensures r.Some? ==> r.value.key != "" && r.value.value != ""
  {
    var i := IndexAny(line, SEPARATORS);
    if 0 < i < |line| then
      var value := Trim(TrimLeft(line[i..], SEPARATORS), SPACES);
      if value != "" then Some(Directive(line[..i], value)) else None
    else None
  }

  lemma {:induction false} TrimLeftDrops(gap: string, s: string, cut: string)
    requires (forall c | c in gap :: c in cut) && (s == "" || s[0] !in cut)
    ensures TrimLeft(gap + s, cut) == s
  {
    if gap != "" {
      assert gap[0] in gap;
      assert (gap + s)[1..] == gap[1..] + s;
      TrimLeftDrops(gap[1..], s, cut);
    } else {
      assert gap + s == s;
    }
  }

  lemma IndexAnyAt(s: string, chars: string, n: nat)
    requires n < |s| && s[n] in chars && forall c | c in s[..n] :: c !in chars
    ensures IndexAny(s, chars) == n
  {
    forall j | 0 <= j < n ensures s[j] !in chars {
      assert s[j] in s[..n];
    }
  }

  /** A directive reads back whatever mix of blanks and '=' separates it. */
  lemma DirectiveReadsBack(key: string, gap: string, value: string)
    requires key != "" && forall c | c in key :: c !in SEPARATORS
    requires gap != "" && forall c | c in gap :: c in SEPARATORS
    requires value != "" && value[0] !in SEPARATORS && value[0] !in SPACES && value[|value| - 1] !in SPACES
    ensures SplitDirective(key + gap + value) == Some(Directive(key, value))
  {
    var line := key + gap + value;
    KeyEnds(key, gap, value);
    TrimLeftDrops(gap, value, SEPARATORS);
    assert Trim(value, SPACES) == value;
  }

  lemma KeyEnds(key: string, gap: string, value: string)
    requires forall c | c in key :: c !in SEPARATORS
    requires gap != "" && gap[0] in SEPARATORS
    ensures IndexAny(key + gap + value, SEPARATORS) == |key|
    ensures (key + gap + value)[..|key|] == key && (key + gap + value)[|key|..] == gap + value
  {
    hide *;
    var line := key + gap + value;
    assert line[..|key|] == key && line[|key|] == gap[0];
    IndexAnyAt(line, SEPARATORS, |key|);
  }

  // ---- Which directives apply ----

  predicate Negated(pattern: string) { pattern != "" && pattern[0] == '!' }

  /** A Host line applies when some plain pattern matches and no negated one does, in any order. */
  ghost predicate HostApplies(patterns: seq<string>, alias: string) {
    && (exists p | p in patterns :: !Negated(p) && Matches(p, alias))
    && (forall p | p in patterns && Negated(p) :: !Matches(p[1..], alias))
  }

  /** The loop over one Host line's patterns. */
  method HostLine(value: string, alias: string) returns (applies: bool)
    ensures applies <==> HostApplies(Fields(value), alias)
  {
    var patterns := Fields(value);
    applies := false;
    for i := 0 to |patterns|
      invariant applies <==> exists p | p in patterns[..i] :: !Negated(p) && Matches(p, alias)
      invariant forall p | p in patterns[..i] && Negated(p) :: !Matches(p[1..], alias)
    {
      var pattern := patterns[i];
      assert pattern in patterns && IsWord(pattern);
      assert patterns[..i + 1] == patterns[..i] + [pattern];
      if pattern[0] == '!' {
        var hit := MatchPattern(pattern[1..], alias);
        if hit {
          assert Negated(pattern);
          applies := false;
          return;
        }
        continue;
      }
      var hit := MatchPattern(pattern, alias);
      if hit { applies := true; }
    }
    assert patterns[..|patterns|] == patterns;
  }

  datatype Keyword = Host | Match | HostName | User | Port | IdentityFile | Other

  /** The keywords lookup honours, in any case. */
  function KeywordOf(key: string): Keyword {
    var k := ToLower(key);
    if k == "host" then Host
    else if k == "match" then Match
    else if k == "hostname" then HostName
    else if k == "user" then User
    else if k == "port" then Port
    else if k == "identityfile" then IdentityFile
    else Other
  }

  datatype Setting = Setting(keyword: Keyword, value: string)

  predicate Opens(d: Setting) { d.keyword.Host? || d.keyword.Match? }

  /** The directive before which a Host line that applies is the last one opening a block. */
  ghost predicate Active(ds: seq<Setting>, alias: string, n: nat)
    requires n <= |ds|
  {
    exists h :: OpenedAt(ds, h, n) && ds[h].keyword.Host? && HostApplies(Fields(ds[h].value), alias)
  }

  predicate OpenedAt(ds: seq<Setting>, h: int, n: nat)
    requires n <= |ds|
  {
    0 <= h < n && Opens(ds[h]) && forall j | h < j < n :: !Opens(ds[j])
  }

  lemma ActiveNext(ds: seq<Setting>, alias: string, n: nat)
    requires n < |ds|
    ensures Active(ds, alias, n + 1) <==>
              if ds[n].keyword.Host? then HostApplies(Fields(ds[n].value), alias)
              else !ds[n].keyword.Match? && Active(ds, alias, n)
  {
    if Opens(ds[n]) {
      assert OpenedAt(ds, n, n + 1);
    } else {
      assert forall h :: OpenedAt(ds, h, n + 1) <==> OpenedAt(ds, h, n);
    }
  }

  ghost predicate Supplies(ds: seq<Setting>, alias: string, key: Keyword, i: nat)
    requires i < |ds|
  {
    ds[i].keyword == key && Active(ds, alias, i)
  }

  /** v is the first value obtained among the first n directives, or empty when there is none. */
  ghost predicate FirstObtained(ds: seq<Setting>, n: nat, alias: string, key: Keyword, v: string)
    requires n <= |ds|
  {
    if v == "" then forall i | 0 <= i < n :: !Supplies(ds, alias, key, i)
    else exists i | 0 <= i < n :: Supplies(ds, alias, key, i) && ds[i].value == v
                                  && forall j | 0 <= j < i :: !Supplies(ds, alias, key, j)
  }

  /** Every identity file that applies, in the order written. */
  ghost function Identities(ds: seq<Setting>, n: nat, alias: string, homeKnown: bool): seq<KeyPath>
    requires n <= |ds|
  {
    if n == 0 then []
    else Identities(ds, n - 1, alias, homeKnown) +
         if Supplies(ds, alias, IdentityFile, n - 1) then [ExpandHome(Unquote(ds[n - 1].value), homeKnown)] else []
  }

  // ---- Lookup ----

  datatype HostConfig = HostConfig(hostName: string, user: string, port: string, identityFiles: seq<KeyPath>)

  const NO_CONFIG := HostConfig("", "", "", [])

  ghost predicate Answers(ds: seq<Setting>, n: nat, alias: string, homeKnown: bool, out: HostConfig)
    requires n <= |ds|
  {
    && FirstObtained(ds, n, alias, HostName, out.hostName)
    && FirstObtained(ds, n, alias, User, out.user)
    && FirstObtained(ds, n, alias, Port, out.port)
    && out.identityFiles == Identities(ds, n, alias, homeKnown)
  }

  /** What a line contributes: comments, blank lines and lines without a value contribute nothing. */
  function ReadLine(raw: string): Option<Setting> {
    var line := Trim(raw, SPACES);
    if line == "" || line[0] == '#' then None
    else match SplitDirective(line)
         case Some(d) => Some(Setting(KeywordOf(d.key), d.value))
         case None => None
  }

  function Directives(lines: seq<string>): (ds: seq<Setting>)
    ensures forall d | d in ds :: d.value != ""
  {
    if lines == [] then []
    else
      (match ReadLine(lines[0]) case Some(d) => [d] case None => []) + Directives(lines[1..])
  }

  lemma ObtainedNext(ds: seq<Setting>, n: nat, alias: string, key: Keyword, v: string, applies: bool)
    requires n < |ds| && ds[n].value != "" && FirstObtained(ds, n, alias, key, v)
    requires applies == Active(ds, alias, n)
    ensures FirstObtained(ds, n + 1, alias, key,
                          if applies && ds[n].keyword == key && v == "" then ds[n].value else v)
  {
  }

  lemma AnswersNext(ds: seq<Setting>, n: nat, alias: string, homeKnown: bool, out: HostConfig, applies: bool)
    requires n < |ds| && ds[n].value != "" && Answers(ds, n, alias, homeKnown, out)
    requires applies == Active(ds, alias, n)
    ensures var Setting(keyword, value) := ds[n];
            Answers(ds, n + 1, alias, homeKnown, HostConfig(
              if applies && keyword == HostName && out.hostName == "" then value else out.hostName,
              if applies && keyword == User && out.user == "" then value else out.user,
              if applies && keyword == Port && out.port == "" then value else out.port,
              if applies && keyword == IdentityFile then out.identityFiles + [ExpandHome(Unquote(value), homeKnown)]
              else out.identityFiles))
  {
    hide FirstObtained, Active, ExpandHome, Unquote;
    ObtainedNext(ds, n, alias, HostName, out.hostName, applies);
    ObtainedNext(ds, n, alias, User, out.user, applies);
    ObtainedNext(ds, n, alias, Port, out.port, applies);
    assert out.identityFiles + [] == out.identityFiles;
  }

  lemma NothingYet(ds: seq<Setting>, alias: string, homeKnown: bool)
    ensures !Active(ds, alias, 0) && Answers(ds, 0, alias, homeKnown, NO_CONFIG)
  {
  }

  lemma NextLine(all: seq<string>, k: nat, ds: seq<Setting>, n: nat)
    requires k < |all| && n <= |ds| && ds[n..] == Directives(all[k..])
    ensures match ReadLine(all[k])
            case None => ds[n..] == Directives(all[k + 1..])
            case Some(d) => n < |ds| && ds[n] == d && ds[n + 1..] == Directives(all[k + 1..]) && d.value != ""
  {
    assert all[k..][0] == all[k] && all[k..][1..] == all[k + 1..];
    if d :| ReadLine(all[k]) == Some(d) {
      assert ds[n..][0] == d && ds[n + 1..] == ds[n..][1..];
    }
  }

  /** Looking an alias up; lines is None when there is no file to read. */
  method Lookup(lines: Option<seq<string>>, alias: string, homeKnown: bool) returns (out: HostConfig)
    ensures alias == "" || lines.None? ==> out == NO_CONFIG
    ensures alias != "" && lines.Some? ==>
              var ds := Directives(lines.value);
              Answers(ds, |ds|, HostPart(alias), homeKnown, out)
  {
    hide Active, Answers, ExpandHome, Unquote, KeywordOf, Trim, SplitDirective, HostApplies, Fields;
    out := NO_CONFIG;
    if lines.None? || alias == "" { return; }
    var name := alias;
    var split := SplitHostPort(alias);
    if split.Some? { name := split.value.0; }

    var all := lines.value;
    ghost var ds := Directives(all);
    ghost var n := 0;
    var applies := false;
    assert all[0..] == all;
    NothingYet(ds, name, homeKnown);
    for k := 0 to |all|
      invariant n <= |ds| && ds[n..] == Directives(all[k..])
      invariant applies <==> Active(ds, name, n)
      invariant Answers(ds, n, name, homeKnown, out)
    {
      NextLine(all, k, ds, n);
      var line := Trim(all[k], SPACES);
      if line == "" || line[0] == '#' { continue; }
      var directive := SplitDirective(line);
      if directive.None? { continue; }
      var keyword, value := KeywordOf(directive.value.key), directive.value.value;
      ActiveNext(ds, name, n);
      AnswersNext(ds, n, name, homeKnown, out, applies);
      n := n + 1;
      match keyword {
        case Host => applies := HostLine(value, name);
        case Match => applies := false;
        case HostName => if applies && out.hostName == "" { out := out.(hostName := value); }
        case User => if applies && out.user == "" { out := out.(user := value); }
        case Port => if applies && out.port == "" { out := out.(port := value); }
        case IdentityFile =>
          if applies { out := out.(identityFiles := out.identityFiles + [ExpandHome(Unquote(value), homeKnown)]); }
        case Other =>
      }
    }
  }

  // ---- Earlier lines win ----

  lemma {:induction false} DirectivesConcat(a: seq<string>, b: seq<string>)
    ensures Directives(a + b) == Directives(a) + Directives(b)
  {
    hide ReadLine;
    if a == [] {
      assert a + b == b;
    } else {
      assert (a + b)[1..] == a[1..] + b;
      DirectivesConcat(a[1..], b);
    }
  }

  lemma SuppliesInPrefix(a: seq<Setting>, b: seq<Setting>, alias: string, key: Keyword, i: nat)
    requires i < |a|
    ensures Supplies(a + b, alias, key, i) <==> Supplies(a, alias, key, i)
  {
    hide HostApplies, Fields;
    forall h ensures OpenedAt(a + b, h, i) <==> OpenedAt(a, h, i) {
      assert forall j | 0 <= j < i :: (a + b)[j] == a[j];
    }
  }

  lemma {:induction false} IdentitiesOfPrefix(a: seq<Setting>, b: seq<Setting>, n: nat, alias: string, homeKnown: bool)
    requires n <= |a|
    ensures Identities(a + b, n, alias, homeKnown) == Identities(a, n, alias, homeKnown)
  {
    if n > 0 {
      hide Supplies, ExpandHome, Unquote;
      SuppliesInPrefix(a, b, alias, IdentityFile, n - 1);
      IdentitiesOfPrefix(a, b, n - 1, alias, homeKnown);
    }
  }

  lemma {:induction false} IdentitiesGrow(ds: seq<Setting>, m: nat, n: nat, alias: string, homeKnown: bool)
    requires m <= n <= |ds|
    ensures Identities(ds, m, alias, homeKnown) <= Identities(ds, n, alias, homeKnown)
  {
    if m < n { IdentitiesGrow(ds, m, n - 1, alias, homeKnown); }
  }

  lemma ObtainedStays(a: seq<Setting>, b: seq<Setting>, alias: string, key: Keyword, x: string, y: string)
    requires FirstObtained(a, |a|, alias, key, x) && FirstObtained(a + b, |a + b|, alias, key, y)
    ensures x != "" ==> y == x
  {
    hide Supplies;
    if x != "" {
      forall i: nat | i < |a| ensures Supplies(a + b, alias, key, i) <==> Supplies(a, alias, key, i) {
        SuppliesInPrefix(a, b, alias, key, i);
      }
      var i :| 0 <= i < |a| && Supplies(a, alias, key, i) && a[i].value == x
               && forall j | 0 <= j < i :: !Supplies(a, alias, key, j);
      assert Supplies(a + b, alias, key, i);
    }
  }

  /** Whatever is appended to a file, the values it already gave stand and its identity files come first. */
  lemma EarlierLinesWin(a: seq<string>, b: seq<string>, alias: string, homeKnown: bool, x: HostConfig, y: HostConfig)
    requires Answers(Directives(a), |Directives(a)|, alias, homeKnown, x)
    requires Answers(Directives(a + b), |Directives(a + b)|, alias, homeKnown, y)
    ensures x.hostName != "" ==> y.hostName == x.hostName
    ensures x.user != "" ==> y.user == x.user
    ensures x.port != "" ==> y.port == x.port
    ensures x.identityFiles <= y.identityFiles
  {
    hide FirstObtained, Identities;
    DirectivesConcat(a, b);
    var da, db := Directives(a), Directives(b);
    ObtainedStays(da, db, alias, HostName, x.hostName, y.hostName);
    ObtainedStays(da, db, alias, User, x.user, y.user);
    ObtainedStays(da, db, alias, Port, x.port, y.port);
    IdentitiesOfPrefix(da, db, |da|, alias, homeKnown);
    IdentitiesGrow(da + db, |da|, |da + db|, alias, homeKnown);
  }

  /** Words separated by blanks read back as those words. */
  function Spaced(words: seq<string>): string {
    if words == [] then "" else " " + words[0] + Spaced(words[1..])
  }

  lemma {:induction false} FieldsReadBack(words: seq<string>)
    requires forall w | w in words :: IsWord(w)
    ensures Fields(Spaced(words)) == words
  {
    if words != [] {
      hide *;
      assert words[0] in words;
      FieldsReadBack(words[1..]);
      SpacedStart(words[1..]);
      FirstField(words[0], Spaced(words[1..]));
      assert Spaced(words) == " " + words[0] + Spaced(words[1..]) by { SpacedStart(words); }
      assert words == [words[0]] + words[1..];
    }
  }

  lemma SpacedStart(words: seq<string>)
    ensures words == [] ==> Spaced(words) == ""
    ensures words != [] ==> Spaced(words) == " " + words[0] + Spaced(words[1..]) && Spaced(words)[0] == ' '
  {
  }

  lemma FirstField(w: string, rest: string)
    requires IsWord(w) && (rest == "" || rest[0] == ' ')
    ensures Fields(" " + w + rest) == [w] + Fields(rest)
  {
    hide TrimLeft, IndexAny;
    assert w[0] in w && (w + rest)[0] == w[0] && " " + w + rest == " " + (w + rest);
    TrimLeftDrops(" ", w + rest, SPACES);
    FirstWord(w, rest);
  }

  lemma FirstWord(w: string, rest: string)
    requires IsWord(w) && (rest == "" || rest[0] == ' ')
    ensures IndexAny(w + rest, SPACES) == |w| && (w + rest)[..|w|] == w && (w + rest)[|w|..] == rest
  {
    if rest != "" {
      IndexAnyAt(w + rest, SPACES, |w|);
    } else {
      assert w + rest == w;
      forall j | 0 <= j < |w| ensures w[j] !in SPACES { assert w[j] in w; }
    }
  }

  // ---- Host and port ----

  function LastIndex(s: string, c: char): (i: int)
    ensures -1 <= i < |s| && (i >= 0 ==> s[i] == c)
    ensures forall j | i < j < |s| :: s[j] != c
  {
    if s == "" then -1 else if s[|s| - 1] == c then |s| - 1 else LastIndex(s[..|s| - 1], c)
  }

  function Count(s: string, c: char): nat {
    if s == "" then 0 else (if s[0] == c then 1 else 0) + Count(s[1..], c)
  }

  function SplitHostPort(addr: string): Option<(string, string)> {
    var i := LastIndex(addr, ':');
    if i < 0 || ']' in addr[i + 1..] then None
    else if Count(addr, ':') > 1 && !("[" <= addr) then None
    else Some((Trim(addr[..i], "[]"), addr[i + 1..]))
  }

  function HostPart(alias: string): string {
    match SplitHostPort(alias) case Some(hp) => hp.0 case None => alias
  }

  lemma {:induction false} CountAppend(a: string, b: string, c: char)
    ensures Count(a + b, c) == Count(a, c) + Count(b, c)
  {
    if a == "" {
      assert a + b == b;
    } else {
      assert (a + b)[1..] == a[1..] + b;
      CountAppend(a[1..], b, c);
    }
  }

  lemma {:induction false} CountNone(s: string, c: char)
    ensures Count(s, c) == 0 <==> c !in s
  {
    if s != "" {
      assert s == [s[0]] + s[1..];
      CountNone(s[1..], c);
    }
  }

  lemma LastIndexAt(s: string, c: char, n: nat)
    requires n < |s| && s[n] == c && c !in s[n + 1..]
    ensures LastIndex(s, c) == n
  {
    forall j | n < j < |s| ensures s[j] != c { assert s[j] in s[n + 1..]; }
  }

  lemma LastColon(before: string, after: string)
    requires ':' !in after
    ensures LastIndex(before + ":" + after, ':') == |before|
    ensures (before + ":" + after)[..|before|] == before && (before + ":" + after)[|before| + 1..] == after
  {
    var s := before + ":" + after;
    assert s[|before|] == ':' && s[|before| + 1..] == after;
    hide *;
    LastIndexAt(s, ':', |before|);
  }

  /** host:port splits, and the host comes back whole. */
  lemma PlainHostSplits(host: string, port: string)
    requires ':' !in host && '[' !in host && ']' !in host && ':' !in port && ']' !in port
    ensures SplitHostPort(host + ":" + port) == Some((host, port))
  {
    LastColon(host, port);
    CountAppend(host + ":", port, ':');
    CountAppend(host, ":", ':');
    CountNone(host, ':');
    CountNone(port, ':');
    if host != "" { assert host[0] in host && host[|host| - 1] in host; }
  }

  /** [address]:port splits even though the address has colons, and loses its brackets. */
  lemma BracketedHostSplits(host: string, port: string)
    requires '[' !in host && ']' !in host && ':' !in port && ']' !in port
    ensures SplitHostPort("[" + host + "]:" + port) == Some((host, port))
  {
    var inner := "[" + host + "]";
    assert "[" + host + "]:" + port == inner + ":" + port;
    LastColon(inner, port);
    assert "[" <= inner + ":" + port;
    TrimBrackets(host);
  }

  lemma TrimBrackets(host: string)
    requires '[' !in host && ']' !in host
    ensures Trim("[" + host + "]", "[]") == host
  {
    if host != "" {
      assert host[0] in host && host[|host| - 1] in host;
      TrimLeftDrops("[", host + "]", "[]");
      assert "[" + host + "]" == "[" + (host + "]");
      assert (host + "]")[..|host|] == host && TrimRight(host, "[]") == host;
    } else {
      assert "[" + host + "]" == "[]";
      assert "[]"[1..] == "]" && "]"[1..] == "";
    }
  }

  /** An address with several colons and no opening bracket is left alone, port or not. */
  lemma BareAddressIsLeftAlone(a: string, b: string, c: string)
    requires !("[" <= a + ":" + b + ":" + c)
    ensures SplitHostPort(a + ":" + b + ":" + c).None?
    ensures HostPart(a + ":" + b + ":" + c) == a + ":" + b + ":" + c
  {
    var s := a + ":" + b + ":" + c;
    CountAppend(a + ":" + b + ":", c, ':');
    CountAppend(a + ":" + b, ":", ':');
    CountAppend(a + ":", b, ':');
    CountAppend(a, ":", ':');
  }
}
