/** Rewriting an exported client profile: pins the server identity, sets DNS and routes. */
module HardenProfile {
  import opened Text
  import opened Wrappers

  datatype Lan = NoLan | InvalidLan | NotIPv4 | Network(address: string, netmask: string)

  datatype Policy = FullTunnel | LanOnly | InternetOnly | OtherPolicy

  datatype DnsMode = RouterDns | Cloudflare | OtherDns

  datatype Config = Config(identity: string, lan: Lan, routerDns: string, policy: Policy, dnsMode: DnsMode)

  datatype Error = NoIdentity | BadLan | LanRequired | DnsRequired | NoInlineCa | MissingCredentials

  datatype Result = Ok(profile: string) | Err(error: Error)

  const CA := "<ca>"
  const AUTH := "auth-nocache"
  const PIN := "verify-x509-name "
  const GATEWAY := "redirect-gateway"
  const DNS := "dhcp-option DNS "

  function EffectivePolicy(c: Config): Policy {
    if c.policy == OtherPolicy then FullTunnel else c.policy
  }

  function ConfigError(c: Config): Option<Error> {
    if c.identity == "" then Some(NoIdentity)
    else if c.lan.InvalidLan? || c.lan.NotIPv4? then Some(BadLan)
    else if EffectivePolicy(c) != InternetOnly && c.lan.NoLan? then Some(LanRequired)
    else if c.dnsMode != Cloudflare && c.routerDns == "" then Some(DnsRequired)
    else None
  }

  function Pin(c: Config): string {
    PIN + c.identity + " name"
  }

  function DnsLine(c: Config): string {
    DNS + if c.dnsMode == Cloudflare then "1.1.1.1" else c.routerDns
  }

  function Route(address: string, netmask: string): string {
    "route " + address + " " + netmask
  }

  predicate Kept(lan: Lan, line: string) {
    && !(GATEWAY <= line)
    && !(lan.Network? && line == Route(lan.address, lan.netmask))
    && !(DNS <= line)
    && !(PIN <= line)
  }

  function Filter(lan: Lan, lines: seq<string>): seq<string> {
    if lines == [] then []
    else (if Kept(lan, lines[0]) then [lines[0]] else []) + Filter(lan, lines[1..])
  }

  /** The directives the policy sets; the cache and pin lines are skipped when already there. */
  function Directives(c: Config, lines: seq<string>): seq<string> {
    (if AUTH in lines then [] else [AUTH]) + (if Pin(c) in lines then [] else [Pin(c)]) + Policed(c)
  }

  function Policed(c: Config): seq<string> {
    (if EffectivePolicy(c) != LanOnly then [GATEWAY + " def1"] else [])
    + (if EffectivePolicy(c) != InternetOnly && c.lan.Network? then [Route(c.lan.address, c.lan.netmask)] else [])
    + [DnsLine(c)]
  }

  function Append(header: string, directives: seq<string>): string
    decreases |directives|
  {
    if directives == [] then header else Append(header + "\n" + directives[0], directives[1..])
  }

  /** The stripped header lines, and everything from the inline CA on. */
  datatype Parsed = Parsed(lines: seq<string>, payload: string)

  function Parse(profile: string): Option<Parsed> {
    var text := Normalize(profile);
    var i := FindFrom(text, CA, 0);
    if i < 0 then None
    else Some(Parsed(StripAll(SplitLines(TrimNewlines(text[..i]))), TrimLeadingNewlines(text[i..])))
  }

  function Rewrite(c: Config, p: Parsed): string {
    var kept := Filter(c.lan, p.lines);
    Append(Join(kept), Directives(c, kept)) + "\n" + p.payload
  }

  function Finish(hardened: string): Result {
    if Contains(hardened, CA) && Contains(hardened, "<cert>") && Contains(hardened, "<key>")
    then Ok(TrimNewlines(hardened) + "\n")
    else Err(MissingCredentials)
  }

  function Harden(c: Config, profile: string): Result {
    if ConfigError(c).Some? then Err(ConfigError(c).value)
    else if Parse(profile).None? then Err(NoInlineCa)
    else Finish(Rewrite(c, Parse(profile).value))
  }

  // ----- Validated configuration ---------------------------------------------------------------

  /** Printable text without spaces, as host names and addresses are. */
  predicate Plain(s: string) {
    s != "" && forall k | 0 <= k < |s| :: '!' <= s[k] <= '~' && s[k] != '<'
  }

  predicate Validated(c: Config) {
    && Plain(c.identity)
    && (c.lan.Network? ==> Plain(c.lan.address) && Plain(c.lan.netmask))
    && (c.dnsMode != Cloudflare ==> Plain(c.routerDns))
  }

  /** Directive text: spaces inside, but not at the ends. */
  predicate Inline(s: string) {
    && s != "" && s[0] != ' ' && s[|s| - 1] != ' '
    && forall k | 0 <= k < |s| :: ' ' <= s[k] <= '~' && s[k] != '<'
  }

  lemma {:induction false} InlineIsTidy(s: string)
    requires Inline(s)
    ensures Tidy(s) && NoTag(s, CA)
  {
    StripLeavesTrimmed(s);
    forall i
      ensures !Occurs(s, CA, i)
    {
      InlineHasNoCa(s, i);
    }
  }

  lemma {:induction false} InlineHasNoCa(s: string, i: int)
    requires Inline(s)
    ensures !Occurs(s, CA, i)
  {
    if 0 <= i && i + |CA| <= |s| {
      assert s[i..i + |CA|][0] == s[i] != '<';
    }
  }

  lemma {:induction false} DirectivesAreInline(c: Config, lines: seq<string>)
    requires Validated(c)
    ensures forall d | d in Directives(c, lines) :: Inline(d)
  {
    assert Inline(AUTH);
    assert Inline(Pin(c));
    assert Inline(GATEWAY + " def1");
    assert c.lan.Network? ==> Inline(Route(c.lan.address, c.lan.netmask));
    assert Inline(DnsLine(c));
  }

  // ----- Parsing the output again --------------------------------------------------------------

  lemma {:induction false} TrimCuts(s: string)
    ensures |TrimNewlines(s)| <= |s| && TrimNewlines(s) == s[..|TrimNewlines(s)|]
    ensures forall k | |TrimNewlines(s)| <= k < |s| :: s[k] == '\n'
    ensures TrimNewlines(s) != "" ==> TrimNewlines(s)[|TrimNewlines(s)| - 1] != '\n'
    decreases |s|
  {
    if s != "" && s[|s| - 1] == '\n' {
      var init := s[..|s| - 1];
      TrimCuts(init);
      assert forall k | 0 <= k < |init| :: init[k] == s[k];
    }
  }

  lemma {:induction false} TrimConcat(a: string, b: string)
    requires b != "" && b[0] != '\n'
    ensures TrimNewlines(a + b) == a + TrimNewlines(b)
    ensures TrimNewlines(b) != "" && TrimNewlines(b)[0] == b[0]
    decreases |b|
  {
    var s := a + b;
    if b[|b| - 1] == '\n' {
      assert s[..|s| - 1] == a + b[..|b| - 1];
      TrimConcat(a, b[..|b| - 1]);
    }
  }

  lemma {:induction false} TrimNewlineOff(s: string)
    requires s == "" || s[|s| - 1] != '\n'
    ensures TrimNewlines(s) == s && TrimNewlines(s + "\n") == s
  {
    assert (s + "\n")[..|s + "\n"| - 1] == s;
  }

  lemma {:induction false} ParseShape(profile: string)
    requires Parse(profile).Some?
    ensures AllTidy(Parse(profile).value.lines, CA)
    ensures CA <= Parse(profile).value.payload && '\r' !in Parse(profile).value.payload
  {
    hide Tidy, NoTag, SplitLines, StripAll;
    var text := Normalize(profile);
    var i := FindFrom(text, CA, 0);
    NormalizeLeavesNoReturns(profile);
    FirstPartHasNoTag(text, i);
    TrimCuts(text[..i]);
    var header := TrimNewlines(text[..i]);
    PartHasNoTag(text[..i], CA, 0, |header|);
    assert text[..i][0..|header|] == header;
    SplitLinesAreTidy(header, CA);
    PayloadStartsWithCa(text, i);
    assert forall c | c in text[i..] :: c in text;
  }

  lemma {:induction false} FirstPartHasNoTag(text: string, i: nat)
    requires i <= |text| && forall j | 0 <= j < i :: !Occurs(text, CA, j)
    ensures NoTag(text[..i], CA)
  {
    assert text[0..i] == text[..i];
    forall j
      ensures !Occurs(text[..i], CA, j)
    {
      OccursInPart(text, CA, 0, i, j);
    }
  }

  lemma {:induction false} PayloadStartsWithCa(text: string, i: nat)
    requires Occurs(text, CA, i)
    ensures i <= |text| && TrimLeadingNewlines(text[i..]) == text[i..] && CA <= text[i..]
  {
    assert text[i..][..|CA|] == text[i..i + |CA|];
    assert text[i..][0] == text[i..][..|CA|][0];
  }

  lemma {:induction false} JoinedLines(lines: seq<string>)
    requires lines != [] && forall l | l in lines :: NoBreaks(l)
    ensures '\r' !in Join(lines)
    ensures lines[|lines| - 1] != "" ==> Join(lines) != "" && Join(lines)[|Join(lines)| - 1] != '\n'
  {
    assert lines[0] in lines;
    assert '\r' !in lines[0] && '\n' !in lines[0];
    if |lines| > 1 {
      assert forall l | l in lines[1..] :: l in lines;
      JoinedLines(lines[1..]);
    }
  }

  /** Parsing finds the lines and the payload again. */
  lemma {:induction false} Reparse(lines: seq<string>, payload: string)
    requires lines != [] && lines[|lines| - 1] != "" && AllTidy(lines, CA)
    requires CA <= payload && '\r' !in payload
    ensures Parse(Join(lines) + "\n" + payload) == Some(Parsed(lines, payload))
  {
    hide NoTag, Occurs, Strip, SplitLines, StripAll, FindFrom, Normalize, IsBreak, TrimNewlines, TrimLeadingNewlines, Join;
    var header := Join(lines);
    var s := header + "\n" + payload;
    TidyLines(lines);
    JoinedLines(lines);
    NormalizeIsIdentity(s);
    NoTagInLines(lines, payload, CA);
    assert s[|header| + 1..] == payload && s[..|header| + 1] == header + "\n";
    FoundAt(s, |header| + 1);
    TrimNewlineOff(header);
    SplitJoin(lines);
    StripAllOfTidy(lines, CA);
    PayloadStartsWithCa(s, |header| + 1);
  }

  lemma {:induction false} TidyLines(lines: seq<string>)
    requires AllTidy(lines, CA)
    ensures forall l | l in lines :: NoBreaks(l) && NoTag(l, CA)
  {
  }

  lemma {:induction false} FoundAt(s: string, n: nat)
    requires n <= |s| && CA <= s[n..] && forall i | i < n :: !Occurs(s, CA, i)
    ensures FindFrom(s, CA, 0) == n && Occurs(s, CA, n)
  {
    assert s[n..n + |CA|] == s[n..][..|CA|];
    assert Occurs(s, CA, n);
  }

  // ----- Filtering and joining -----------------------------------------------------------------

  /** Joining nothing is joining one empty line. */
  function OrBlank(lines: seq<string>): seq<string> {
    if lines == [] then [""] else lines
  }

  lemma {:induction false} JoinSnoc(lines: seq<string>, d: string)
    requires lines != []
    ensures Join(lines + [d]) == Join(lines) + "\n" + d
  {
    if |lines| > 1 {
      assert (lines + [d])[1..] == lines[1..] + [d];
      JoinSnoc(lines[1..], d);
    }
  }

  lemma {:induction false} AppendJoins(lines: seq<string>, directives: seq<string>)
    ensures Append(Join(lines), directives) == Join(OrBlank(lines) + directives)
    decreases |directives|
  {
    if directives == [] {
      assert OrBlank(lines) + directives == OrBlank(lines);
    } else {
      JoinSnoc(OrBlank(lines), directives[0]);
      AppendJoins(OrBlank(lines) + [directives[0]], directives[1..]);
      assert OrBlank(lines) + directives == OrBlank(lines) + [directives[0]] + directives[1..];
    }
  }

  lemma {:induction false} FilterConcat(lan: Lan, a: seq<string>, b: seq<string>)
    ensures Filter(lan, a + b) == Filter(lan, a) + Filter(lan, b)
  {
    hide Kept;
    if a == [] {
      assert a + b == b;
    } else {
      assert (a + b)[1..] == a[1..] + b;
      FilterConcat(lan, a[1..], b);
    }
  }

  lemma {:induction false} FilterKeeps(lan: Lan, lines: seq<string>)
    ensures forall l | l in Filter(lan, lines) :: Kept(lan, l) && l in lines
  {
    hide Kept;
    if lines != [] {
      FilterKeeps(lan, lines[1..]);
      assert forall l | l in lines[1..] :: l in lines;
    }
  }

  lemma {:induction false} FilterOfKept(lan: Lan, lines: seq<string>)
    requires forall l | l in lines :: Kept(lan, l)
    ensures Filter(lan, lines) == lines
  {
    hide Kept;
    if lines != [] {
      assert lines[0] in lines;
      assert forall l | l in lines[1..] :: l in lines;
      FilterOfKept(lan, lines[1..]);
    }
  }

  lemma {:induction false} FilterOfDropped(lan: Lan, lines: seq<string>)
    requires forall l | l in lines :: !Kept(lan, l)
    ensures Filter(lan, lines) == []
  {
    hide Kept;
    if lines != [] {
      assert lines[0] in lines;
      assert forall l | l in lines[1..] :: l in lines;
      FilterOfDropped(lan, lines[1..]);
    }
  }

  lemma {:induction false} PolicedIsDropped(c: Config)
    ensures forall d | d in [Pin(c)] + Policed(c) :: !Kept(c.lan, d)
  {
    assert PIN <= Pin(c);
    assert GATEWAY <= GATEWAY + " def1";
    assert DNS <= DnsLine(c);
  }

  lemma {:induction false} AuthIsKept(lan: Lan)
    ensures Kept(lan, AUTH) && Kept(lan, "")
  {
    assert AUTH[0] == 'a' && GATEWAY[0] == 'r' && DNS[0] == 'd' && PIN[0] == 'v';
    if lan.Network? {
      assert Route(lan.address, lan.netmask)[0] == 'r';
    }
  }

  /** The lines of a hardened header: what is kept, then the directives. */
  function Lines(c: Config, lines: seq<string>): seq<string> {
    var kept := Filter(c.lan, lines);
    OrBlank(kept) + Directives(c, kept)
  }

  lemma {:induction false} RewriteJoins(c: Config, p: Parsed)
    ensures Rewrite(c, p) == Join(Lines(c, p.lines)) + "\n" + p.payload
  {
    hide Directives, Join, Filter;
    AppendJoins(Filter(c.lan, p.lines), Directives(c, Filter(c.lan, p.lines)));
  }

  lemma {:induction false} PinIsMissing(c: Config, lines: seq<string>)
    requires forall l | l in lines :: Kept(c.lan, l)
    ensures Pin(c) !in lines
  {
    assert PIN <= Pin(c);
  }

  function Auth(lines: seq<string>): seq<string> {
    if AUTH in lines then [] else [AUTH]
  }

  lemma {:induction false} DirectivesOfKept(c: Config, lines: seq<string>)
    requires forall l | l in lines :: Kept(c.lan, l)
    ensures Directives(c, lines) == Auth(lines) + ([Pin(c)] + Policed(c))
  {
    hide Policed, Pin, Kept;
    PinIsMissing(c, lines);
  }

  /** Hardening again drops the earlier directives but the cache one. */
  lemma {:induction false} FilterOfLines(a: Config, lines: seq<string>)
    ensures Filter(a.lan, Lines(a, lines)) == OrBlank(Filter(a.lan, lines)) + Auth(Filter(a.lan, lines))
  {
    hide Policed, Pin, Kept, Filter;
    var kept := Filter(a.lan, lines);
    FilterKeeps(a.lan, lines);
    DirectivesOfKept(a, kept);
    AuthIsKept(a.lan);
    var first := OrBlank(kept) + Auth(kept);
    FilterOfKept(a.lan, first);
    PolicedIsDropped(a);
    FilterOfDropped(a.lan, [Pin(a)] + Policed(a));
    FilterConcat(a.lan, first, [Pin(a)] + Policed(a));
    assert Lines(a, lines) == first + ([Pin(a)] + Policed(a));
    assert first + [] == first;
  }

  lemma {:induction false} LinesOfLines(a: Config, b: Config, lines: seq<string>)
    requires a.lan == b.lan
    ensures Lines(b, Lines(a, lines)) == Lines(b, lines)
  {
    hide Policed, Pin, Kept, Filter;
    var kept := Filter(a.lan, lines);
    FilterOfLines(a, lines);
    FilterKeeps(a.lan, lines);
    AuthIsKept(a.lan);
    var first := OrBlank(kept) + Auth(kept);
    DirectivesOfKept(b, kept);
    DirectivesOfKept(b, first);
    assert AUTH in first;
    var policed := [Pin(b)] + Policed(b);
    assert Lines(b, Lines(a, lines)) == first + ([] + policed);
    assert first + policed == OrBlank(kept) + (Auth(kept) + policed);
  }

  lemma {:induction false} LinesAreTidy(c: Config, lines: seq<string>)
    requires Validated(c) && AllTidy(lines, CA)
    ensures Lines(c, lines) != [] && Lines(c, lines)[|Lines(c, lines)| - 1] == DnsLine(c) != ""
    ensures AllTidy(Lines(c, lines), CA)
  {
    hide Tidy, NoTag, Kept, Filter, Pin, Route, Inline;
    var kept := Filter(c.lan, lines);
    FilterKeeps(c.lan, lines);
    DirectivesAreInline(c, kept);
    forall l | l in Lines(c, lines)
      ensures Tidy(l) && NoTag(l, CA)
    {
      if l in Directives(c, kept) {
        InlineIsTidy(l);
      } else if l !in kept {
        BlankIsTidy();
      }
    }
  }

  lemma {:induction false} BlankIsTidy()
    ensures Tidy("") && NoTag("", CA)
  {
  }

  // ----- The finished text ---------------------------------------------------------------------

  lemma {:induction false} ContainsTrimmed(s: string, tag: string)
    requires tag != "" && '\n' !in tag
    ensures Contains(s, tag) <==> Contains(TrimNewlines(s), tag)
  {
    TrimCuts(s);
    var t := TrimNewlines(s);
    assert s[0..|t|] == t;
    forall i
      ensures Occurs(s, tag, i) <==> Occurs(t, tag, i)
    {
      OccursTrimmed(s, tag, i);
    }
  }

  lemma {:induction false} OccursTrimmed(s: string, tag: string, i: int)
    requires tag != "" && '\n' !in tag
    ensures Occurs(s, tag, i) <==> Occurs(TrimNewlines(s), tag, i)
  {
    TrimCuts(s);
    var t := TrimNewlines(s);
    assert s[0..|t|] == t;
    OccursInPart(s, tag, 0, |t|, i);
    if Occurs(s, tag, i) {
      assert s[i..i + |tag|][|tag| - 1] == s[i + |tag| - 1] == tag[|tag| - 1];
      assert i + |tag| <= |t|;
      assert t[i..i + |tag|] == s[i..i + |tag|];
    }
  }

  lemma {:induction false} FinishTrims(s: string, s': string)
    requires TrimNewlines(s) == TrimNewlines(s')
    ensures Finish(s) == Finish(s')
  {
    hide Contains, TrimNewlines;
    forall tag | tag in {CA, "<cert>", "<key>"}
      ensures Contains(s, tag) <==> Contains(s', tag)
    {
      ContainsTrimmed(s, tag);
      ContainsTrimmed(s', tag);
    }
  }

  /** What a hardened profile consists of, and that parsing it gives these parts back. */
  lemma {:induction false} Hardened(c: Config, profile: string)
    requires Validated(c) && Harden(c, profile).Ok?
    ensures Parse(profile).Some?
    ensures var p := Parse(profile).value; var payload := TrimNewlines(p.payload) + "\n";
            && Harden(c, profile).profile == Join(Lines(c, p.lines)) + "\n" + payload
            && Parse(Harden(c, profile).profile) == Some(Parsed(Lines(c, p.lines), payload))
  {
    hide Lines, Join, Rewrite, Contains, Parse, TrimNewlines, AllTidy, DnsLine;
    var p := Parse(profile).value;
    ParseShape(profile);
    RewriteJoins(c, p);
    LinesAreTidy(c, p.lines);
    TrimConcat(Join(Lines(c, p.lines)) + "\n", p.payload);
    TrimmedPayload(p.payload);
    Reparse(Lines(c, p.lines), TrimNewlines(p.payload) + "\n");
    assert Join(Lines(c, p.lines)) + "\n" + TrimNewlines(p.payload) + "\n"
        == Join(Lines(c, p.lines)) + "\n" + (TrimNewlines(p.payload) + "\n");
  }

  lemma {:induction false} TrimmedPayload(payload: string)
    requires CA <= payload && '\r' !in payload
    ensures payload != "" && payload[0] != '\n'
    ensures CA <= TrimNewlines(payload) + "\n" && '\r' !in TrimNewlines(payload) + "\n"
    ensures TrimNewlines(TrimNewlines(payload) + "\n") == TrimNewlines(payload)
  {
    assert payload[0] == CA[0];
    TrimCuts(payload);
    var t := TrimNewlines(payload);
    assert payload[3] == CA[3] != '\n';
    assert |t| >= 4;
    assert CA <= t;
    TrimNewlineOff(t);
  }

  /** The last policy wins: hardening under a and then under b is hardening under b alone, for the
      same LAN, whatever else differs. */
  lemma {:induction false} LastPolicyWins(a: Config, b: Config, profile: string)
    requires Validated(a) && a.lan == b.lan
    ensures Harden(a, profile).Ok? ==> Harden(b, Harden(a, profile).profile) == Harden(b, profile)
  {
    hide Lines, Join, Rewrite, Parse, TrimNewlines, AllTidy, Finish, Directives, Filter;
    if Harden(a, profile).Ok? {
      Hardened(a, profile);
      ParseShape(profile);
      var p := Parse(profile).value;
      var payload := TrimNewlines(p.payload) + "\n";
      var q := Parsed(Lines(a, p.lines), payload);
      LinesOfLines(a, b, p.lines);
      RewriteJoins(b, q);
      RewriteJoins(b, p);
      var header := Join(Lines(b, p.lines)) + "\n";
      TrimmedPayload(p.payload);
      TrimConcat(header, p.payload);
      TrimConcat(header, payload);
      FinishTrims(Rewrite(b, q), Rewrite(b, p));
    }
  }

  lemma {:induction false} Idempotent(c: Config, profile: string)
    requires Validated(c)
    ensures Harden(c, profile).Ok? ==> Harden(c, Harden(c, profile).profile) == Harden(c, profile)
  {
    hide *;
    LastPolicyWins(c, c, profile);
  }

  function Starting(lines: seq<string>, prefix: string): seq<string> {
    if lines == [] then []
    else (if prefix <= lines[0] then [lines[0]] else []) + Starting(lines[1..], prefix)
  }

  lemma {:induction false} StartingConcat(a: seq<string>, b: seq<string>, prefix: string)
    ensures Starting(a + b, prefix) == Starting(a, prefix) + Starting(b, prefix)
  {
    if a == [] {
      assert a + b == b;
    } else {
      assert (a + b)[1..] == a[1..] + b;
      StartingConcat(a[1..], b, prefix);
    }
  }

  lemma {:induction false} NoneStarting(lines: seq<string>, prefix: string)
    requires forall l | l in lines :: !(prefix <= l)
    ensures Starting(lines, prefix) == []
  {
    if lines != [] {
      assert lines[0] in lines;
      assert forall l | l in lines[1..] :: l in lines;
      NoneStarting(lines[1..], prefix);
    }
  }

  /** The hardened header carries exactly one identity pin and one DNS line, those of the
      configuration, the redirection as the policy says, and the payload is the input's up to
      trailing newlines. */
  lemma {:induction false} OnePinAndOneDns(c: Config, profile: string)
    requires Validated(c) && Harden(c, profile).Ok?
    ensures Parse(profile).Some? && Parse(Harden(c, profile).profile).Some?
    ensures var out := Parse(Harden(c, profile).profile).value;
            && Starting(out.lines, PIN) == [Pin(c)]
            && Starting(out.lines, DNS) == [DnsLine(c)]
            && Starting(out.lines, GATEWAY) == (if EffectivePolicy(c) == LanOnly then [] else [GATEWAY + " def1"])
            && AUTH in out.lines
            && out.payload == TrimNewlines(Parse(profile).value.payload) + "\n"
  {
    hide Parse, Harden, TrimNewlines, Join, Filter, Pin, DnsLine, Validated;
    Hardened(c, profile);
    var lines := Parse(profile).value.lines;
    var kept := Filter(c.lan, lines);
    FilterKeeps(c.lan, lines);
    DirectivesOfKept(c, kept);
    KeptStartsNone(c.lan, OrBlank(kept) + Auth(kept));
    var tail := [Pin(c)] + Policed(c);
    assert Lines(c, lines) == OrBlank(kept) + Auth(kept) + tail;
    forall prefix | prefix in {PIN, DNS, GATEWAY}
      ensures Starting(Lines(c, lines), prefix) == Starting(tail, prefix)
    {
      StartingConcat(OrBlank(kept) + Auth(kept), tail, prefix);
    }
    StartingPoliced(c);
    assert AUTH in OrBlank(kept) + Auth(kept);
  }

  lemma {:induction false} KeptStartsNone(lan: Lan, lines: seq<string>)
    requires forall l | l in lines :: Kept(lan, l) || l == "" || l == AUTH
    ensures forall prefix | prefix in {PIN, DNS, GATEWAY} :: Starting(lines, prefix) == []
  {
    AuthIsKept(lan);
    forall prefix | prefix in {PIN, DNS, GATEWAY}
      ensures Starting(lines, prefix) == []
    {
      NoneStarting(lines, prefix);
    }
  }

  lemma {:induction false} StartingOne(l: string, prefix: string)
    ensures Starting([l], prefix) == if prefix <= l then [l] else []
  {
    assert Starting([l][1..], prefix) == [];
  }

  /** Which of the looked-for prefixes each directive starts with. */
  lemma {:induction false} DirectivePrefixes(c: Config)
    ensures PIN <= Pin(c) && !(DNS <= Pin(c)) && !(GATEWAY <= Pin(c))
    ensures DNS <= DnsLine(c) && !(PIN <= DnsLine(c)) && !(GATEWAY <= DnsLine(c))
    ensures GATEWAY <= GATEWAY + " def1" && !(PIN <= GATEWAY + " def1") && !(DNS <= GATEWAY + " def1")
    ensures forall address, netmask :: !(PIN <= Route(address, netmask)) && !(DNS <= Route(address, netmask))
                                      && !(GATEWAY <= Route(address, netmask))
  {
    assert PIN[0] == 'v' && DNS[0] == 'd' && GATEWAY[0] == 'r' && GATEWAY[1] == 'e';
    assert Pin(c)[0] == PIN[0] && DnsLine(c)[0] == DNS[0] && (GATEWAY + " def1")[0] == 'r';
    forall address, netmask
      ensures !(PIN <= Route(address, netmask)) && !(DNS <= Route(address, netmask)) && !(GATEWAY <= Route(address, netmask))
    {
      assert Route(address, netmask)[0] == 'r' && Route(address, netmask)[1] == 'o';
    }
  }

  lemma {:induction false} StartingPolicedWith(c: Config, prefix: string)
    requires forall address, netmask :: !(prefix <= Route(address, netmask))
    ensures Starting([Pin(c)] + Policed(c), prefix)
            == (if prefix <= Pin(c) then [Pin(c)] else [])
               + (if EffectivePolicy(c) != LanOnly && prefix <= GATEWAY + " def1" then [GATEWAY + " def1"] else [])
               + (if prefix <= DnsLine(c) then [DnsLine(c)] else [])
  {
    hide Pin, Route, DnsLine, Starting;
    var gateway := if EffectivePolicy(c) != LanOnly then [GATEWAY + " def1"] else [];
    var route := if EffectivePolicy(c) != InternetOnly && c.lan.Network? then [Route(c.lan.address, c.lan.netmask)] else [];
    assert [Pin(c)] + Policed(c) == [Pin(c)] + (gateway + (route + [DnsLine(c)]));
    StartingConcat([Pin(c)], gateway + (route + [DnsLine(c)]), prefix);
    StartingConcat(gateway, route + [DnsLine(c)], prefix);
    StartingConcat(route, [DnsLine(c)], prefix);
    StartingOne(Pin(c), prefix);
    StartingOne(GATEWAY + " def1", prefix);
    StartingOne(DnsLine(c), prefix);
    NoneStarting(route, prefix);
    NoneStarting([], prefix);
  }

  lemma {:induction false} StartingPoliced(c: Config)
    ensures Starting([Pin(c)] + Policed(c), PIN) == [Pin(c)]
    ensures Starting([Pin(c)] + Policed(c), DNS) == [DnsLine(c)]
    ensures Starting([Pin(c)] + Policed(c), GATEWAY)
            == if EffectivePolicy(c) == LanOnly then [] else [GATEWAY + " def1"]
  {
    hide Pin, Route, DnsLine, Starting, Policed;
    DirectivePrefixes(c);
    StartingPolicedWith(c, PIN);
    StartingPolicedWith(c, DNS);
    StartingPolicedWith(c, GATEWAY);
  }

  /** The LAN route is there exactly when the policy sends LAN traffic through the tunnel, even if
      the exported profile had it already. */
  lemma {:induction false} RouteAsPolicySays(c: Config, profile: string)
    requires Validated(c) && c.lan.Network?
    ensures Harden(c, profile).Ok? ==>
              && Parse(Harden(c, profile).profile).Some?
              && (Route(c.lan.address, c.lan.netmask) in Parse(Harden(c, profile).profile).value.lines
                  <==> EffectivePolicy(c) != InternetOnly)
  {
    hide Parse, Harden, TrimNewlines, Join, Filter, Pin, DnsLine, Validated, Route;
    if Harden(c, profile).Err? {
      return;
    }
    Hardened(c, profile);
    var lines := Parse(profile).value.lines;
    var kept := Filter(c.lan, lines);
    var route := Route(c.lan.address, c.lan.netmask);
    FilterKeeps(c.lan, lines);
    DirectivesOfKept(c, kept);
    DirectivePrefixes(c);
    RouteIsNotPlain(c.lan);
    assert Lines(c, lines) == OrBlank(kept) + Auth(kept) + ([Pin(c)] + Policed(c));
    assert route !in OrBlank(kept) + Auth(kept);
    assert route in [Pin(c)] + Policed(c) <==> EffectivePolicy(c) != InternetOnly;
  }

  lemma {:induction false} RouteIsNotPlain(lan: Lan)
    requires lan.Network?
    ensures Route(lan.address, lan.netmask) != "" && Route(lan.address, lan.netmask) != AUTH
  {
    assert Route(lan.address, lan.netmask)[0] == 'r' && AUTH[0] == 'a';
  }

  // ----- What becomes of every line --------------------------------------------------------------

  /** A header line that hardening has no business with. */
  predicate Foreign(lan: Lan, line: string) {
    && !("redirect-gateway" <= line) && !("dhcp-option DNS " <= line) && !("verify-x509-name " <= line)
    && (lan.Network? ==> line != "route " + lan.address + " " + lan.netmask)
  }

  /** The positions of the foreign lines from a position on, all of them and in order. */
  ghost predicate Positions(lan: Lan, lines: seq<string>, start: nat, at: seq<nat>) {
    && (forall k | 0 <= k < |at| :: start <= at[k] < |lines| && Foreign(lan, lines[at[k]]))
    && (forall k, l | 0 <= k < l < |at| :: at[k] < at[l])
    && forall i: nat | start <= i < |lines| && Foreign(lan, lines[i]) :: i in at
  }

  lemma {:induction false} ForeignIsKept(lan: Lan, line: string)
    ensures Foreign(lan, line) <==> Kept(lan, line)
  {
    if lan.Network? {
      assert Route(lan.address, lan.netmask) == "route " + lan.address + " " + lan.netmask;
    }
  }

  lemma {:induction false} FilterPositions(lan: Lan, lines: seq<string>, start: nat) returns (at: seq<nat>)
    requires start <= |lines|
    ensures Positions(lan, lines, start, at)
    ensures |Filter(lan, lines[start..])| == |at|
    ensures forall k | 0 <= k < |at| :: at[k] < |lines| && Filter(lan, lines[start..])[k] == lines[at[k]]
    decreases |lines| - start
  {
    hide Foreign, Kept, Positions;
    if start == |lines| {
      at := [];
      NoPositions(lan, lines);
    } else {
      var rest := FilterPositions(lan, lines, start + 1);
      var line := lines[start];
      ForeignIsKept(lan, line);
      assert lines[start..][0] == line && lines[start..][1..] == lines[start + 1..];
      var tail := Filter(lan, lines[start + 1..]);
      if Kept(lan, line) {
        at := [start] + rest;
        assert Filter(lan, lines[start..]) == [line] + tail;
      } else {
        at := rest;
        assert Filter(lan, lines[start..]) == [] + tail;
      }
      OneMorePosition(lan, lines, start, rest);
    }
  }

  lemma {:induction false} NoPositions(lan: Lan, lines: seq<string>)
    ensures Positions(lan, lines, |lines|, [])
  {
  }

  lemma {:induction false} OneMorePosition(lan: Lan, lines: seq<string>, start: nat, rest: seq<nat>)
    requires start < |lines| && Positions(lan, lines, start + 1, rest)
    ensures Foreign(lan, lines[start]) ==> Positions(lan, lines, start, [start] + rest)
    ensures !Foreign(lan, lines[start]) ==> Positions(lan, lines, start, rest)
  {
    hide Foreign;
  }

  /** The directives of a policy, written out. */
  function Added(c: Config, cached: bool): seq<string> {
    (if cached then [] else ["auth-nocache"])
    + ["verify-x509-name " + c.identity + " name"]
    + (if c.policy == LanOnly then [] else ["redirect-gateway def1"])
    + (if c.policy == InternetOnly || !c.lan.Network? then [] else ["route " + c.lan.address + " " + c.lan.netmask])
    + ["dhcp-option DNS " + if c.dnsMode == Cloudflare then "1.1.1.1" else c.routerDns]
  }

  /** A hardened header is the foreign lines of the exported one, all of them, in order and as often
      as they were there, or a blank line if there are none; and then the policy's directives. */
  lemma {:induction false} HeaderIsPreserved(c: Config, profile: string) returns (at: seq<nat>)
    requires Validated(c) && Harden(c, profile).Ok?
    ensures Parse(profile).Some? && Parse(Harden(c, profile).profile).Some?
    ensures var lines, out := Parse(profile).value.lines, Parse(Harden(c, profile).profile).value.lines;
            var first := if at == [] then 1 else |at|;
            && Positions(c.lan, lines, 0, at) && |out| >= first
            && (forall k | 0 <= k < |at| :: out[k] == lines[at[k]])
            && (at == [] ==> out[0] == "")
            && out[first..] == Added(c, "auth-nocache" in lines)
  {
    hide Parse, Harden, TrimNewlines, Join, Filter, Validated, Positions, Kept, Added, Pin, Policed;
    Hardened(c, profile);
    var lines := Parse(profile).value.lines;
    at := FilterPositions(c.lan, lines, 0);
    assert lines[0..] == lines;
    var kept := Filter(c.lan, lines);
    FilterKeeps(c.lan, lines);
    DirectivesOfKept(c, kept);
    AuthKeepsItsPlace(c.lan, lines);
    DirectivesSpelledOut(c, lines);
    var out := Lines(c, lines);
    var first := if at == [] then 1 else |at|;
    assert |OrBlank(kept)| == first;
    assert Auth(kept) == Auth(lines);
    HeadAndTail(OrBlank(kept), Added(c, AUTH in lines), out);
  }

  lemma {:induction false} AuthKeepsItsPlace(lan: Lan, lines: seq<string>)
    ensures AUTH in Filter(lan, lines) <==> AUTH in lines
  {
    hide Kept;
    AuthIsKept(lan);
    if lines != [] {
      AuthKeepsItsPlace(lan, lines[1..]);
      assert lines == [lines[0]] + lines[1..];
    }
  }

  lemma {:induction false} HeadAndTail(head: seq<string>, tail: seq<string>, whole: seq<string>)
    requires whole == head + tail
    ensures whole[..|head|] == head && whole[|head|..] == tail
  {
  }

  lemma {:induction false} DirectivesSpelledOut(c: Config, lines: seq<string>)
    ensures Auth(lines) + ([Pin(c)] + Policed(c)) == Added(c, AUTH in lines)
    ensures AUTH == "auth-nocache"
  {
    assert GATEWAY + " def1" == "redirect-gateway def1";
  }
}
