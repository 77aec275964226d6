/**
  The spiffe-helper configuration file: its renderer, a parser written independently of it, and
  the round trip between them, which makes rendering injective up to mode normalisation.
 */
module HelperConf {
  import opened Text
  import opened FileModes

  datatype Config = Config(
    agentAddress: string,
    certDir: string,
    jwtAudience: string,
    jwtExtraAudiences: seq<string>,
    jwtSvidFileName: string,
    jwtSvidFileMode: string)

  datatype ConfError = NoAgentAddress | NoCertDir | NoAudience | NoFileName | BadFileMode

  datatype Rendered = Ok(text: string) | Err(error: ConfError)

  /* ---------- quoting ---------- */

  function HexDigit(n: nat): char
    requires n < 16
  {
    if n < 10 then ('0' as int + n) as char else ('a' as int + (n - 10)) as char
  }

  function HexValue(c: char): Option<nat>
  {
    if '0' <= c <= '9' then Some(c as int - '0' as int)
    else if 'a' <= c <= 'f' then Some(c as int - 'a' as int + 10)
    else None
  }

  /** The letter after the backslash for characters with a short escape. */
  function ShortEscape(c: char): Option<char>
  {
    if c == '\"' then Some('\"')
    else if c == '\\' then Some('\\')
    else if c == '\n' then Some('n')
    else if c == '\r' then Some('r')
    else if c == '\t' then Some('t')
    else if c as int == 7 then Some('a')
    else if c as int == 8 then Some('b')
    else if c as int == 11 then Some('v')
    else if c as int == 12 then Some('f')
    else None
  }

  predicate NeedsHex(c: char) { c as int < 0x20 || c as int == 0x7f }

  function EscapeChar(c: char): (r: string)
    ensures r != ""
  {
    if ShortEscape(c).Some? then ['\\', ShortEscape(c).value]
    else if NeedsHex(c) then ['\\', 'x', HexDigit(c as int / 16), HexDigit(c as int % 16)]
    else [c]
  }

  function Escape(s: string): string
  {
    if s == "" then "" else EscapeChar(s[0]) + Escape(s[1..])
  }

  function Quote(s: string): string { "\"" + (Escape(s) + "\"") }

  lemma {:induction false} EscapeLength(s: string)
    ensures |Escape(s)| <= 4 * |s|
  {
    if s != "" {
      EscapeLength(s[1..]);
    }
  }

  /* ---------- rendering ---------- */

  /** HCL reads a number without a leading zero as decimal, so one is added. */
  function NormalMode(mode: string): string
  {
    if mode != "" && mode[0] != '0' then "0" + mode else mode
  }

  function QuoteAll(xs: seq<string>): (r: seq<string>)
    ensures |r| == |xs| && forall i :: 0 <= i < |xs| ==> r[i] == Quote(xs[i])
  {
    seq(|xs|, i requires 0 <= i < |xs| => Quote(xs[i]))
  }

  const AGENT := "agent_address = "
  const CERT_DIR := "\ncert_dir = "
  const AUDIENCE := "\njwt_svids = [{jwt_audience = "
  const EXTRAS := ", jwt_extra_audiences = ["
  const FILE_NAME := "], jwt_svid_file_name = "
  const CLOSE := "}]"
  const FILE_MODE := "\njwt_svid_file_mode = "

  function ModeLine(mode: string): string { (if mode == "" then "" else FILE_MODE + mode) + "\n" }

  function NamePart(c: Config): string
  {
    FILE_NAME + (Quote(c.jwtSvidFileName) + (CLOSE + ModeLine(NormalMode(c.jwtSvidFileMode))))
  }

  function ExtrasPart(c: Config): string { EXTRAS + (Join(QuoteAll(c.jwtExtraAudiences), ", ") + NamePart(c)) }
  function AudiencePart(c: Config): string { AUDIENCE + (Quote(c.jwtAudience) + ExtrasPart(c)) }
  function CertDirPart(c: Config): string { CERT_DIR + (Quote(c.certDir) + AudiencePart(c)) }
  function ConfText(c: Config): string { AGENT + (Quote(c.agentAddress) + CertDirPart(c)) }

  function Render(c: Config): Rendered
  {
    if c.agentAddress == "" then Err(NoAgentAddress)
    else if c.certDir == "" then Err(NoCertDir)
    else if c.jwtAudience == "" then Err(NoAudience)
    else if c.jwtSvidFileName == "" then Err(NoFileName)
    else if c.jwtSvidFileMode != "" && !MatchesModePattern(c.jwtSvidFileMode) then Err(BadFileMode)
    else Ok(ConfText(c))
  }

  /** What is wrong with a configuration, and the order in which faults are looked for. */
  predicate Fault(c: Config, e: ConfError)
  {
    match e
    case NoAgentAddress => c.agentAddress == ""
    case NoCertDir => c.certDir == ""
    case NoAudience => c.jwtAudience == ""
    case NoFileName => c.jwtSvidFileName == ""
    case BadFileMode => c.jwtSvidFileMode != "" && !MatchesModePattern(c.jwtSvidFileMode)
  }

  function Rank(e: ConfError): nat
  {
    match e
    case NoAgentAddress => 0
    case NoCertDir => 1
    case NoAudience => 2
    case NoFileName => 3
    case BadFileMode => 4
  }

  /** Rendering fails exactly on a faulty configuration, and reports its first fault. */
  lemma ErrorIsFirstFault(c: Config, e: ConfError)
    ensures Render(c) == Err(e) <==> Fault(c, e) && forall d :: Fault(c, d) ==> Rank(e) <= Rank(d)
    ensures Render(c).Ok? <==> forall d :: !Fault(c, d)
  {
    hide ConfText, MatchesModePattern;
    forall d | Fault(c, d) ensures Render(c).Err? && Rank(Render(c).error) <= Rank(d) {
    }
    if Render(c).Err? {
      assert Fault(c, Render(c).error);
    }
  }

  /** Printable ASCII without quotes and backslashes, as paths, names and URLs are. */
  predicate Plain(s: string)
  {
    forall i :: 0 <= i < |s| ==> ' ' <= s[i] <= '~' && s[i] != '\"' && s[i] != '\\'
  }

  predicate AllPlain(xs: seq<string>)
  {
    forall i :: 0 <= i < |xs| ==> Plain(xs[i])
  }

  function InQuotes(s: string): string { "\"" + s + "\"" }

  function AllInQuotes(xs: seq<string>): (r: seq<string>)
    ensures |r| == |xs| && forall i :: 0 <= i < |xs| ==> r[i] == InQuotes(xs[i])
  {
    seq(|xs|, i requires 0 <= i < |xs| => InQuotes(xs[i]))
  }

  lemma {:induction false} EscapePlain(s: string)
    requires Plain(s)
    ensures Escape(s) == s
  {
    if s != "" {
      assert Plain(s[1..]);
      EscapePlain(s[1..]);
      assert EscapeChar(s[0]) == [s[0]] && [s[0]] + s[1..] == s;
    }
  }

  lemma QuotePlain(s: string)
    requires Plain(s)
    ensures Quote(s) == InQuotes(s)
  {
    EscapePlain(s);
  }

  lemma QuoteAllPlain(xs: seq<string>)
    requires AllPlain(xs)
    ensures QuoteAll(xs) == AllInQuotes(xs)
  {
    hide Quote, InQuotes, Plain;
    forall i | 0 <= i < |xs| ensures Quote(xs[i]) == InQuotes(xs[i]) {
      QuotePlain(xs[i]);
    }
  }

  /** The text a file with plain fields has, line by line. */
  function PlainText(c: Config): string
  {
    var mode := if c.jwtSvidFileMode == "" then "" else "\njwt_svid_file_mode = " + FourDigits(c.jwtSvidFileMode);
    "agent_address = " + (InQuotes(c.agentAddress)
    + ("\ncert_dir = " + (InQuotes(c.certDir)
    + ("\njwt_svids = [{jwt_audience = " + (InQuotes(c.jwtAudience)
    + (", jwt_extra_audiences = [" + (Join(AllInQuotes(c.jwtExtraAudiences), ", ")
    + ("], jwt_svid_file_name = " + (InQuotes(c.jwtSvidFileName) + ("}]" + (mode + "\n")))))))))))
  }

  function FourDigits(mode: string): string { if |mode| == 3 && mode[0] != '0' then "0" + mode else mode }

  lemma ModeSpelled(mode: string)
    requires mode == "" || MatchesModePattern(mode)
    ensures ModeLine(NormalMode(mode))
            == (if mode == "" then "" else "\njwt_svid_file_mode = " + FourDigits(mode)) + "\n"
  {
    hide AllOctal;
  }

  /** With plain fields the file is exactly these lines. */
  lemma PlainRendered(c: Config)
    requires Render(c).Ok? && AllPlain([c.agentAddress, c.certDir, c.jwtAudience, c.jwtSvidFileName])
    requires AllPlain(c.jwtExtraAudiences)
    ensures Render(c).text == PlainText(c)
  {
    var fields := [c.agentAddress, c.certDir, c.jwtAudience, c.jwtSvidFileName];
    assert Plain(fields[0]) && Plain(fields[1]) && Plain(fields[2]) && Plain(fields[3]);
    QuotePlain(c.agentAddress);
    QuotePlain(c.certDir);
    QuotePlain(c.jwtAudience);
    QuotePlain(c.jwtSvidFileName);
    QuoteAllPlain(c.jwtExtraAudiences);
    ModeSpelled(c.jwtSvidFileMode);
    hide Quote, Plain, Join, NormalMode, ModeLine, MatchesModePattern, FourDigits, InQuotes;
  }

  /** Escaping at most quadruples a field, so a configuration is never much longer than its fields. */
  lemma ConfLength(c: Config)
    requires c.jwtExtraAudiences == []
    ensures |ConfText(c)| <= 200 + 4 * (|c.agentAddress| + |c.certDir| + |c.jwtAudience| + |c.jwtSvidFileName|)
                             + |c.jwtSvidFileMode|
  {
    EscapeLength(c.agentAddress);
    EscapeLength(c.certDir);
    EscapeLength(c.jwtAudience);
    EscapeLength(c.jwtSvidFileName);
    hide Escape;
    assert Join(QuoteAll([]), ", ") == "";
  }

  /** The code itself: the quoting loop, and the mode reassigned on a local copy. */
  method RenderConfig(config: Config) returns (r: Rendered)
    ensures r == Render(config)
  {
    hide Quote, Join, NormalMode, MatchesModePattern;
    if config.agentAddress == "" { return Err(NoAgentAddress); }
    if config.certDir == "" { return Err(NoCertDir); }
    if config.jwtAudience == "" { return Err(NoAudience); }
    if config.jwtSvidFileName == "" { return Err(NoFileName); }
    if config.jwtSvidFileMode != "" && !MatchesModePattern(config.jwtSvidFileMode) { return Err(BadFileMode); }
    var quoted: seq<string> := [];
    for i := 0 to |config.jwtExtraAudiences|
      invariant |quoted| == i && forall j :: 0 <= j < i ==> quoted[j] == Quote(config.jwtExtraAudiences[j])
    {
      quoted := quoted + [Quote(config.jwtExtraAudiences[i])];
    }
    assert quoted == QuoteAll(config.jwtExtraAudiences);
    var mode := NormalMode(config.jwtSvidFileMode);
    var name := FILE_NAME + (Quote(config.jwtSvidFileName) + (CLOSE + ModeLine(mode)));
    var extras := EXTRAS + (Join(quoted, ", ") + name);
    var audience := AUDIENCE + (Quote(config.jwtAudience) + extras);
    r := Ok(AGENT + (Quote(config.agentAddress) + (CERT_DIR + (Quote(config.certDir) + audience))));
  }

  /* ---------- an independent reader ---------- */

  function Expect(p: string, t: string): Option<string>
  {
    if p <= t then Some(t[|p|..]) else None
  }

  function LongEscape(l: char): Option<char>
  {
    if l == 'n' then Some('\n')
    else if l == 'r' then Some('\r')
    else if l == 't' then Some('\t')
    else if l == 'a' then Some(7 as char)
    else if l == 'b' then Some(8 as char)
    else if l == 'v' then Some(11 as char)
    else if l == 'f' then Some(12 as char)
    else if l == '\"' || l == '\\' then Some(l)
    else None
  }

  /** One character of a quoted string, and what follows it. */
  function ReadChar(t: string): (r: Option<(char, string)>)
    ensures r.Some? ==> |r.value.1| < |t|
  {
    if t == "" || t[0] == '\"' then None
    else if t[0] != '\\' then Some((t[0], t[1..]))
    else if |t| >= 4 && t[1] == 'x' then
      match (HexValue(t[2]), HexValue(t[3]))
      case (Some(h), Some(l)) => Some(((h * 16 + l) as char, t[4..]))
      case _ => None
    else if |t| >= 2 && LongEscape(t[1]).Some? then Some((LongEscape(t[1]).value, t[2..]))
    else None
  }

  /** The content up to the closing quote, and what follows it. */
  function ReadBody(t: string): (r: Option<(string, string)>)
    ensures r.Some? ==> |r.value.1| < |t|
    decreases |t|
  {
    if t != "" && t[0] == '\"' then Some(("", t[1..]))
    else
      match ReadChar(t)
      case None => None
      case Some((c, rest)) =>
        match ReadBody(rest)
        case None => None
        case Some((s, after)) => Some(([c] + s, after))
  }

  function ReadQuoted(t: string): (r: Option<(string, string)>)
    ensures r.Some? ==> |r.value.1| < |t|
  {
    if t != "" && t[0] == '\"' then ReadBody(t[1..]) else None
  }

  function ReadList(t: string): Option<(seq<string>, string)>
    decreases |t|
  {
    match ReadQuoted(t)
    case None => Some(([], t))
    case Some((x, rest)) =>
      match Expect(", ", rest)
      case None => Some(([x], rest))
      case Some(more) =>
        match ReadList(more)
        case None => None
        case Some((xs, after)) => Some(([x] + xs, after))
  }

  function ReadMode(t: string): Option<string>
  {
    if t == "\n" then Some("")
    else
      match Expect(FILE_MODE, t)
      case None => None
      case Some(rest) => if rest != "" && rest[|rest| - 1] == '\n' then Some(rest[..|rest| - 1]) else None
  }

  function ReadField(key: string, t: string): Option<(string, string)>
  {
    match Expect(key, t)
    case None => None
    case Some(rest) => ReadQuoted(rest)
  }

  function ParseConf(t: string): Option<Config>
  {
    match ReadField(AGENT, t)
    case None => None
    case Some((agent, t1)) =>
    match ReadField(CERT_DIR, t1)
    case None => None
    case Some((certDir, t2)) =>
    match ReadField(AUDIENCE, t2)
    case None => None
    case Some((audience, t3)) =>
    match Expect(EXTRAS, t3)
    case None => None
    case Some(t4) =>
    match ReadList(t4)
    case None => None
    case Some((extras, t5)) =>
    match ReadField(FILE_NAME, t5)
    case None => None
    case Some((name, t6)) =>
    match Expect(CLOSE, t6)
    case None => None
    case Some(t7) =>
    match ReadMode(t7)
    case None => None
    case Some(mode) => Some(Config(agent, certDir, audience, extras, name, mode))
  }

  /* ---------- the round trip ---------- */

  lemma ExpectSkips(p: string, t: string)
    ensures Expect(p, p + t) == Some(t)
  {
  }

  lemma HexRoundTrip(n: nat)
    requires n < 16
    ensures HexValue(HexDigit(n)) == Some(n)
  {
  }

  lemma ReadEscaped(c: char, t: string)
    ensures ReadChar(EscapeChar(c) + t) == Some((c, t))
    ensures (EscapeChar(c) + t)[0] != '\"'
  {
    var s := EscapeChar(c) + t;
    if ShortEscape(c).Some? {
      assert s[2..] == t;
    } else if NeedsHex(c) {
      HexRoundTrip(c as int / 16);
      HexRoundTrip(c as int % 16);
      assert s[4..] == t;
    } else {
      assert s[1..] == t;
    }
  }

  lemma {:induction false} ReadEscapedBody(s: string, t: string)
    ensures ReadBody(Escape(s) + ("\"" + t)) == Some((s, t))
  {
    if s == "" {
      assert Escape(s) + ("\"" + t) == "\"" + t;
      assert ("\"" + t)[1..] == t;
    } else {
      hide ReadChar, EscapeChar;
      var tail := Escape(s[1..]) + ("\"" + t);
      ReadEscapedBody(s[1..], t);
      ReadEscaped(s[0], tail);
      Associative(EscapeChar(s[0]), Escape(s[1..]), "\"" + t);
      assert [s[0]] + s[1..] == s;
    }
  }

  lemma ReadQuote(s: string, t: string)
    ensures ReadQuoted(Quote(s) + t) == Some((s, t))
  {
    ReadEscapedBody(s, t);
    hide ReadBody, Escape;
    var q := Quote(s) + t;
    assert q[0] == '\"' && q[1..] == Escape(s) + ("\"" + t);
  }

  lemma ReadFieldSkips(key: string, s: string, t: string)
    ensures ReadField(key, key + (Quote(s) + t)) == Some((s, t))
  {
    hide Quote, ReadQuoted;
    ExpectSkips(key, Quote(s) + t);
    ReadQuote(s, t);
  }

  lemma {:induction false} ReadListEnds(t: string)
    requires t != "" && t[0] == ']'
    ensures ReadList(t) == Some(([], t))
  {
  }

  lemma {:induction false} ReadListOne(x: string, t: string)
    requires t != "" && t[0] == ']'
    ensures ReadList(Quote(x) + t) == Some(([x], t))
  {
    hide Quote, ReadQuoted;
    ReadQuote(x, t);
  }

  lemma {:induction false} ReadListCons(x: string, tail: string, xs: seq<string>, t: string)
    requires ReadList(tail) == Some((xs, t))
    ensures ReadList(Quote(x) + (", " + tail)) == Some(([x] + xs, t))
  {
    hide Quote, ReadQuoted;
    ReadQuote(x, ", " + tail);
    ExpectSkips(", ", tail);
    hide Expect;
  }

  /** A list of quoted strings reads back, provided what follows cannot continue it. */
  lemma {:induction false} ReadQuotedList(xs: seq<string>, t: string)
    requires t != "" && t[0] == ']'
    ensures ReadList(Join(QuoteAll(xs), ", ") + t) == Some((xs, t))
  {
    hide Quote, ReadList;
    if xs == [] {
      ReadListEnds(t);
      assert Join(QuoteAll(xs), ", ") + t == t;
    } else if |xs| == 1 {
      ReadListOne(xs[0], t);
      assert Join(QuoteAll(xs), ", ") == Quote(xs[0]) && xs == [xs[0]];
    } else {
      ReadQuotedList(xs[1..], t);
      QuotedCons(xs, t);
      ReadListCons(xs[0], Join(QuoteAll(xs[1..]), ", ") + t, xs[1..], t);
      assert [xs[0]] + xs[1..] == xs;
    }
  }

  lemma QuotedCons(xs: seq<string>, t: string)
    requires |xs| >= 2
    ensures Join(QuoteAll(xs), ", ") + t == Quote(xs[0]) + (", " + (Join(QuoteAll(xs[1..]), ", ") + t))
  {
    hide Quote;
    var qs, rest := QuoteAll(xs), QuoteAll(xs[1..]);
    assert qs[1..] == rest && qs[0] == Quote(xs[0]);
    assert Join(qs, ", ") == Quote(xs[0]) + ", " + Join(rest, ", ");
    hide Join, QuoteAll;
    Associative(Quote(xs[0]) + ", ", Join(rest, ", "), t);
    Associative(Quote(xs[0]), ", ", Join(rest, ", ") + t);
  }

  lemma ReadModeLine(mode: string)
    requires '\n' !in mode
    ensures ReadMode(ModeLine(mode)) == Some(mode)
  {
    if mode == "" {
      assert ModeLine(mode) == "\n";
    } else {
      var t := ModeLine(mode);
      assert t == FILE_MODE + (mode + "\n");
      ExpectSkips(FILE_MODE, mode + "\n");
      assert |t| > 1;
      assert (mode + "\n")[..|mode|] == mode;
    }
  }

  lemma NormalModeClean(mode: string)
    requires mode == "" || MatchesModePattern(mode)
    ensures '\n' !in NormalMode(mode)
  {
    forall i | 0 <= i < |mode| ensures mode[i] != '\n' {
      assert mode != "" ==> OctalDigit(mode[i]);
    }
  }

  /** The reader recovers every field of a rendered configuration, the mode in normal form. */
  lemma RenderRoundTrip(c: Config)
    requires Render(c).Ok?
    ensures ParseConf(Render(c).text) == Some(c.(jwtSvidFileMode := NormalMode(c.jwtSvidFileMode)))
  {
    hide Quote, ReadQuoted, ReadField, ReadList, ReadMode, Expect, Join, NormalMode, MatchesModePattern, ModeLine;
    var mode := NormalMode(c.jwtSvidFileMode);
    ReadFieldSkips(AGENT, c.agentAddress, CertDirPart(c));
    ReadFieldSkips(CERT_DIR, c.certDir, AudiencePart(c));
    ReadFieldSkips(AUDIENCE, c.jwtAudience, ExtrasPart(c));
    ExpectSkips(EXTRAS, Join(QuoteAll(c.jwtExtraAudiences), ", ") + NamePart(c));
    assert NamePart(c)[0] == ']';
    ReadQuotedList(c.jwtExtraAudiences, NamePart(c));
    ReadFieldSkips(FILE_NAME, c.jwtSvidFileName, CLOSE + ModeLine(mode));
    ExpectSkips(CLOSE, ModeLine(mode));
    NormalModeClean(c.jwtSvidFileMode);
    ReadModeLine(mode);
  }

  /** Two configurations render alike exactly when they differ at most in the spelling of the mode. */
  lemma RenderInjective(a: Config, b: Config)
    requires Render(a).Ok? && Render(b).Ok?
    ensures Render(a) == Render(b)
            <==> a.(jwtSvidFileMode := NormalMode(a.jwtSvidFileMode))
                 == b.(jwtSvidFileMode := NormalMode(b.jwtSvidFileMode))
  {
    hide ParseConf, Quote, Join, NormalMode;
    RenderRoundTrip(a);
    RenderRoundTrip(b);
  }

  /** The emitted mode starts with a zero and denotes the permissions that were asked for. */
  lemma {:induction false} EmittedMode(mode: string)
    requires MatchesModePattern(mode)
    ensures var m := NormalMode(mode);
            m[0] == '0' && MatchesModePattern(m) && OctalValue(m) == OctalValue(mode)
  {
    if mode[0] != '0' {
      OctalLeadingZero(mode);
    }
  }
}
