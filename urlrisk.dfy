/**
 * The website checker: the rule chain of `analyzeURL` over the parsed
 * address, the risk escalation of `deepScanWebsite` over what was found in
 * the page, and the recommendations of the deep and the quick scan.
 * The URL parser is a parameter (None where `new URL` throws); the fetch and
 * the regular-expression counts over the page are inputs.
 */
module UrlRisk {
  import opened Common

  // ----- risk levels ---------------------------------------------------------

  datatype Risk = Low | Moderate | High | Critical | AnalysisError

  /** The string the page stores in `risk` and compares against. */
  function RiskName(r: Risk): string
  {
    match r
    case Low => "Low Risk"
    case Moderate => "Moderate Risk"
    case High => "High Risk"
    case Critical => "Critical Risk"
    case AnalysisError => "Analysis Error"
  }

  /** The order Low < Moderate < High < Critical of the four levels. */
  function Rank(r: Risk): nat
  {
    match r
    case Low => 0
    case Moderate => 1
    case High => 2
    case Critical => 3
    case AnalysisError => 0
  }

  predicate IsLevel(r: Risk) { r != AnalysisError }

  /** The level a stored name stands for. */
  function RiskOfName(name: string): Option<Risk>
  {
    if name == "Low Risk" then Some(Low)
    else if name == "Moderate Risk" then Some(Moderate)
    else if name == "High Risk" then Some(High)
    else if name == "Critical Risk" then Some(Critical)
    else if name == "Analysis Error" then Some(AnalysisError)
    else None
  }

  /** Each level has its own name, so comparing names is comparing levels. */
  lemma RiskNameRoundTrip(r: Risk)
    ensures RiskOfName(RiskName(r)) == Some(r)
  {
  }

  // ----- analyzeURL ------------------------------------------------------------

  /** What the rules read of `new URL(normalizedUrl)`. */
  datatype UrlParts = UrlParts(protocol: string, hostname: string)

  /** `{ risk, threats }` of an analysis. */
  datatype Analysis = Analysis(risk: Risk, threats: seq<Threat>)


  /** A message of the threat list; `Text` gives the words the page shows. */
  datatype Threat =
    | UnsecuredHttp | SuspiciousTld | IpAddress | Phishing(brand: string) | Government | KnownSafeSite
    | InvalidFormat
    | KeyloggerAlert(listeners: nat) | KeyloggerNotice(listeners: nat)
    | SpywareAlert(trackers: nat) | SpywareNotice(trackers: nat)
    | MaliciousAlert(patterns: nat) | MaliciousNotice(patterns: nat)
    | ExternalScripts(scripts: nat) | ShortLink(domain: string) | InsecurePassword
    | CorsBlocked | NoThreats

  function Num(n: nat): string { NumberToString(n, 10) }

  function Text(t: Threat): string
  {
    match t
    case UnsecuredHttp => "🔓 Unsecured HTTP connection - data not encrypted"
    case SuspiciousTld => "⚠️ Suspicious domain extension often used by malicious sites"
    case IpAddress => "🔢 Using IP address instead of domain name"
    case Phishing(brand) => "🎣 Possible phishing - impersonating \"" + brand + "\""
    case Government => "✅ Official government domain"
    case KnownSafeSite => "✅ Known legitimate and secure website"
    case InvalidFormat => "Invalid URL format"
    case KeyloggerAlert(n) => "⚠️ HIGH ALERT: Detected " + Num(n) + " keyboard event listeners - possible keylogger"
    case KeyloggerNotice(n) => "Detected " + Num(n) + " keyboard event listeners - monitor for suspicious behavior"
    case SpywareAlert(n) => "⚠️ Detected " + Num(n) + " tracking/data collection scripts - extensive monitoring detected"
    case SpywareNotice(n) => "Detected " + Num(n) + " tracking mechanisms - standard analytics or excessive tracking"
    case MaliciousAlert(n) => "🚨 CRITICAL: Detected " + Num(n) + " potentially malicious script patterns"
    case MaliciousNotice(n) => "Detected " + Num(n) + " suspicious script patterns - may include obfuscated code"
    case ExternalScripts(n) => "Found " + Num(n) + " external scripts - higher risk of third-party tracking"
    case ShortLink(d) => "Links to suspicious short URL service or domain: " + d
    case InsecurePassword => "Password form submits to non-HTTPS endpoint - credentials at risk"
    case CorsBlocked => "Unable to fetch website content due to CORS restrictions"
    case NoThreats => "No obvious security threats detected"
  }

  const SuspiciousTlds: seq<string> := [".tk", ".ml", ".ga", ".cf", ".gq", ".xyz", ".top", ".click", ".loan", ".work"]
  const Brands: seq<string> := ["google", "facebook", "amazon", "paypal", "microsoft", "apple", "netflix"]
  const GovSuffixes: seq<string> := [".gov", ".gov.in", ".nic.in"]
  const KnownSafe: seq<string> := ["google.com", "youtube.com", "facebook.com", "whatsapp.com", "amazon.com", "wikipedia.org"]

  /** `/^https?:\/\//i.test(s)` */
  predicate HasHttpScheme(s: string)
  {
    StartsWith(Lower(s), "http://") || StartsWith(Lower(s), "https://")
  }

  /** `normalizedUrl`: trimmed, with `http://` in front when neither scheme is given. */
  function Normalized(url: string): string
  {
    var t := Trim(url);
    if HasHttpScheme(t) then t else "http://" + t
  }

  predicate IsDecimalDigit(c: char) { '0' <= c <= '9' }

  /** `/^\d{1,3}\.\d{1,3}\.\d{1,3}\.\d{1,3}$/.test(domain)` */
  predicate IsDottedQuad(domain: string)
  {
    IsQuad(Split(domain, '.'))
  }

  /** Four pieces of one to three decimal digits each. */
  predicate IsQuad(parts: seq<string>)
  {
    |parts| == 4
    && forall k :: 0 <= k < 4 ==> 1 <= |parts[k]| <= 3 && forall j :: 0 <= j < |parts[k]| ==> IsDecimalDigit(parts[k][j])
  }

  /** The brand rule: the name occurs in the domain, which is not the brand's own `.com`. */
  predicate Impersonates(domain: string, brand: string)
  {
    Contains(domain, brand) && !EndsWith(domain, brand + ".com") && !EndsWith(domain, "." + brand + ".com")
  }

  /** Some brand of the list is impersonated. */
  predicate AnyImpersonated(domain: string, brands: seq<string>)
  {
    brands != [] && (AnyImpersonated(domain, brands[..|brands| - 1]) || Impersonates(domain, brands[|brands| - 1]))
  }

  predicate IsGov(domain: string)
  {
    EndsWithAny(domain, GovSuffixes)
  }

  /** `knownSafe.some(safe => domain === safe || domain.endsWith('.' + safe))` */
  predicate IsKnownSafe(domain: string)
  {
    exists k :: 0 <= k < |KnownSafe| && (domain == KnownSafe[k] || EndsWith(domain, "." + KnownSafe[k]))
  }

  /** One phishing threat per impersonated brand, in list order. */
  function PhishingThreats(domain: string, brands: seq<string>): seq<Threat>
  {
    if brands == [] then []
    else
      var last := brands[|brands| - 1];
      PhishingThreats(domain, brands[..|brands| - 1]) + (if Impersonates(domain, last) then [Phishing(last)] else [])
  }

  /** The list after one rule: the rule's message is pushed when it fires. */
  function Flag(threats: seq<Threat>, fires: bool, t: Threat): seq<Threat>
  {
    if fires then threats + [t] else threats
  }

  /** The threats of the first three rules: plain http, a suspicious ending, an IP address. */
  function ShapeThreats(domain: string, protocol: string): seq<Threat>
  {
    Flag(Flag(Flag([], protocol == "http:", UnsecuredHttp), EndsWithAny(domain, SuspiciousTlds), SuspiciousTld),
      IsDottedQuad(domain), IpAddress)
  }

  /** The list after the last two rules: a government domain, a known-safe https address. */
  function AddTrust(threats: seq<Threat>, domain: string, protocol: string): seq<Threat>
  {
    Flag(Flag(threats, IsGov(domain), Government), IsKnownSafe(domain) && protocol == "https:", KnownSafeSite)
  }

  /** The threats of a parsed address, one per rule that fires, in rule order. */
  function UrlThreats(p: UrlParts): seq<Threat>
  {
    var domain := Lower(p.hostname);
    AddTrust(ShapeThreats(domain, p.protocol) + PhishingThreats(domain, Brands), domain, p.protocol)
  }

  /**
   * The final risk of a parsed address, read from the last rule back: a
   * government or a known-safe https address is Low whatever came before;
   * otherwise an impersonated brand is Critical; otherwise plain http, a
   * suspicious ending or an IP address is High.
   */
  function UrlRiskLevel(p: UrlParts): Risk
  {
    var domain := Lower(p.hostname);
    if IsGov(domain) || (IsKnownSafe(domain) && p.protocol == "https:") then Low
    else if AnyImpersonated(domain, Brands) then Critical
    else if p.protocol == "http:" || EndsWithAny(domain, SuspiciousTlds) || IsDottedQuad(domain) then High
    else Low
  }

  /** The result of `analyzeURL(url)`, given the parser. */
  function AnalysisOf(url: string, parse: string -> Option<UrlParts>): Analysis
  {
    match parse(Normalized(url))
    case None => Analysis(AnalysisError, [InvalidFormat])
    case Some(p) => Analysis(UrlRiskLevel(p), UrlThreats(p))
  }

  /** `analyzeURL(urlString)`: the rules push threats and reassign risk, in order. */
  method AnalyzeUrl(urlString: string, parse: string -> Option<UrlParts>) returns (analysis: Analysis)
    ensures analysis == AnalysisOf(urlString, parse)
  {
    var normalizedUrl := Trim(urlString);
    if !HasHttpScheme(normalizedUrl) {
      normalizedUrl := "http://" + normalizedUrl;
    }
    var urlObj := parse(normalizedUrl);
    if urlObj.None? {
      return Analysis(AnalysisError, [InvalidFormat]);
    }
    var domain := Lower(urlObj.value.hostname);
    var protocol := urlObj.value.protocol;
    var threats, risk := AddressRules(domain, protocol);
    threats, risk := BrandRules(domain, threats, risk);
    threats, risk := TrustRules(domain, protocol, threats, risk);
    analysis := Analysis(risk, threats);
  }

  /** The last two rules of `analyzeURL`: a trusted address resets the risk to Low. */
  method TrustRules(domain: string, protocol: string, threats0: seq<Threat>, risk0: Risk)
    returns (threats: seq<Threat>, risk: Risk)
    ensures threats == AddTrust(threats0, domain, protocol)
    ensures risk == if IsGov(domain) || (IsKnownSafe(domain) && protocol == "https:") then Low else risk0
  {
    threats, risk := threats0, risk0;
    if IsGov(domain) {
      threats := threats + [Government];
      risk := Low;
    }
    if IsKnownSafe(domain) && protocol == "https:" {
      threats := threats + [KnownSafeSite];
      risk := Low;
    }
  }

  /** The first three rules of `analyzeURL`, from an empty list and Low Risk. */
  method AddressRules(domain: string, protocol: string) returns (threats: seq<Threat>, risk: Risk)
    ensures threats == ShapeThreats(domain, protocol)
    ensures risk == if protocol == "http:" || EndsWithAny(domain, SuspiciousTlds) || IsDottedQuad(domain) then High else Low
  {
    threats := [];
    risk := Low;
    if protocol == "http:" {
      threats := threats + [UnsecuredHttp];
      risk := High;
    }
    if EndsWithAny(domain, SuspiciousTlds) {
      threats := threats + [SuspiciousTld];
      risk := High;
    }
    if IsDottedQuad(domain) {
      threats := threats + [IpAddress];
      risk := High;
    }
  }

  /** The `for (const brand of commonBrands)` loop of `analyzeURL`. */
  method BrandRules(domain: string, threats0: seq<Threat>, risk0: Risk) returns (threats: seq<Threat>, risk: Risk)
    ensures threats == threats0 + PhishingThreats(domain, Brands)
    ensures risk == if AnyImpersonated(domain, Brands) then Critical else risk0
  {
    threats, risk := threats0, risk0;
    for i := 0 to |Brands|
      invariant threats == threats0 + PhishingThreats(domain, Brands[..i])
      invariant risk == if AnyImpersonated(domain, Brands[..i]) then Critical else risk0
    {
      var brand := Brands[i];
      assert Brands[..i + 1][..i] == Brands[..i];
      if Impersonates(domain, brand) {
        threats := threats + [Phishing(brand)];
        risk := Critical;
      }
    }
    assert Brands[..|Brands|] == Brands;
  }

  // ----- properties of analyzeURL ----------------------------------------------

  /** The scheme a WHATWG parser reports: the text before the first `:`, lower-cased, and the `:`. */
  function SchemeOf(u: string): string
  {
    Lower(Split(u, ':')[0]) + ":"
  }

  lemma {:induction false} SplitFirst(p: string, rest: string, sep: char)
    requires sep !in p
    ensures Split(p + [sep] + rest, sep)[0] == p
  {
    var s := p + [sep] + rest;
    if p != [] {
      assert s[1..] == p[1..] + [sep] + rest;
      SplitFirst(p[1..], rest, sep);
      assert p == [p[0]] + p[1..];
    }
  }

  /**
   * An address typed without `http://` or `https://` gets `http://` put in
   * front, so, with a parser that reports the scheme it was given, it is
   * read as plain http: the first threat is the http one, and it can end
   * Low only as a government domain.
   */
  lemma NoSchemeMeansHttp(url: string, parse: string -> Option<UrlParts>)
    requires forall u :: parse(u).Some? ==> parse(u).value.protocol == SchemeOf(u)
    requires !HasHttpScheme(Trim(url)) && parse(Normalized(url)).Some?
    ensures var a := AnalysisOf(url, parse);
      a.threats != [] && a.threats[0] == UnsecuredHttp && a.risk != AnalysisError
      && (a.risk == Low ==> IsGov(Lower(parse(Normalized(url)).value.hostname)))
  {
    var n := Normalized(url);
    var p := parse(n).value;
    NormalizedIsHttp(url);
    assert p.protocol == SchemeOf(n);
    HttpFirst(p);
    assert AnalysisOf(url, parse) == Analysis(UrlRiskLevel(p), UrlThreats(p));
  }

  lemma NormalizedIsHttp(url: string)
    requires !HasHttpScheme(Trim(url))
    ensures SchemeOf(Normalized(url)) == "http:"
  {
    assert Normalized(url) == "http://" + Trim(url);
    PrefixedScheme(Trim(url));
  }

  /** What `http://` is put in front of is read with the scheme `http:`. */
  lemma PrefixedScheme(t: string)
    ensures SchemeOf("http://" + t) == "http:"
  {
    HttpPrefix(t);
    SchemeOfPrefixed("http", "//" + t);
    LowerHttp();
  }

  lemma HttpPrefix(t: string)
    ensures "http://" + t == "http" + [':'] + ("//" + t)
  {
  }

  lemma SchemeOfPrefixed(p: string, rest: string)
    requires ':' !in p
    ensures SchemeOf(p + [':'] + rest) == Lower(p) + ":"
  {
    SplitFirst(p, rest, ':');
  }

  lemma LowerHttp()
    ensures Lower("http") == "http"
  {
    var h := "http";
    assert Lower(h[3..]) == h[3..];
    assert Lower(h[2..]) == h[2..];
    assert Lower(h[1..]) == h[1..];
  }

  /** Over plain http the first threat is the http one, and only a government domain ends Low. */
  lemma HttpFirst(p: UrlParts)
    requires p.protocol == "http:"
    ensures UrlThreats(p) != [] && UrlThreats(p)[0] == UnsecuredHttp
    ensures UrlRiskLevel(p) == Low ==> IsGov(Lower(p.hostname))
    ensures UrlRiskLevel(p) != AnalysisError
  {
    var domain := Lower(p.hostname);
    var shape := ShapeThreats(domain, p.protocol);
    FlagKeeps([UnsecuredHttp], EndsWithAny(domain, SuspiciousTlds), SuspiciousTld);
    var s2 := Flag([UnsecuredHttp], EndsWithAny(domain, SuspiciousTlds), SuspiciousTld);
    FlagKeeps(s2, IsDottedQuad(domain), IpAddress);
    var all := shape + PhishingThreats(domain, Brands);
    assert all[0] == shape[0];
    FlagKeeps(all, IsGov(domain), Government);
    FlagKeeps(Flag(all, IsGov(domain), Government), IsKnownSafe(domain) && p.protocol == "https:", KnownSafeSite);
  }

  /** A rule only appends: what was in the list stays at its place. */
  lemma FlagKeeps(threats: seq<Threat>, fires: bool, t: Threat)
    ensures |Flag(threats, fires, t)| >= |threats|
    ensures forall k :: 0 <= k < |threats| ==> Flag(threats, fires, t)[k] == threats[k]
  {
  }

  /** A brand of the list is reported exactly when the domain impersonates it. */
  lemma BrandReported(domain: string, brand: string)
    requires brand in Brands
    ensures Phishing(brand) in PhishingThreats(domain, Brands) <==> Impersonates(domain, brand)
  {
    PhishingThreatsMembers(domain, Brands, brand);
  }

  lemma {:induction false} PhishingThreatsMembers(domain: string, brands: seq<string>, brand: string)
    ensures Phishing(brand) in PhishingThreats(domain, brands) <==> brand in brands && Impersonates(domain, brand)
  {
    if brands != [] {
      var init, last := brands[..|brands| - 1], brands[|brands| - 1];
      PhishingThreatsMembers(domain, init, brand);
      assert brands == init + [last];
    }
  }

  /** The message names the brand, so two brands never share a message. */
  lemma PhishingTextInjective(a: string, b: string)
    ensures Text(Phishing(a)) == Text(Phishing(b)) <==> a == b
  {
    var prefix := "🎣 Possible phishing - impersonating \"";
    if Text(Phishing(a)) == Text(Phishing(b)) {
      assert Text(Phishing(a)) == prefix + (a + "\"");
      assert Text(Phishing(b)) == prefix + (b + "\"");
      assert a + "\"" == Text(Phishing(a))[|prefix|..];
      assert a == (a + "\"")[..|a|];
      assert b == (b + "\"")[..|b|];
    }
  }

  /** The brand's own `.com` domain and its subdomains are never flagged for it. */
  lemma OwnDomainNotFlagged(domain: string, brand: string)
    requires EndsWith(domain, brand + ".com")
    ensures !Impersonates(domain, brand)
  {
  }

  /** The `.${brand}.com` test never decides: a domain ending so also ends in `${brand}.com`. */
  lemma SubdomainTestRedundant(domain: string, brand: string)
    requires EndsWith(domain, "." + brand + ".com")
    ensures EndsWith(domain, brand + ".com")
  {
    var long, short := "." + brand + ".com", brand + ".com";
    assert long[1..] == short;
    assert domain[|domain| - |short|..] == domain[|domain| - |long|..][1..];
  }

  lemma {:induction false} AnyImpersonatedIff(domain: string, brands: seq<string>)
    ensures AnyImpersonated(domain, brands) <==> exists b :: b in brands && Impersonates(domain, b)
  {
    if brands != [] {
      var init := brands[..|brands| - 1];
      AnyImpersonatedIff(domain, init);
      assert brands == init + [brands[|brands| - 1]];
    }
  }

  /**
   * Later rules override earlier ones: a government domain ends Low, an
   * impersonated brand outside it ends Critical, and the risk of a parsed
   * address is always one of Low, High and Critical.
   */
  lemma UrlRiskPriorities(p: UrlParts)
    ensures var domain := Lower(p.hostname);
      && (IsGov(domain) ==> UrlRiskLevel(p) == Low)
      && ((!IsGov(domain) && !(IsKnownSafe(domain) && p.protocol == "https:")
           && exists b :: b in Brands && Impersonates(domain, b)) ==> UrlRiskLevel(p) == Critical)
      && UrlRiskLevel(p) in {Low, High, Critical}
      && (UrlRiskLevel(p) == Low <==>
            (|| IsGov(domain)
             || (IsKnownSafe(domain) && p.protocol == "https:")
             || (!AnyImpersonated(domain, Brands) && p.protocol != "http:"
                 && !EndsWithAny(domain, SuspiciousTlds) && !IsDottedQuad(domain))))
  {
    AnyImpersonatedIff(Lower(p.hostname), Brands);
  }

  // ----- deepScanWebsite --------------------------------------------------------

  /** What the regular expressions count in the fetched page. */
  datatype PageScan = PageScan(keylogger: nat, spyware: nat, malicious: nat, externalScripts: nat,
                               forms: nat, passwordInputs: nat, insecureAction: bool)

  /** The outcome of `fetch(urlString)`: it threw, it answered not ok, or it gave the page. */
  datatype Fetch = FetchThrew | NotOk | Fetched(html: string, scan: PageScan)

  /** The object a scan returns; `success` is None where the source leaves it out. */
  datatype ScanResult = ScanResult(risk: Risk, threats: seq<Threat>, recommendation: string, details: string,
                                   success: Option<bool>)



  const LimitedDetails: string := "Deep scan limited: Cannot access website content directly. Using URL-based analysis only."
  const ShortLinkDomains: seq<string> := ["bit.ly", "tinyurl", "goo.gl", ".tk", ".ml", ".ga", ".cf", ".gq"]

  function CompletedDetails(html: string, scan: PageScan): string
  {
    "Deep scan completed. Analyzed " + Num(|html|) + " characters of HTML/JavaScript code. Found "
      + Num(scan.externalScripts) + " external scripts, " + Num(scan.forms) + " forms, and "
      + Num(scan.passwordInputs) + " password fields."
  }

  /** One threat per listed domain the page mentions, in list order. */
  function ShortLinkThreats(html: string, domains: seq<string>): seq<Threat>
  {
    if domains == [] then []
    else
      var last := domains[|domains| - 1];
      ShortLinkThreats(html, domains[..|domains| - 1]) + (if Contains(html, last) then [ShortLink(last)] else [])
  }

  predicate AnyShortLink(html: string, domains: seq<string>)
  {
    domains != [] && (AnyShortLink(html, domains[..|domains| - 1]) || Contains(html, domains[|domains| - 1]))
  }

  /** The list after one counting rule with a strong and a weak threshold. */
  function Graded(threats: seq<Threat>, n: nat, strong: nat, weak: nat, alert: Threat, notice: Threat): seq<Threat>
  {
    if n > strong then threats + [alert] else if n > weak then threats + [notice] else threats
  }

  /** The threats of the four counting rules: key listeners, tracking, malicious patterns, external scripts. */
  function SignalThreats(scan: PageScan): seq<Threat>
  {
    var k, s, m, e := scan.keylogger, scan.spyware, scan.malicious, scan.externalScripts;
    Flag(Graded(Graded(Graded([], k, 5, 2, KeyloggerAlert(k), KeyloggerNotice(k)), s, 10, 5, SpywareAlert(s), SpywareNotice(s)),
      m, 15, 8, MaliciousAlert(m), MaliciousNotice(m)), e > 20, ExternalScripts(e))
  }

  /** The threats the page content adds, rule by rule. */
  function ContentThreats(html: string, scan: PageScan): seq<Threat>
  {
    Flag(SignalThreats(scan) + ShortLinkThreats(html, ShortLinkDomains),
      scan.passwordInputs > 0 && scan.insecureAction, InsecurePassword)
  }

  /**
   * The risk the content leaves, starting from Low, stated level by level:
   * Critical for many key listeners, many malicious patterns or a password
   * sent over plain http; High for suspicious patterns, or heavy tracking
   * when there were at most two key listeners; Moderate for any lesser
   * signal.
   */
  function ContentRisk(html: string, scan: PageScan): Risk
  {
    if scan.keylogger > 5 || scan.malicious > 15 || (scan.passwordInputs > 0 && scan.insecureAction) then Critical
    else if scan.malicious > 8 || (scan.spyware > 10 && scan.keylogger <= 2) then High
    else if scan.keylogger > 2 || scan.spyware > 5 || scan.externalScripts > 20 || AnyShortLink(html, ShortLinkDomains) then Moderate
    else Low
  }

  /** The content rules of `deepScanWebsite`, from Low Risk. */
  method ScanContent(html: string, scan: PageScan) returns (risk: Risk, found: seq<Threat>)
    ensures risk == ContentRisk(html, scan)
    ensures found == ContentThreats(html, scan)
  {
    risk, found := CountRules(scan);
    found, risk := ShortLinkRules(html, found, risk);
    ContentRiskIsRuleChain(html, scan);
    if scan.passwordInputs > 0 {
      if scan.insecureAction {
        found := found + [InsecurePassword];
        risk := Critical;
      }
    }
  }

  /** The four counting rules of `deepScanWebsite`, from an empty list and Low Risk. */
  method CountRules(scan: PageScan) returns (risk: Risk, found: seq<Threat>)
    ensures found == SignalThreats(scan)
    ensures risk == ExternalRule(MaliciousRule(SpywareRule(KeyloggerRule(Low, scan.keylogger), scan.spyware),
      scan.malicious), scan.externalScripts)
  {
    risk := Low;
    found := [];
    if scan.keylogger > 5 {
      found := found + [KeyloggerAlert(scan.keylogger)];
      risk := Critical;
    } else if scan.keylogger > 2 {
      found := found + [KeyloggerNotice(scan.keylogger)];
      if risk == Low { risk := Moderate; }
    }
    if scan.spyware > 10 {
      found := found + [SpywareAlert(scan.spyware)];
      if risk == Low { risk := High; }
    } else if scan.spyware > 5 {
      found := found + [SpywareNotice(scan.spyware)];
      if risk == Low { risk := Moderate; }
    }
    if scan.malicious > 15 {
      found := found + [MaliciousAlert(scan.malicious)];
      risk := Critical;
    } else if scan.malicious > 8 {
      found := found + [MaliciousNotice(scan.malicious)];
      if risk != Critical { risk := High; }
    }
    if scan.externalScripts > 20 {
      found := found + [ExternalScripts(scan.externalScripts)];
      if risk == Low { risk := Moderate; }
    }
  }

  /** The `suspiciousDomains.forEach` loop. */
  method ShortLinkRules(html: string, found0: seq<Threat>, risk0: Risk) returns (found: seq<Threat>, risk: Risk)
    ensures found == found0 + ShortLinkThreats(html, ShortLinkDomains)
    ensures risk == if risk0 == Low && AnyShortLink(html, ShortLinkDomains) then Moderate else risk0
  {
    found, risk := found0, risk0;
    for i := 0 to |ShortLinkDomains|
      invariant found == found0 + ShortLinkThreats(html, ShortLinkDomains[..i])
      invariant risk == if risk0 == Low && AnyShortLink(html, ShortLinkDomains[..i]) then Moderate else risk0
    {
      var domain := ShortLinkDomains[i];
      assert ShortLinkDomains[..i + 1][..i] == ShortLinkDomains[..i];
      if Contains(html, domain) {
        found := found + [ShortLink(domain)];
        if risk == Low { risk := Moderate; }
      }
    }
    assert ShortLinkDomains[..|ShortLinkDomains|] == ShortLinkDomains;
  }

  const Danger: string := "🚨 DANGER - Do not use this site"
  const AvoidData: string := "⚠️ High risk - avoid entering sensitive data"
  const Caution: string := "⚡ Proceed with caution"
  const Passed: string := "✅ Basic security checks passed"

  /** The deep scan's recommendation for its final risk. */
  function Recommendation(r: Risk): string
  {
    if r == Critical then Danger
    else if r == High then AvoidData
    else if r == Moderate then Caution
    else Passed
  }

  /** The details line used when the scan left none. */
  function DefaultDetails(r: Risk): string
  {
    if r == Critical then "Severe security threats detected. This site may steal your information."
    else if r == High then "Multiple security concerns found. Do not enter passwords or personal information."
    else if r == Moderate then "Some security concerns detected. Verify site legitimacy before proceeding."
    else "No major threats detected, but always remain vigilant online."
  }

  /** The page content was read: the fetch answered ok with a non-empty body. */
  predicate ContentRead(fetch: Fetch) { fetch.Fetched? && fetch.html != "" }

  /** The deep scan's risk: only the content raises it; the address's own risk is not carried over. */
  function DeepRisk(fetch: Fetch): Risk
  {
    if ContentRead(fetch) then ContentRisk(fetch.html, fetch.scan) else Low
  }

  /** The threats the fetch adds after the address's own. */
  function FetchThreats(fetch: Fetch): seq<Threat>
  {
    match fetch
    case FetchThrew => [CorsBlocked]
    case NotOk => []
    case Fetched(html, scan) => if html != "" then ContentThreats(html, scan) else []
  }

  function DeepDetails(fetch: Fetch): string
  {
    match fetch
    case FetchThrew => LimitedDetails
    case NotOk => DefaultDetails(DeepRisk(fetch))
    case Fetched(html, scan) => if html != "" then CompletedDetails(html, scan) else DefaultDetails(DeepRisk(fetch))
  }

  /** An empty list is shown as the single placeholder. */
  function OrPlaceholder(threats: seq<Threat>): seq<Threat>
  {
    if threats == [] then [NoThreats] else threats
  }

  /** `deepScanWebsite(urlString)` with the parser and the fetch outcome given. */
  method DeepScanWebsite(urlString: string, parse: string -> Option<UrlParts>, fetch: Fetch) returns (result: ScanResult)
    ensures result.risk == DeepRisk(fetch)
    ensures result.threats == OrPlaceholder(AnalysisOf(urlString, parse).threats + FetchThreats(fetch))
    ensures result.recommendation == Recommendation(result.risk)
    ensures result.details == DeepDetails(fetch)
    ensures result.success == Some(true)
  {
    var risk := Low;
    var details := "";
    var urlAnalysis := AnalyzeUrl(urlString, parse);
    // the list starts as the address's own threats
    var threats := urlAnalysis.threats;
    match fetch {
      case FetchThrew =>
        threats := threats + [CorsBlocked];
        details := LimitedDetails;
      case NotOk =>
        assert threats + [] == threats;
      case Fetched(html, scan) =>
        if html != "" {
          var contentRisk, found := ScanContent(html, scan);
          threats := threats + found;
          risk := contentRisk;
          details := CompletedDetails(html, scan);
        } else {
          assert threats + [] == threats;
        }
    }
    assert threats == urlAnalysis.threats + FetchThreats(fetch);
    var recommendation := Recommendation(risk);
    if details == "" {
      details := DefaultDetails(risk);
    }
    if threats == [] {
      threats := [NoThreats];
    }
    result := ScanResult(risk, threats, recommendation, details, Some(true));
  }

  const QuickPassed: string := "✅ Quick scan passed"
  const QuickFlagged: string := "⚠️ Threats detected"
  const QuickDetails: string := "Quick URL-based scan only. For comprehensive analysis, use Deep Scan."

  /** The quick scan: `analyzeURL` with its own recommendation and details. */
  method QuickScan(urlString: string, parse: string -> Option<UrlParts>) returns (result: ScanResult)
    ensures result.risk == AnalysisOf(urlString, parse).risk
    ensures result.threats == AnalysisOf(urlString, parse).threats
    ensures result.recommendation == (if result.risk == Low then QuickPassed else QuickFlagged)
    ensures result.details == QuickDetails && result.success.None?
  {
    var quickAnalysis := AnalyzeUrl(urlString, parse);
    var recommendation := if quickAnalysis.risk == Low then QuickPassed else QuickFlagged;
    result := ScanResult(quickAnalysis.risk, quickAnalysis.threats, recommendation, QuickDetails, None);
  }

  // ----- properties of the deep scan --------------------------------------------

  /** The content rules one at a time, as the page applies them to the running risk. */
  function KeyloggerRule(r: Risk, n: nat): Risk
  { if n > 5 then Critical else if n > 2 && r == Low then Moderate else r }
  function SpywareRule(r: Risk, n: nat): Risk
  { if n > 10 then (if r == Low then High else r) else if n > 5 && r == Low then Moderate else r }
  function MaliciousRule(r: Risk, n: nat): Risk
  { if n > 15 then Critical else if n > 8 && r != Critical then High else r }
  function ExternalRule(r: Risk, n: nat): Risk
  { if n > 20 && r == Low then Moderate else r }
  function ShortLinkRule(r: Risk, found: bool): Risk
  { if found && r == Low then Moderate else r }
  function PasswordRule(r: Risk, passwords: nat, insecure: bool): Risk
  { if passwords > 0 && insecure then Critical else r }

  /** No content rule ever lowers the risk. */
  lemma RulesNeverLower(r: Risk, n: nat, found: bool, insecure: bool)
    requires IsLevel(r)
    ensures Rank(KeyloggerRule(r, n)) >= Rank(r) && IsLevel(KeyloggerRule(r, n))
    ensures Rank(SpywareRule(r, n)) >= Rank(r) && IsLevel(SpywareRule(r, n))
    ensures Rank(MaliciousRule(r, n)) >= Rank(r) && IsLevel(MaliciousRule(r, n))
    ensures Rank(ExternalRule(r, n)) >= Rank(r) && IsLevel(ExternalRule(r, n))
    ensures Rank(ShortLinkRule(r, found)) >= Rank(r) && IsLevel(ShortLinkRule(r, found))
    ensures Rank(PasswordRule(r, n, insecure)) >= Rank(r) && IsLevel(PasswordRule(r, n, insecure))
  {
  }

  /** The level-by-level statement is the rules applied in the page's order from Low. */
  lemma ContentRiskIsRuleChain(html: string, scan: PageScan)
    ensures ContentRisk(html, scan) ==
      PasswordRule(ShortLinkRule(ExternalRule(MaliciousRule(SpywareRule(KeyloggerRule(Low, scan.keylogger),
        scan.spyware), scan.malicious), scan.externalScripts), AnyShortLink(html, ShortLinkDomains)),
        scan.passwordInputs, scan.insecureAction)
  {
  }

  /** Deep scan threats start with the address's threats, in order; the list is never empty. */
  lemma DeepThreatsKeepAnalysis(own: seq<Threat>, fetch: Fetch)
    ensures var all := OrPlaceholder(own + FetchThreats(fetch));
      && |all| >= 1
      && (own != [] ==> all[..|own|] == own)
      && (fetch.FetchThrew? ==> all[|all| - 1] == CorsBlocked)
      && (all == [NoThreats] <== own == [] && FetchThreats(fetch) == [])
  {
    assert (own + FetchThreats(fetch))[..|own|] == own;
  }

  /** The level a deep-scan recommendation was given for. */
  function LevelOfRecommendation(text: string): Option<Risk>
  {
    if text == Danger then Some(Critical)
    else if text == AvoidData then Some(High)
    else if text == Caution then Some(Moderate)
    else if text == Passed then Some(Low)
    else None
  }

  /** Each level has its own recommendation; the deep scan says "passed" exactly at Low. */
  lemma RecommendationRoundTrip(r: Risk)
    requires IsLevel(r)
    ensures LevelOfRecommendation(Recommendation(r)) == Some(r)
  {
  }

  lemma DeepPassedIffLow(fetch: Fetch)
    ensures IsLevel(DeepRisk(fetch))
    ensures Recommendation(DeepRisk(fetch)) == Passed <==> DeepRisk(fetch) == Low
  {
  }

  /** The quick scan passes exactly at Low; a URL the parser refuses never passes. */
  lemma QuickPassedIffLow(url: string, parse: string -> Option<UrlParts>)
    ensures var r := AnalysisOf(url, parse).risk;
      (if r == Low then QuickPassed else QuickFlagged) == QuickPassed <==> r == Low
    ensures parse(Normalized(url)).None? ==> AnalysisOf(url, parse).risk == AnalysisError
  {
    assert QuickPassed[0] != QuickFlagged[0];
  }

  // ----- the tracking rule ---------------------------------------------------

  /** A page too short to hold any short-link domain. */
  const PlainPage: string := "ok"

  lemma {:induction false} NoShortLinkIn(domains: seq<string>)
    requires forall k :: 0 <= k < |domains| ==> |domains[k]| > |PlainPage|
    ensures !AnyShortLink(PlainPage, domains)
  {
    if domains != [] {
      NoShortLinkIn(domains[..|domains| - 1]);
      LongNotContained(PlainPage, domains[|domains| - 1]);
    }
  }

  lemma {:induction false} LongNotContained(s: string, p: string)
    requires |p| > |s|
    ensures !Contains(s, p)
  {
    if s != [] {
      LongNotContained(s[1..], p);
    }
  }

  /**
   * As written, heavy tracking raises the risk to High only from Low: a page
   * that also has three key listeners stays Moderate, while the same page
   * without them is High. More signals give a lower risk.
   */
  lemma KeyListenersMaskTracking()
    ensures ContentRisk(PlainPage, PageScan(3, 11, 0, 0, 0, 0, false)) == Moderate
    ensures ContentRisk(PlainPage, PageScan(0, 11, 0, 0, 0, 0, false)) == High
  {
    NoShortLinkIn(ShortLinkDomains);
  }

  /** The risk raised to at least `floor`. */
  function Raise(r: Risk, floor: Risk): Risk
  {
    if Rank(floor) > Rank(r) then floor else r
  }

  /** The tracking rule raising to High or Moderate from any lower level, as the malicious-pattern rule does. */
  function CorrectedSpywareRule(r: Risk, n: nat): Risk
  {
    if n > 10 then Raise(r, High) else if n > 5 then Raise(r, Moderate) else r
  }

  /** The content risk with the corrected tracking rule. */
  function CorrectedContentRisk(html: string, scan: PageScan): Risk
  {
    PasswordRule(ShortLinkRule(ExternalRule(MaliciousRule(CorrectedSpywareRule(KeyloggerRule(Low, scan.keylogger),
      scan.spyware), scan.malicious), scan.externalScripts), AnyShortLink(html, ShortLinkDomains)),
      scan.passwordInputs, scan.insecureAction)
  }

  /** Every count at least as large, and an insecure form kept: the scan is at least as suspicious. */
  predicate AtMostAsSuspicious(a: PageScan, b: PageScan)
  {
    a.keylogger <= b.keylogger && a.spyware <= b.spyware && a.malicious <= b.malicious
    && a.externalScripts <= b.externalScripts && a.passwordInputs <= b.passwordInputs
    && (a.insecureAction ==> b.insecureAction)
  }

  /** With the corrected rule, more suspicious content never lowers the risk. */
  lemma CorrectedRiskMonotone(html: string, a: PageScan, b: PageScan)
    requires AtMostAsSuspicious(a, b)
    ensures Rank(CorrectedContentRisk(html, a)) <= Rank(CorrectedContentRisk(html, b))
    ensures IsLevel(CorrectedContentRisk(html, b))
  {
    var found := AnyShortLink(html, ShortLinkDomains);
    var a1, b1 := KeyloggerRule(Low, a.keylogger), KeyloggerRule(Low, b.keylogger);
    var a2, b2 := CorrectedSpywareRule(a1, a.spyware), CorrectedSpywareRule(b1, b.spyware);
    var a3, b3 := MaliciousRule(a2, a.malicious), MaliciousRule(b2, b.malicious);
    var a4, b4 := ExternalRule(a3, a.externalScripts), ExternalRule(b3, b.externalScripts);
    RulesMonotone(Low, Low, a.keylogger, b.keylogger, found, a.passwordInputs, b.passwordInputs, a.insecureAction, b.insecureAction);
    RulesMonotone(a1, b1, a.spyware, b.spyware, found, 0, 0, false, false);
    RulesMonotone(a2, b2, a.malicious, b.malicious, found, 0, 0, false, false);
    RulesMonotone(a3, b3, a.externalScripts, b.externalScripts, found, 0, 0, false, false);
    RulesMonotone(a4, b4, 0, 0, found, 0, 0, false, false);
    var a5, b5 := ShortLinkRule(a4, found), ShortLinkRule(b4, found);
    RulesMonotone(a5, b5, 0, 0, found, a.passwordInputs, b.passwordInputs, a.insecureAction, b.insecureAction);
  }

  /** Each rule, the corrected tracking rule among them, keeps the order of its inputs. */
  lemma RulesMonotone(r: Risk, s: Risk, m: nat, n: nat, found: bool, p: nat, q: nat, insecure: bool, insecure': bool)
    requires IsLevel(r) && IsLevel(s) && Rank(r) <= Rank(s) && m <= n && p <= q && (insecure ==> insecure')
    ensures IsLevel(KeyloggerRule(s, n)) && Rank(KeyloggerRule(r, m)) <= Rank(KeyloggerRule(s, n))
    ensures IsLevel(CorrectedSpywareRule(s, n)) && Rank(CorrectedSpywareRule(r, m)) <= Rank(CorrectedSpywareRule(s, n))
    ensures IsLevel(MaliciousRule(s, n)) && Rank(MaliciousRule(r, m)) <= Rank(MaliciousRule(s, n))
    ensures IsLevel(ExternalRule(s, n)) && Rank(ExternalRule(r, m)) <= Rank(ExternalRule(s, n))
    ensures IsLevel(ShortLinkRule(s, found)) && Rank(ShortLinkRule(r, found)) <= Rank(ShortLinkRule(s, found))
    ensures IsLevel(PasswordRule(s, q, insecure')) && Rank(PasswordRule(r, p, insecure)) <= Rank(PasswordRule(s, q, insecure'))
  {
  }

  /** The correction changes only the tracking rule: without heavy tracking nothing differs. */
  lemma CorrectionOnlyTracking(html: string, scan: PageScan)
    requires scan.spyware <= 10 || scan.keylogger <= 2
    ensures CorrectedContentRisk(html, scan) == ContentRisk(html, scan)
  {
    ContentRiskIsRuleChain(html, scan);
  }
}
