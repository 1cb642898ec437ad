/**
 * CRXcavator-style risk analysis of a browser extension: a fixed table of API
 * permissions with risk levels, the breadth of its host permissions, the
 * weaknesses of its Content Security Policy, and the report that adds these
 * up into a total score and a risk band.
 */
module ExtensionRisk {
  import opened Wrappers
  import opened Str

  datatype RiskLevel = Critical | High | Medium | Low | None
  {
    /** The numeric discriminant (`Critical = 4` ... `None = 0`), which orders levels. */
    function Rank(): nat
    {
      match this
      case Critical => 4
      case High => 3
      case Medium => 2
      case Low => 1
      case None => 0
    }

    function AsStr(): string
    {
      match this
      case Critical => "critical"
      case High => "high"
      case Medium => "medium"
      case Low => "low"
      case None => "none"
    }

    function Score(): nat
    {
      match this
      case Critical => 100
      case High => 50
      case Medium => 20
      case Low => 5
      case None => 0
    }
  }

  /** A more severe level always weighs more: the score order is the level order. */
  lemma ScoreFollowsRank(a: RiskLevel, b: RiskLevel)
    ensures a.Rank() < b.Rank() <==> a.Score() < b.Score()
    ensures a == b <==> a.Score() == b.Score()
    ensures a == b <==> a.AsStr() == b.AsStr()
  {
  }

  datatype PermissionRisk = PermissionRisk(name: string, level: RiskLevel, description: string, warning: Option<string>)

  datatype CspAnalysis = CspAnalysis(
    hasCsp: bool,
    allowsUnsafeEval: bool,
    allowsUnsafeInline: bool,
    allowsRemoteScripts: bool,
    allowedDomains: seq<string>,
    issues: seq<string>,
    score: nat)

  /** `CspAnalysis::default()`. */
  const EmptyCsp := CspAnalysis(false, false, false, false, [], [], 0)

  datatype HostPermissionScope = None | Specific | Broad | AllUrls
  {
    function Rank(): nat
    {
      match this
      case None => 0
      case Specific => 1
      case Broad => 2
      case AllUrls => 3
    }

    function Score(): nat
    {
      match this
      case None => 0
      case Specific => 5
      case Broad => 30
      case AllUrls => 80
    }
  }

  /** Wider host access always weighs more. */
  lemma HostScoreFollowsRank(a: HostPermissionScope, b: HostPermissionScope)
    ensures a.Rank() < b.Rank() <==> a.Score() < b.Score()
  {
  }

  datatype RiskIssue = RiskIssue(category: string, severity: RiskLevel, title: string, description: string)

  datatype ExtensionRiskReport = ExtensionRiskReport(
    totalScore: nat,
    riskLevel: string,
    permissions: seq<PermissionRisk>,
    hostPermissions: seq<string>,
    hostPermissionScope: HostPermissionScope,
    csp: CspAnalysis,
    externalDomains: seq<string>,
    issues: seq<RiskIssue>)

  // ---------------------------------------------------------------------------
  // The permission database: one table per level, mapping a permission name
  // to its (description, warning).

  /** Critical: access to or control over everything the browser sees. */
  function CriticalEntry(p: string): Option<(string, string)>
  {
    match p
    case "debugger" => Some(("Access browser debugger", "Can read and modify all data on all websites"))
    case "proxy" => Some(("Control browser proxy settings", "Can intercept all network traffic"))
    case "vpnProvider" => Some(("VPN provider access", "Can route all network traffic"))
    case "webAuthenticationProxy" => Some(("Web authentication proxy", "Can intercept authentication flows"))
    case _ => Option.None
  }

  /** High: significant access to user data. */
  function HighEntry(p: string): Option<(string, string)>
  {
    match p
    case "tabs" => Some(("Read browser tabs", "Can see URLs and titles of all open tabs"))
    case "webNavigation" => Some(("Monitor navigation", "Can read your browsing history"))
    case "history" => Some(("Access browsing history", "Can read and modify browsing history"))
    case "bookmarks" => Some(("Access bookmarks", "Can read and modify your bookmarks"))
    case "topSites" => Some(("Access top sites", "Can see your most visited websites"))
    case "sessions" => Some(("Access session data", "Can access recently closed tabs and windows"))
    case "cookies" => Some(("Access cookies", "Can read and modify cookies for any website"))
    case "webRequest" => Some(("Intercept web requests", "Can observe and analyze traffic"))
    case "webRequestBlocking" => Some(("Block web requests", "Can block or modify network requests"))
    case "declarativeNetRequest" => Some(("Modify network requests", "Can redirect or modify requests"))
    case "declarativeNetRequestWithHostAccess" => Some(("Modify requests with host access", "Can modify requests to allowed hosts"))
    case "pageCapture" => Some(("Capture pages", "Can capture full page content as MHTML"))
    case "tabCapture" => Some(("Capture tabs", "Can capture video/audio from tabs"))
    case "desktopCapture" => Some(("Capture screen", "Can capture your entire screen"))
    case "nativeMessaging" => Some(("Native messaging", "Can communicate with programs on your computer"))
    case "management" => Some(("Manage extensions", "Can manage other installed extensions"))
    case "privacy" => Some(("Change privacy settings", "Can modify browser privacy settings"))
    case "browsingData" => Some(("Clear browsing data", "Can delete browsing history and data"))
    case "contentSettings" => Some(("Modify content settings", "Can change website permissions"))
    case "downloads" => Some(("Access downloads", "Can manage downloaded files"))
    case "downloads.open" => Some(("Open downloads", "Can open downloaded files"))
    case "clipboardRead" => Some(("Read clipboard", "Can read data you copy"))
    case _ => Option.None
  }

  /** Medium: moderate access. */
  function MediumEntry(p: string): Option<(string, string)>
  {
    match p
    case "activeTab" => Some(("Access active tab", "Can access current tab when you click the extension"))
    case "scripting" => Some(("Inject scripts", "Can inject JavaScript into web pages"))
    case "geolocation" => Some(("Access location", "Can detect your physical location"))
    case "notifications" => Some(("Show notifications", "Can display desktop notifications"))
    case "clipboardWrite" => Some(("Write clipboard", "Can modify your clipboard"))
    case "identity" => Some(("Access identity", "Can access your browser identity"))
    case "identity.email" => Some(("Access email", "Can see your email address"))
    case "tts" => Some(("Text to speech", "Can use text-to-speech"))
    case "ttsEngine" => Some(("TTS engine", "Can provide text-to-speech engine"))
    case "webRequestAuthProvider" => Some(("Auth provider", "Can provide authentication"))
    case "userScripts" => Some(("User scripts", "Can execute user scripts"))
    case "offscreen" => Some(("Offscreen documents", "Can create offscreen documents"))
    case _ => Option.None
  }

  /** Low: limited functionality. */
  function LowEntry(p: string): Option<(string, string)>
  {
    match p
    case "storage" => Some(("Store data", "Can store extension data locally"))
    case "unlimitedStorage" => Some(("Unlimited storage", "Can store large amounts of data"))
    case "alarms" => Some(("Set alarms", "Can schedule periodic tasks"))
    case "contextMenus" => Some(("Context menus", "Can add items to right-click menu"))
    case "idle" => Some(("Detect idle", "Can detect when you're idle"))
    case "power" => Some(("Power management", "Can affect power saving"))
    case "system.cpu" => Some(("CPU info", "Can read CPU information"))
    case "system.memory" => Some(("Memory info", "Can read memory usage"))
    case "system.display" => Some(("Display info", "Can read display information"))
    case "system.storage" => Some(("Storage info", "Can read storage information"))
    case "fontSettings" => Some(("Font settings", "Can modify font settings"))
    case "runtime" => Some(("Runtime API", "Basic extension runtime access"))
    case "gcm" => Some(("Cloud messaging", "Can receive push messages"))
    case "sidePanel" => Some(("Side panel", "Can show side panel"))
    case "favicon" => Some(("Favicon access", "Can access website favicons"))
    case "readingList" => Some(("Reading list", "Can access reading list"))
    case "tabGroups" => Some(("Tab groups", "Can organize tabs into groups"))
    case _ => Option.None
  }

  predicate Known(p: string)
  {
    CriticalEntry(p).Some? || HighEntry(p).Some? || MediumEntry(p).Some? || LowEntry(p).Some?
  }

  /**
   * `get_permission_risk`: the tables are consulted from Critical down to Low;
   * a name in none of them is an unknown permission, rated Low, without a warning.
   */
  function GetPermissionRisk(p: string): (r: PermissionRisk)
    ensures r.name == p
    ensures r.level != RiskLevel.None
  {
    match CriticalEntry(p)
    case Some(e) => PermissionRisk(p, Critical, e.0, Some(e.1))
    case None =>
      match HighEntry(p)
      case Some(e) => PermissionRisk(p, High, e.0, Some(e.1))
      case None =>
        match MediumEntry(p)
        case Some(e) => PermissionRisk(p, Medium, e.0, Some(e.1))
        case None =>
          match LowEntry(p)
          case Some(e) => PermissionRisk(p, Low, e.0, Some(e.1))
          case None => PermissionRisk(p, Low, "Unknown permission: " + p, Option.None)
  }

  /**
   * The level of a permission is that of the first table, from Critical down,
   * that lists it; it has a warning exactly when some table lists it, and an
   * unlisted permission is described as unknown.
   */
  lemma PermissionLevels(p: string)
    ensures var r := GetPermissionRisk(p);
      && (r.warning.Some? <==> Known(p))
      && (r.level == Critical <==> CriticalEntry(p).Some?)
      && (r.level == High <==> CriticalEntry(p).None? && HighEntry(p).Some?)
      && (r.level == Medium <==> CriticalEntry(p).None? && HighEntry(p).None? && MediumEntry(p).Some?)
      && (r.level == Low <==> CriticalEntry(p).None? && HighEntry(p).None? && MediumEntry(p).None?)
      && (Known(p) ==> r.warning == Some(
            if CriticalEntry(p).Some? then CriticalEntry(p).value.1
            else if HighEntry(p).Some? then HighEntry(p).value.1
            else if MediumEntry(p).Some? then MediumEntry(p).value.1
            else LowEntry(p).value.1))
      && (!Known(p) ==> r.description == "Unknown permission: " + p)
  {
  }

  /** The level assertions of the unit tests of the permission table, one table at a time. */
  lemma CriticalSample()
    ensures GetPermissionRisk("debugger").level == Critical
  {
  }

  lemma HighSample()
    ensures GetPermissionRisk("tabs").level == High
  {
  }

  lemma MediumSample()
    ensures GetPermissionRisk("activeTab").level == Medium
  {
  }

  lemma LowSample()
    ensures GetPermissionRisk("storage").level == Low
    ensures GetPermissionRisk("storage").warning == Some("Can store extension data locally")
  {
  }

  // ---------------------------------------------------------------------------
  // Host permissions

  /** The four patterns that grant access to every URL. */
  predicate IsAllUrlsPattern(h: string)
  {
    h == "<all_urls>" || h == "*://*/*" || h == "http://*/*" || h == "https://*/*"
  }

  /** The host part examined for wildcards: schemes stripped, then everything up to the first `/`. */
  function DomainPart(h: string): string
  {
    Split(TrimStartMatches(TrimStartMatches(TrimStartMatches(h, "*://"), "http://"), "https://"), '/')[0]
  }

  /** A pattern with a wildcard host (`*.google.com` or `*`) that is not an all-URLs pattern. */
  predicate IsBroadPattern(h: string)
  {
    var d := DomainPart(h);
    !IsAllUrlsPattern(h) && (StartsWith(d, "*.") || d == "*")
  }

  /**
   * `extract_domain_from_pattern`: the host of a match pattern once the `*://`,
   * `http://`, `https://` and `file://` prefixes are stripped in that order;
   * the bare wildcard `*` has no domain.
   */
  function ExtractDomain(pattern: string): Option<string>
  {
    var rest := TrimStartMatches(TrimStartMatches(TrimStartMatches(TrimStartMatches(pattern, "*://"), "http://"), "https://"), "file://");
    var d := Split(rest, '/')[0];
    if d == "*" then Option.None else Some(d)
  }

  /**
   * There is no domain exactly when the host segment (all scheme prefixes
   * stripped, cut at the first `/`) is the bare wildcard; otherwise the domain
   * is that segment, which holds no `/` and starts the stripped pattern.
   */
  lemma ExtractDomainSpec(pattern: string)
    ensures var rest := TrimStartMatches(TrimStartMatches(TrimStartMatches(TrimStartMatches(pattern, "*://"), "http://"), "https://"), "file://");
      && (ExtractDomain(pattern).None? <==> Split(rest, '/')[0] == "*")
      && (ExtractDomain(pattern).Some? ==>
            var d := ExtractDomain(pattern).value;
            '/' !in d && StartsWith(rest, d) && |d| <= |rest| && (|d| < |rest| ==> rest[|d|] == '/'))
  {
    var rest := TrimStartMatches(TrimStartMatches(TrimStartMatches(TrimStartMatches(pattern, "*://"), "http://"), "https://"), "file://");
    SplitPiecesFree(rest, '/');
    SplitFirst(rest, '/');
    StartsWithIff(rest, Split(rest, '/')[0]);
  }

  /** Some host satisfies `f`, scanning from the last host back. */
  predicate AnyHost(hosts: seq<string>, f: string -> bool)
  {
    hosts != [] && (AnyHost(hosts[..|hosts| - 1], f) || f(hosts[|hosts| - 1]))
  }

  lemma {:induction false} AnyHostIff(hosts: seq<string>, f: string -> bool)
    ensures AnyHost(hosts, f) <==> exists i :: 0 <= i < |hosts| && f(hosts[i])
    decreases |hosts|
  {
    if hosts != [] {
      var init := hosts[..|hosts| - 1];
      AnyHostIff(init, f);
      assert forall i :: 0 <= i < |init| ==> init[i] == hosts[i];
    }
  }

  predicate AllUrlsHost(h: string)
  {
    IsAllUrlsPattern(Trim(h))
  }

  predicate BroadHost(h: string)
  {
    IsBroadPattern(Trim(h))
  }

  /** Some trimmed host is an all-URLs pattern. */
  predicate AnyAllUrls(hosts: seq<string>)
  {
    AnyHost(hosts, AllUrlsHost)
  }

  /** Some trimmed host is a broad wildcard pattern. */
  predicate AnyBroad(hosts: seq<string>)
  {
    AnyHost(hosts, BroadHost)
  }

  lemma AnyAllUrlsIff(hosts: seq<string>)
    ensures AnyAllUrls(hosts) <==> exists i :: 0 <= i < |hosts| && IsAllUrlsPattern(Trim(hosts[i]))
  {
    AnyHostIff(hosts, AllUrlsHost);
    assert forall i :: 0 <= i < |hosts| ==> (AllUrlsHost(hosts[i]) <==> IsAllUrlsPattern(Trim(hosts[i])));
  }

  lemma AnyBroadIff(hosts: seq<string>)
    ensures AnyBroad(hosts) <==> exists i :: 0 <= i < |hosts| && IsBroadPattern(Trim(hosts[i]))
  {
    AnyHostIff(hosts, BroadHost);
    assert forall i :: 0 <= i < |hosts| ==> (BroadHost(hosts[i]) <==> IsBroadPattern(Trim(hosts[i])));
  }

  /** The breadth of a list of host permissions: the widest pattern it contains. */
  function HostScope(hosts: seq<string>): HostPermissionScope
  {
    if hosts == [] then HostPermissionScope.None
    else if AnyAllUrls(hosts) then AllUrls
    else if AnyBroad(hosts) then Broad
    else Specific
  }

  /**
   * The scope is none exactly for no hosts, all-URLs exactly when some trimmed
   * host is one of the four all-URLs patterns, broad exactly when otherwise some
   * host has a wildcard domain, and specific in every other case.
   */
  lemma HostScopeCases(hosts: seq<string>)
    ensures HostScope(hosts) == HostPermissionScope.None <==> hosts == []
    ensures HostScope(hosts) == AllUrls <==> exists i :: 0 <= i < |hosts| && IsAllUrlsPattern(Trim(hosts[i]))
    ensures HostScope(hosts) == Broad <==>
      (forall i :: 0 <= i < |hosts| ==> !IsAllUrlsPattern(Trim(hosts[i])))
      && exists i :: 0 <= i < |hosts| && IsBroadPattern(Trim(hosts[i]))
  {
    AnyAllUrlsIff(hosts);
    AnyBroadIff(hosts);
  }

  /** The domains of the hosts, in list order, duplicates included. */
  function HostDomains(hosts: seq<string>): seq<string>
  {
    if hosts == [] then []
    else
      var init := HostDomains(hosts[..|hosts| - 1]);
      match ExtractDomain(Trim(hosts[|hosts| - 1]))
      case None => init
      case Some(d) => init + [d]
  }

  /** Appending `d` unless it is already there. */
  function PushNew(s: seq<string>, d: string): seq<string>
  {
    if d in s then s else s + [d]
  }

  /** First occurrences only, in first-seen order. */
  function Dedup(s: seq<string>): seq<string>
  {
    if s == [] then [] else PushNew(Dedup(s[..|s| - 1]), s[|s| - 1])
  }

  predicate NoDuplicates(s: seq<string>)
  {
    forall i, j :: 0 <= i < j < |s| ==> s[i] != s[j]
  }

  /** Deduplication keeps every element, adds none, and leaves no repeats. */
  lemma {:induction false} DedupProperties(s: seq<string>)
    ensures NoDuplicates(Dedup(s))
    ensures forall x :: x in Dedup(s) <==> x in s
    decreases |s|
  {
    if s != [] {
      var init := s[..|s| - 1];
      DedupProperties(init);
      assert s == init + [s[|s| - 1]];
    }
  }

  /**
   * First-seen order: deduplicating a longer list only appends to the
   * deduplication of its prefix.
   */
  lemma {:induction false} DedupPrefix(a: seq<string>, b: seq<string>)
    ensures |Dedup(a)| <= |Dedup(a + b)| && Dedup(a + b)[..|Dedup(a)|] == Dedup(a)
    decreases |b|
  {
    if b == [] {
      assert a + b == a;
    } else {
      var ab := a + b;
      assert ab[..|ab| - 1] == a + b[..|b| - 1];
      DedupPrefix(a, b[..|b| - 1]);
    }
  }

  /** A list that is already free of repeats is its own deduplication. */
  lemma {:induction false} DedupOfDistinct(s: seq<string>)
    requires NoDuplicates(s)
    ensures Dedup(s) == s
    decreases |s|
  {
    if s != [] {
      var init := s[..|s| - 1];
      DedupOfDistinct(init);
      assert s[|s| - 1] !in init;
      assert s == init + [s[|s| - 1]];
    }
  }

  /** The scope after one more trimmed host: all-URLs wins, then broad. */
  function NextScope(scope: HostPermissionScope, host: string): HostPermissionScope
  {
    if IsAllUrlsPattern(host) then AllUrls
    else if IsBroadPattern(host) && scope != AllUrls then Broad
    else scope
  }

  /** The scope of a non-empty prefix of hosts. */
  function ScopeOf(hosts: seq<string>): HostPermissionScope
  {
    if AnyAllUrls(hosts) then AllUrls else if AnyBroad(hosts) then Broad else Specific
  }

  /** One host more: the scope moves by `NextScope` and the domains by `PushNew`. */
  lemma HostStep(hosts: seq<string>, i: nat)
    requires i < |hosts|
    ensures ScopeOf(hosts[..i + 1]) == NextScope(ScopeOf(hosts[..i]), Trim(hosts[i]))
    ensures Dedup(HostDomains(hosts[..i + 1])) ==
      match ExtractDomain(Trim(hosts[i]))
      case None => Dedup(HostDomains(hosts[..i]))
      case Some(d) => PushNew(Dedup(HostDomains(hosts[..i])), d)
  {
    var pre := hosts[..i + 1];
    assert pre[..i] == hosts[..i];
    assert pre[i] == hosts[i];
    assert AnyAllUrls(pre) == (AnyAllUrls(hosts[..i]) || AllUrlsHost(hosts[i]));
    assert AnyBroad(pre) == (AnyBroad(hosts[..i]) || BroadHost(hosts[i]));
    var host := Trim(hosts[i]);
    if IsAllUrlsPattern(host) {
      assert !IsBroadPattern(host);
    }
    match ExtractDomain(host)
    case None =>
    case Some(d) =>
      assert HostDomains(pre) == HostDomains(hosts[..i]) + [d];
  }

  /** The scope test of the loop body, on one trimmed host. */
  method ScanHostScope(scope: HostPermissionScope, host: string) returns (next: HostPermissionScope)
    ensures next == NextScope(scope, host)
  {
    next := scope;
    if host == "<all_urls>" || host == "*://*/*" || host == "http://*/*" || host == "https://*/*" {
      next := AllUrls;
    } else {
      var domainPart := Split(TrimStartMatches(TrimStartMatches(TrimStartMatches(host, "*://"), "http://"), "https://"), '/')[0];
      if StartsWith(domainPart, "*.") || domainPart == "*" {
        if scope != AllUrls {
          next := Broad;
        }
      }
    }
  }

  /**
   * `analyze_host_permissions`: the scope is the widest pattern among the
   * trimmed hosts, and the domains are their distinct hosts in first-seen order.
   */
  method AnalyzeHostPermissions(hosts: seq<string>) returns (scope: HostPermissionScope, domains: seq<string>)
    ensures scope == HostScope(hosts)
    ensures domains == Dedup(HostDomains(hosts))
    ensures NoDuplicates(domains)
    ensures forall d :: d in domains <==> d in HostDomains(hosts)
  {
    if hosts == [] {
      return HostPermissionScope.None, [];
    }
    scope := Specific;
    domains := [];
    var i := 0;
    while i < |hosts|
      invariant 0 <= i <= |hosts|
      invariant scope == ScopeOf(hosts[..i])
      invariant domains == Dedup(HostDomains(hosts[..i]))
    {
      var host := Trim(hosts[i]);
      HostStep(hosts, i);
      scope := ScanHostScope(scope, host);
      var extracted := ExtractDomain(host);
      if extracted.Some? {
        var domain := extracted.value;
        if domain !in domains {
          domains := domains + [domain];
        }
      }
      i := i + 1;
    }
    assert hosts[..i] == hosts;
    DedupProperties(HostDomains(hosts));
  }

  // ---------------------------------------------------------------------------
  // Content Security Policy

  const UnsafeEvalIssue := "CSP allows unsafe-eval (enables eval())"
  const UnsafeInlineIssue := "CSP allows unsafe-inline scripts"
  const NoCspIssue := "No Content Security Policy defined"

  predicate IsRemote(v: string)
  {
    StartsWith(v, "http://") || StartsWith(v, "https://")
  }

  /** One source value of a `script-src` or `default-src` directive. */
  function ScriptValueStep(a: CspAnalysis, v: string): CspAnalysis
  {
    RemoteStep(UnsafeStep(a, v), v)
  }

  /** The two unsafe keywords: a flag, an issue and points each. */
  function UnsafeStep(a: CspAnalysis, v: string): CspAnalysis
  {
    var a1 := if v == "'unsafe-eval'" then a.(allowsUnsafeEval := true, issues := a.issues + [UnsafeEvalIssue], score := a.score + 40) else a;
    if v == "'unsafe-inline'" then a1.(allowsUnsafeInline := true, issues := a1.issues + [UnsafeInlineIssue], score := a1.score + 30) else a1
  }

  /** A remote source: the flag, and its domain when it has one. */
  function RemoteStep(a: CspAnalysis, v: string): CspAnalysis
  {
    if IsRemote(v) then
      var a3 := a.(allowsRemoteScripts := true);
      match ExtractDomain(v)
      case None => a3
      case Some(d) => a3.(allowedDomains := a3.allowedDomains + [d])
    else a
  }

  /** A remote source touches neither the score, the issues, nor the other flags. */
  lemma RemoteStepKeeps(a: CspAnalysis, v: string)
    ensures var b := RemoteStep(a, v);
      && b.score == a.score && b.issues == a.issues && b.hasCsp == a.hasCsp
      && b.allowsUnsafeEval == a.allowsUnsafeEval && b.allowsUnsafeInline == a.allowsUnsafeInline
  {
  }

  /** One source value of a `connect-src` directive: only new domains are recorded. */
  function ConnectValueStep(a: CspAnalysis, v: string): CspAnalysis
  {
    if IsRemote(v) || Contains(v, "*") then
      match ExtractDomain(v)
      case None => a
      case Some(d) => a.(allowedDomains := PushNew(a.allowedDomains, d))
    else a
  }

  predicate IsScriptDirective(name: string)
  {
    name == "script-src" || name == "default-src"
  }

  /** The values of one directive, applied in order. */
  function ValuesStep(name: string, a: CspAnalysis, values: seq<string>): CspAnalysis
  {
    if values == [] then a
    else
      var a0 := ValuesStep(name, a, values[..|values| - 1]);
      var v := values[|values| - 1];
      if IsScriptDirective(name) then ScriptValueStep(a0, v)
      else if name == "connect-src" then ConnectValueStep(a0, v)
      else a0
  }

  /** The words of a directive: empty when the trimmed directive is empty. */
  function DirectiveWords(directive: string): seq<string>
  {
    var t := Trim(directive);
    if t == [] then [] else SplitWhitespace(t)
  }

  function DirectiveStep(a: CspAnalysis, directive: string): CspAnalysis
  {
    var parts := DirectiveWords(directive);
    if parts == [] then a else ValuesStep(parts[0], a, parts[1..])
  }

  function DirectivesStep(a: CspAnalysis, directives: seq<string>): CspAnalysis
  {
    if directives == [] then a
    else DirectiveStep(DirectivesStep(a, directives[..|directives| - 1]), directives[|directives| - 1])
  }

  /** The closing summary: remote script sources add an issue and 10 points per recorded domain. */
  function FinishCsp(a: CspAnalysis): CspAnalysis
  {
    if a.allowsRemoteScripts then
      a.(issues := a.issues + ["CSP allows loading scripts from " + NatToString(|a.allowedDomains|) + " external domain(s)"],
         score := a.score + 10 * |a.allowedDomains|)
    else a
  }

  /** The body of the `script-src` / `default-src` loop for one value. */
  method ScanScriptValue(a: CspAnalysis, value: string) returns (analysis: CspAnalysis)
    ensures analysis == ScriptValueStep(a, value)
  {
    analysis := a;
    if value == "'unsafe-eval'" {
      analysis := analysis.(allowsUnsafeEval := true, issues := analysis.issues + [UnsafeEvalIssue], score := analysis.score + 40);
    }
    if value == "'unsafe-inline'" {
      analysis := analysis.(allowsUnsafeInline := true, issues := analysis.issues + [UnsafeInlineIssue], score := analysis.score + 30);
    }
    if StartsWith(value, "http://") || StartsWith(value, "https://") {
      analysis := analysis.(allowsRemoteScripts := true);
      var domain := ExtractDomain(value);
      if domain.Some? {
        analysis := analysis.(allowedDomains := analysis.allowedDomains + [domain.value]);
      }
    }
  }

  /** The body of the `connect-src` loop for one value. */
  method ScanConnectValue(a: CspAnalysis, value: string) returns (analysis: CspAnalysis)
    ensures analysis == ConnectValueStep(a, value)
  {
    analysis := a;
    if StartsWith(value, "http://") || StartsWith(value, "https://") || Contains(value, "*") {
      var domain := ExtractDomain(value);
      if domain.Some? && domain.value !in analysis.allowedDomains {
        analysis := analysis.(allowedDomains := analysis.allowedDomains + [domain.value]);
      }
    }
  }

  /** The analysis `analyze_csp` produces for a policy. */
  function CspOf(csp: Option<string>): CspAnalysis
  {
    if csp.None? || csp.value == [] then EmptyCsp.(issues := [NoCspIssue], score := 30)
    else FinishCsp(DirectivesStep(EmptyCsp.(hasCsp := true), Split(csp.value, ';')))
  }

  /** The inner loop of `analyze_csp`: the values of one directive, in order. */
  method ScanValues(name: string, start: CspAnalysis, values: seq<string>) returns (analysis: CspAnalysis)
    ensures analysis == ValuesStep(name, start, values)
  {
    analysis := start;
    var j := 0;
    while j < |values|
      invariant 0 <= j <= |values|
      invariant analysis == ValuesStep(name, start, values[..j])
    {
      assert values[..j + 1][..j] == values[..j];
      if name == "script-src" || name == "default-src" {
        analysis := ScanScriptValue(analysis, values[j]);
      } else if name == "connect-src" {
        analysis := ScanConnectValue(analysis, values[j]);
      }
      j := j + 1;
    }
    assert values[..j] == values;
  }

  /** `analyze_csp`, directive by directive and value by value. */
  method AnalyzeCsp(csp: Option<string>) returns (analysis: CspAnalysis)
    ensures analysis == CspOf(csp)
  {
    analysis := EmptyCsp;
    if csp.None? || csp.value == [] {
      analysis := analysis.(issues := analysis.issues + [NoCspIssue], score := 30);
      return;
    }
    analysis := analysis.(hasCsp := true);
    var directives := Split(csp.value, ';');
    var i := 0;
    while i < |directives|
      invariant 0 <= i <= |directives|
      invariant analysis == DirectivesStep(EmptyCsp.(hasCsp := true), directives[..i])
    {
      assert directives[..i + 1][..i] == directives[..i];
      var directive := Trim(directives[i]);
      if directive != [] {
        var parts := SplitWhitespace(directive);
        if parts != [] {
          var name := parts[0];
          var values := parts[1..];
          analysis := ScanValues(name, analysis, values);
        }
      }
      i := i + 1;
    }
    assert directives[..i] == directives;
    if analysis.allowsRemoteScripts {
      analysis := analysis.(issues := analysis.issues + ["CSP allows loading scripts from " + NatToString(|analysis.allowedDomains|) + " external domain(s)"],
                            score := analysis.score + 10 * |analysis.allowedDomains|);
    }
  }

  /** Number of copies of `v` in `s`. */
  function Occurrences(s: seq<string>, v: string): nat
  {
    if s == [] then 0 else Occurrences(s[..|s| - 1], v) + (if s[|s| - 1] == v then 1 else 0)
  }

  /** The source values of the `script-src` and `default-src` directives, in policy order. */
  function ScriptValues(directives: seq<string>): seq<string>
  {
    if directives == [] then []
    else
      var parts := DirectiveWords(directives[|directives| - 1]);
      ScriptValues(directives[..|directives| - 1])
      + (if parts != [] && IsScriptDirective(parts[0]) then parts[1..] else [])
  }

  /** What one directive's values add: 40 per `'unsafe-eval'`, 30 per `'unsafe-inline'`, a flag for each. */
  lemma {:induction false} ValuesStepEffect(name: string, a: CspAnalysis, values: seq<string>)
    ensures var b := ValuesStep(name, a, values);
      var e := if IsScriptDirective(name) then Occurrences(values, "'unsafe-eval'") else 0;
      var n := if IsScriptDirective(name) then Occurrences(values, "'unsafe-inline'") else 0;
      && b.score == a.score + 40 * e + 30 * n
      && |b.issues| == |a.issues| + e + n
      && (b.allowsUnsafeEval <==> a.allowsUnsafeEval || e > 0)
      && (b.allowsUnsafeInline <==> a.allowsUnsafeInline || n > 0)
      && b.hasCsp == a.hasCsp
    decreases |values|
  {
    if values != [] {
      var init := values[..|values| - 1];
      var v := values[|values| - 1];
      ValuesStepEffect(name, a, init);
      var a0 := ValuesStep(name, a, init);
      if IsScriptDirective(name) {
        ScriptValueStepEffect(a0, v);
      } else if name == "connect-src" {
        ConnectValueStepEffect(a0, v);
      }
    }
  }

  /** A script source value only adds points and issues for the two unsafe keywords. */
  lemma ScriptValueStepEffect(a: CspAnalysis, v: string)
    ensures var b := ScriptValueStep(a, v);
      var e := if v == "'unsafe-eval'" then 1 else 0;
      var n := if v == "'unsafe-inline'" then 1 else 0;
      && b.score == a.score + 40 * e + 30 * n
      && |b.issues| == |a.issues| + e + n
      && (b.allowsUnsafeEval <==> a.allowsUnsafeEval || e > 0)
      && (b.allowsUnsafeInline <==> a.allowsUnsafeInline || n > 0)
      && b.hasCsp == a.hasCsp
  {
    RemoteStepKeeps(UnsafeStep(a, v), v);
  }

  /** A `connect-src` value changes nothing but the recorded domains. */
  lemma ConnectValueStepEffect(a: CspAnalysis, v: string)
    ensures ConnectValueStep(a, v) == a.(allowedDomains := ConnectValueStep(a, v).allowedDomains)
  {
  }

  lemma {:induction false} OccurrencesAppend(s: seq<string>, t: seq<string>, v: string)
    ensures Occurrences(s + t, v) == Occurrences(s, v) + Occurrences(t, v)
    decreases |t|
  {
    if t != [] {
      assert (s + t)[..|s + t| - 1] == s + t[..|t| - 1];
      assert (s + t)[|s + t| - 1] == t[|t| - 1];
      OccurrencesAppend(s, t[..|t| - 1], v);
    } else {
      assert s + t == s;
    }
  }

  /** The score and flags after all directives, in terms of the script source values. */
  lemma {:induction false} DirectivesStepEffect(a: CspAnalysis, directives: seq<string>)
    ensures var b := DirectivesStep(a, directives);
      var e := Occurrences(ScriptValues(directives), "'unsafe-eval'");
      var n := Occurrences(ScriptValues(directives), "'unsafe-inline'");
      && b.score == a.score + 40 * e + 30 * n
      && |b.issues| == |a.issues| + e + n
      && (b.allowsUnsafeEval <==> a.allowsUnsafeEval || e > 0)
      && (b.allowsUnsafeInline <==> a.allowsUnsafeInline || n > 0)
      && b.hasCsp == a.hasCsp
    decreases |directives|
  {
    if directives != [] {
      var init := directives[..|directives| - 1];
      var last := directives[|directives| - 1];
      DirectivesStepEffect(a, init);
      var parts := DirectiveWords(last);
      var mid := DirectivesStep(a, init);
      var extra := if parts != [] && IsScriptDirective(parts[0]) then parts[1..] else [];
      OccurrencesAppend(ScriptValues(init), extra, "'unsafe-eval'");
      OccurrencesAppend(ScriptValues(init), extra, "'unsafe-inline'");
      if parts != [] {
        ValuesStepEffect(parts[0], mid, parts[1..]);
      }
    }
  }

  /**
   * The CSP score in closed form: 30 with no policy; otherwise 40 per
   * `'unsafe-eval'` and 30 per `'unsafe-inline'` among the script sources, plus
   * 10 per recorded domain once any remote script source is allowed. The flags
   * are set exactly when the corresponding keyword occurs.
   */
  lemma CspScore(csp: Option<string>)
    ensures var a := CspOf(csp);
      && (csp.None? || csp.value == [] ==> a.score == 30 && !a.hasCsp && a.issues == [NoCspIssue])
      && (csp.Some? && csp.value != [] ==>
            var vs := ScriptValues(Split(csp.value, ';'));
            var e := Occurrences(vs, "'unsafe-eval'");
            var n := Occurrences(vs, "'unsafe-inline'");
            && a.hasCsp
            && a.score == 40 * e + 30 * n + (if a.allowsRemoteScripts then 10 * |a.allowedDomains| else 0)
            && |a.issues| == e + n + (if a.allowsRemoteScripts then 1 else 0)
            && (a.allowsUnsafeEval <==> e > 0)
            && (a.allowsUnsafeInline <==> n > 0))
  {
    if csp.Some? && csp.value != [] {
      DirectivesStepEffect(EmptyCsp.(hasCsp := true), Split(csp.value, ';'));
    }
  }

  /** The domain a `script-src` or `default-src` value records: remote values only. */
  function ScriptDomainOf(v: string): Option<string>
  {
    if IsRemote(v) then ExtractDomain(v) else Option.None
  }

  /** The domain a `connect-src` value offers: remote or wildcard values only. */
  function ConnectDomainOf(v: string): Option<string>
  {
    if IsRemote(v) || Contains(v, "*") then ExtractDomain(v) else Option.None
  }

  function OptionList(o: Option<string>): seq<string>
  {
    if o.Some? then [o.value] else []
  }

  /** The domains the script source values record, in order, repeats kept. */
  function ScriptDomains(vs: seq<string>): seq<string>
  {
    if vs == [] then [] else ScriptDomains(vs[..|vs| - 1]) + OptionList(ScriptDomainOf(vs[|vs| - 1]))
  }

  /** The domains the `connect-src` values offer, in order. */
  function ConnectDomains(vs: seq<string>): seq<string>
  {
    if vs == [] then [] else ConnectDomains(vs[..|vs| - 1]) + OptionList(ConnectDomainOf(vs[|vs| - 1]))
  }

  predicate HasRemote(vs: seq<string>)
  {
    exists i :: 0 <= i < |vs| && IsRemote(vs[i])
  }

  /** The source values of the `connect-src` directives, in policy order. */
  function ConnectValues(directives: seq<string>): seq<string>
  {
    if directives == [] then []
    else
      var parts := DirectiveWords(directives[|directives| - 1]);
      ConnectValues(directives[..|directives| - 1])
      + (if parts != [] && parts[0] == "connect-src" then parts[1..] else [])
  }

  lemma {:induction false} ScriptDomainsAppend(s: seq<string>, t: seq<string>)
    ensures ScriptDomains(s + t) == ScriptDomains(s) + ScriptDomains(t)
    decreases |t|
  {
    if t == [] {
      assert s + t == s;
    } else {
      assert (s + t)[..|s + t| - 1] == s + t[..|t| - 1];
      ScriptDomainsAppend(s, t[..|t| - 1]);
    }
  }

  lemma {:induction false} ConnectDomainsAppend(s: seq<string>, t: seq<string>)
    ensures ConnectDomains(s + t) == ConnectDomains(s) + ConnectDomains(t)
    decreases |t|
  {
    if t == [] {
      assert s + t == s;
    } else {
      assert (s + t)[..|s + t| - 1] == s + t[..|t| - 1];
      ConnectDomainsAppend(s, t[..|t| - 1]);
    }
  }

  lemma HasRemoteAppend(s: seq<string>, t: seq<string>)
    ensures HasRemote(s + t) <==> HasRemote(s) || HasRemote(t)
  {
    if HasRemote(s + t) {
      var i :| 0 <= i < |s + t| && IsRemote((s + t)[i]);
      if i >= |s| {
        assert t[i - |s|] == (s + t)[i];
      }
    }
    if HasRemote(t) {
      var i :| 0 <= i < |t| && IsRemote(t[i]);
      assert (s + t)[|s| + i] == t[i];
    }
    if HasRemote(s) {
      var i :| 0 <= i < |s| && IsRemote(s[i]);
      assert (s + t)[i] == s[i];
    }
  }

  /** A script value sets the remote flag iff it is remote, and appends its domain, if any. */
  lemma ScriptValueStepDomains(a: CspAnalysis, v: string)
    ensures var b := ScriptValueStep(a, v);
      && (b.allowsRemoteScripts <==> a.allowsRemoteScripts || IsRemote(v))
      && b.allowedDomains == a.allowedDomains + OptionList(ScriptDomainOf(v))
  {
  }

  /** A `connect-src` value leaves the flag alone and adds its domain unless already recorded. */
  lemma ConnectValueStepDomains(a: CspAnalysis, v: string)
    ensures var b := ConnectValueStep(a, v);
      && b.allowsRemoteScripts == a.allowsRemoteScripts
      && (forall d :: d in b.allowedDomains <==> d in a.allowedDomains || d in OptionList(ConnectDomainOf(v)))
      && (ConnectDomainOf(v).None? ==> b.allowedDomains == a.allowedDomains)
      && (ConnectDomainOf(v).Some? && ConnectDomainOf(v).value in a.allowedDomains ==> b.allowedDomains == a.allowedDomains)
      && (ConnectDomainOf(v).Some? && ConnectDomainOf(v).value !in a.allowedDomains ==> b.allowedDomains == a.allowedDomains + [ConnectDomainOf(v).value])
  {
  }

  /**
   * `t` extends `s` by domains not in `s`, each drawn from `pool`, with no
   * domain appended twice.
   */
  ghost predicate FreshExtension(s: seq<string>, t: seq<string>, pool: seq<string>)
  {
    && |s| <= |t| && t[..|s|] == s
    && (forall i :: |s| <= i < |t| ==> t[i] !in s && t[i] in pool)
    && (forall i, j :: |s| <= i < j < |t| ==> t[i] != t[j])
  }

  /** Pushing a domain of the pool keeps the extension fresh. */
  lemma FreshExtensionPush(s: seq<string>, t: seq<string>, pool: seq<string>, o: Option<string>)
    requires FreshExtension(s, t, pool)
    ensures FreshExtension(s, if o.Some? then PushNew(t, o.value) else t, pool + OptionList(o))
  {
    var pool' := pool + OptionList(o);
    assert forall x :: x in pool ==> x in pool';
    if o.Some? && o.value !in t {
      var t' := t + [o.value];
      assert t'[..|s|] == s;
      assert o.value in pool';
    }
  }

  /**
   * A `connect-src` directive only appends domains, each one not recorded
   * before and offered by one of its values, and never the same domain twice.
   */
  lemma {:induction false} ConnectValuesAppendFresh(a: CspAnalysis, values: seq<string>)
    ensures FreshExtension(a.allowedDomains, ValuesStep("connect-src", a, values).allowedDomains, ConnectDomains(values))
    decreases |values|
  {
    if values == [] {
      assert a.allowedDomains[..|a.allowedDomains|] == a.allowedDomains;
    } else {
      var init := values[..|values| - 1];
      var v := values[|values| - 1];
      ConnectValuesAppendFresh(a, init);
      var a0 := ValuesStep("connect-src", a, init);
      FreshExtensionPush(a.allowedDomains, a0.allowedDomains, ConnectDomains(init), ConnectDomainOf(v));
      assert ValuesStep("connect-src", a, values).allowedDomains == ConnectValueStep(a0, v).allowedDomains;
    }
  }

  /**
   * The order of directives matters: a `connect-src` source recorded before a
   * script source with the same domain gives that domain twice, the other
   * order gives it once.
   */
  lemma DirectiveOrderDomains(a: CspAnalysis, w: string, d: string)
    requires ScriptDomainOf(w) == Some(d) && d !in a.allowedDomains
    ensures ValuesStep("script-src", ValuesStep("connect-src", a, [w]), [w]).allowedDomains == a.allowedDomains + [d, d]
    ensures ValuesStep("connect-src", ValuesStep("script-src", a, [w]), [w]).allowedDomains == a.allowedDomains + [d]
  {
    ConnectOfScript(w);
    ConnectDirectiveOne(a, w);
    ConnectValueStepDomains(a, w);
    var c := ValuesStep("connect-src", a, [w]);
    ScriptDirectiveOne(c, w);
    ScriptValueStepDomains(c, w);
    ScriptDirectiveOne(a, w);
    ScriptValueStepDomains(a, w);
    var s := ValuesStep("script-src", a, [w]);
    ConnectDirectiveOne(s, w);
    ConnectValueStepDomains(s, w);
  }

  /** A value with a script domain offers the same domain to `connect-src`. */
  lemma ConnectOfScript(w: string)
    requires ScriptDomainOf(w).Some?
    ensures ConnectDomainOf(w) == ScriptDomainOf(w)
  {
  }

  lemma ConnectDirectiveOne(a: CspAnalysis, w: string)
    ensures ValuesStep("connect-src", a, [w]) == ConnectValueStep(a, w)
  {
    assert [w][..|[w]| - 1] == [];
    assert !IsScriptDirective("connect-src") by {
      assert "connect-src"[0] != "script-src"[0] && "connect-src"[0] != "default-src"[0];
    }
  }

  lemma ScriptDirectiveOne(a: CspAnalysis, w: string)
    ensures ValuesStep("script-src", a, [w]) == ScriptValueStep(a, w)
  {
    assert [w][..|[w]| - 1] == [];
  }

  /** What one directive's values do to the remote flag and the recorded domains. */
  lemma {:induction false} ValuesStepDomains(name: string, a: CspAnalysis, values: seq<string>)
    ensures var b := ValuesStep(name, a, values);
      var sv := if IsScriptDirective(name) then values else [];
      var cv := if name == "connect-src" then values else [];
      && (b.allowsRemoteScripts <==> a.allowsRemoteScripts || HasRemote(sv))
      && (forall d :: d in b.allowedDomains <==> d in a.allowedDomains || d in ScriptDomains(sv) || d in ConnectDomains(cv))
      && (ConnectDomains(cv) == [] ==> b.allowedDomains == a.allowedDomains + ScriptDomains(sv))
    decreases |values|
  {
    if values != [] {
      var init := values[..|values| - 1];
      var v := values[|values| - 1];
      assert values == init + [v];
      ValuesStepDomains(name, a, init);
      HasRemoteAppend(init, [v]);
      var a0 := ValuesStep(name, a, init);
      if IsScriptDirective(name) {
        ScriptValueStepDomains(a0, v);
      } else if name == "connect-src" {
        ConnectValueStepDomains(a0, v);
      }
    }
  }

  /**
   * From `a` to `b`, the script values `sv` and the connect values `cv` were
   * applied: the remote flag is set iff some script value is remote; a domain
   * is recorded iff it was before or some script or connect value offers it;
   * without connect domains, the script domains are appended as they come.
   */
  ghost predicate DomainsFrom(a: CspAnalysis, b: CspAnalysis, sv: seq<string>, cv: seq<string>)
  {
    && (b.allowsRemoteScripts <==> a.allowsRemoteScripts || HasRemote(sv))
    && (forall d :: d in b.allowedDomains <==> d in a.allowedDomains || d in ScriptDomains(sv) || d in ConnectDomains(cv))
    && (ConnectDomains(cv) == [] ==> b.allowedDomains == a.allowedDomains + ScriptDomains(sv))
  }

  /** Membership of the recorded domains composes over two runs of directives. */
  lemma DomainsMemberCompose(a: seq<string>, m: seq<string>, b: seq<string>, sd1: seq<string>, cd1: seq<string>, sd2: seq<string>, cd2: seq<string>)
    requires forall d :: d in m <==> d in a || d in sd1 || d in cd1
    requires forall d :: d in b <==> d in m || d in sd2 || d in cd2
    ensures forall d :: d in b <==> d in a || d in sd1 + sd2 || d in cd1 + cd2
  {
  }

  /** Without connect domains, the recorded domains of two runs are the script domains appended in order. */
  lemma DomainsExactCompose(a: seq<string>, m: seq<string>, b: seq<string>, sd1: seq<string>, cd1: seq<string>, sd2: seq<string>, cd2: seq<string>)
    requires cd1 == [] ==> m == a + sd1
    requires cd2 == [] ==> b == m + sd2
    ensures cd1 + cd2 == [] ==> b == a + (sd1 + sd2)
  {
    if cd1 + cd2 == [] {
      assert |cd1| == 0 && |cd2| == 0;
      assert (a + sd1) + sd2 == a + (sd1 + sd2);
    }
  }

  lemma DomainsFromCompose(a: CspAnalysis, m: CspAnalysis, b: CspAnalysis, s1: seq<string>, c1: seq<string>, s2: seq<string>, c2: seq<string>)
    requires DomainsFrom(a, m, s1, c1) && DomainsFrom(m, b, s2, c2)
    ensures DomainsFrom(a, b, s1 + s2, c1 + c2)
  {
    HasRemoteAppend(s1, s2);
    ScriptDomainsAppend(s1, s2);
    ConnectDomainsAppend(c1, c2);
    var sd1, sd2, cd1, cd2 := ScriptDomains(s1), ScriptDomains(s2), ConnectDomains(c1), ConnectDomains(c2);
    DomainsMemberCompose(a.allowedDomains, m.allowedDomains, b.allowedDomains, sd1, cd1, sd2, cd2);
    DomainsExactCompose(a.allowedDomains, m.allowedDomains, b.allowedDomains, sd1, cd1, sd2, cd2);
  }

  /** Over the whole policy: the remote flag and the recorded domains, from the policy text. */
  lemma {:induction false} DirectivesStepDomains(a: CspAnalysis, directives: seq<string>)
    ensures DomainsFrom(a, DirectivesStep(a, directives), ScriptValues(directives), ConnectValues(directives))
    decreases |directives|
  {
    if directives == [] {
      assert DirectivesStep(a, directives) == a;
    } else {
      var init := directives[..|directives| - 1];
      var last := directives[|directives| - 1];
      DirectivesStepDomains(a, init);
      var parts := DirectiveWords(last);
      var mid := DirectivesStep(a, init);
      var es := if parts != [] && IsScriptDirective(parts[0]) then parts[1..] else [];
      var ec := if parts != [] && parts[0] == "connect-src" then parts[1..] else [];
      assert ScriptValues(directives) == ScriptValues(init) + es;
      assert ConnectValues(directives) == ConnectValues(init) + ec;
      var b := DirectivesStep(a, directives);
      if parts == [] {
        assert b == mid;
        assert ScriptDomains([]) == [] && ConnectDomains([]) == [];
        assert DomainsFrom(mid, b, es, ec);
      } else {
        assert b == ValuesStep(parts[0], mid, parts[1..]);
        ValuesStepDomains(parts[0], mid, parts[1..]);
        assert DomainsFrom(mid, b, es, ec);
      }
      DomainsFromCompose(a, mid, b, ScriptValues(init), ConnectValues(init), es, ec);
    }
  }

  /**
   * Which domains a policy records: with no policy none; otherwise the remote
   * flag is set iff some script source is `http://` or `https://`, a domain
   * is recorded iff a remote script source or a remote or wildcard
   * `connect-src` source has it, and without `connect-src` domains the script
   * domains are recorded as they come, repeats included.
   */
  lemma CspDomains(csp: Option<string>)
    ensures var a := CspOf(csp);
      && (csp.None? || csp.value == [] ==> !a.allowsRemoteScripts && a.allowedDomains == [])
      && (csp.Some? && csp.value != [] ==>
            var vs := ScriptValues(Split(csp.value, ';'));
            var cs := ConnectValues(Split(csp.value, ';'));
            && (a.allowsRemoteScripts <==> HasRemote(vs))
            && (forall d :: d in a.allowedDomains <==> d in ScriptDomains(vs) || d in ConnectDomains(cs))
            && (ConnectDomains(cs) == [] ==> a.allowedDomains == ScriptDomains(vs)))
  {
    if csp.Some? && csp.value != [] {
      var start := EmptyCsp.(hasCsp := true);
      var directives := Split(csp.value, ';');
      DirectivesStepDomains(start, directives);
      assert start.allowedDomains == [];
    }
  }

  /** A directive of a name and two copies of a value splits into those three words. */
  lemma NameAndTwice(name: string, w: string)
    requires name != [] && w != [] && NoWhitespace(name) && NoWhitespace(w)
    ensures var text := name + " " + w + " " + w;
      Trim(text) == text && SplitWhitespace(text) == [name, w, w]
  {
    var tail := " " + w;
    var text := name + " " + w + " " + w;
    assert text == name + (" " + (w + tail));
    assert text[|text| - 1] == w[|w| - 1] && text[0] == name[0];
    TrimUnchanged(text);
    WordsOfThree(name, w, tail);
  }

  /** The words of `name w w`, one space between each. */
  lemma WordsOfThree(name: string, w: string, tail: string)
    requires name != [] && w != [] && NoWhitespace(name) && NoWhitespace(w) && tail == " " + w
    ensures SplitWhitespace(name + (" " + (w + tail))) == [name, w, w]
  {
    assert IsWhitespace(' ');
    calc {
      SplitWhitespace(name + (" " + (w + tail)));
      Words(name + (" " + (w + tail)), []);
      { WordsWord(name, " " + (w + tail), []); assert [] + name == name; }
      Words(" " + (w + tail), name);
      { assert (" " + (w + tail))[1..] == w + tail; }
      [name] + Words(w + tail, []);
      { WordsWord(w, tail, []); assert [] + w == w; }
      [name] + Words(tail, w);
      { assert tail[1..] == w; }
      [name] + [w] + Words(w, []);
      { WordsWord(w, [], []); assert w + [] == w && [] + w == w; }
      [name] + [w] + Words([], w);
      [name, w, w];
    }
  }

  lemma ScriptSrcWord()
    ensures NoWhitespace("script-src") && ';' !in "script-src"
  {
  }

  /** The directive `script-src w w` is one directive of three words. */
  lemma RepeatedSourceWords(w: string)
    requires w != [] && NoWhitespace(w) && ';' !in w
    ensures var text := "script-src " + w + " " + w;
      Split(text, ';') == [text] && DirectiveWords(text) == ["script-src", w, w]
  {
    var name := "script-src";
    var text := "script-src " + w + " " + w;
    assert text == name + " " + w + " " + w;
    ScriptSrcWord();
    assert ';' !in text by {
      forall i | 0 <= i < |text|
        ensures text[i] != ';'
      {
        if i < |name| {
          assert text[i] == name[i];
        } else if i >= |name| + 1 && i < |name| + 1 + |w| {
          assert text[i] == w[i - |name| - 1];
        } else if i >= |name| + 2 + |w| {
          assert text[i] == w[i - |name| - 2 - |w|];
        }
      }
    }
    SplitNoSeparator(text, ';');
    NameAndTwice(name, w);
  }

  /** Of the directive `script-src w w`, both copies are script sources and none is a `connect-src` source. */
  lemma RepeatedSourceValues(w: string)
    requires w != [] && NoWhitespace(w) && ';' !in w
    ensures var ds := Split("script-src " + w + " " + w, ';');
      ScriptValues(ds) == [w, w] && ConnectValues(ds) == []
  {
    var text := "script-src " + w + " " + w;
    RepeatedSourceWords(w);
    var ds := [text];
    assert ds[..0] == [];
    var parts := DirectiveWords(text);
    assert parts[0] == "script-src" && parts[1..] == [w, w];
  }

  /** Two copies of a remote source: its domain twice, and no unsafe keyword. */
  lemma RemoteTwice(w: string, d: string)
    requires IsRemote(w) && ScriptDomainOf(w) == Some(d)
    ensures ScriptDomains([w, w]) == [d, d]
    ensures Occurrences([w, w], "'unsafe-eval'") == 0 && Occurrences([w, w], "'unsafe-inline'") == 0
  {
    RemoteOnce(w, d);
    assert [w, w] == [w] + [w];
    ScriptDomainsAppend([w], [w]);
    OccurrencesAppend([w], [w], "'unsafe-eval'");
    OccurrencesAppend([w], [w], "'unsafe-inline'");
  }

  /** A remote source records its domain and is no unsafe keyword. */
  lemma RemoteOnce(w: string, d: string)
    requires IsRemote(w) && ScriptDomainOf(w) == Some(d)
    ensures ScriptDomains([w]) == [d]
    ensures Occurrences([w], "'unsafe-eval'") == 0 && Occurrences([w], "'unsafe-inline'") == 0
  {
    assert w != "'unsafe-eval'" && w != "'unsafe-inline'" by {
      StartsWithIff(w, "http://");
      StartsWithIff(w, "https://");
      assert w[0] == 'h';
    }
    assert [w][..0] == [];
  }

  /**
   * Repeated script sources are not merged: a policy naming the same remote
   * script source twice records its domain twice and scores 10 points for each.
   */
  lemma CspRepeatedScriptSource(w: string, d: string)
    requires IsRemote(w) && NoWhitespace(w) && ';' !in w && ExtractDomain(w) == Some(d)
    ensures var a := CspOf(Some("script-src " + w + " " + w));
      a.allowedDomains == [d, d] && a.score == 20
  {
    var text := "script-src " + w + " " + w;
    assert w != [] by {
      StartsWithIff(w, "http://");
      StartsWithIff(w, "https://");
    }
    RepeatedSourceValues(w);
    RemoteTwice(w, d);
    assert ConnectDomains([]) == [];
    CspDomains(Some(text));
    CspScore(Some(text));
  }

  lemma ConnectSrcWord()
    ensures NoWhitespace("connect-src") && ';' !in "connect-src"
  {
  }

  /** The words of `name w`, one space apart. */
  lemma WordsOfTwo(name: string, w: string)
    requires name != [] && w != [] && NoWhitespace(name) && NoWhitespace(w)
    ensures SplitWhitespace(name + (" " + w)) == [name, w]
  {
    assert IsWhitespace(' ');
    calc {
      SplitWhitespace(name + (" " + w));
      Words(name + (" " + w), []);
      { WordsWord(name, " " + w, []); assert [] + name == name; }
      Words(" " + w, name);
      { assert (" " + w)[1..] == w; }
      [name] + Words(w, []);
      { WordsWord(w, [], []); assert w + [] == w && [] + w == w; }
      [name] + Words([], w);
      [name, w];
    }
  }

  /** A directive `name w` without `;` has the two words `name` and `w`. */
  lemma DirectiveOfOne(name: string, w: string)
    requires name != [] && NoWhitespace(name) && ';' !in name
    requires w != [] && NoWhitespace(w) && ';' !in w
    ensures var text := name + " " + w;
      ';' !in text && DirectiveWords(text) == [name, w]
  {
    var text := name + " " + w;
    assert text == name + (" " + w);
    assert ';' !in text by {
      forall i | 0 <= i < |text|
        ensures text[i] != ';'
      {
        if i < |name| {
          assert text[i] == name[i];
        } else if i > |name| {
          assert text[i] == w[i - |name| - 1];
        }
      }
    }
    assert text[|text| - 1] == w[|w| - 1] && text[0] == name[0];
    TrimUnchanged(text);
    WordsOfTwo(name, w);
  }

  /** A policy of the two directives `x;y`, each without `;`, runs `x` then `y`. */
  lemma TwoDirectives(x: string, y: string)
    requires ';' !in x && ';' !in y
    ensures CspOf(Some(x + ";" + y)) == FinishCsp(DirectiveStep(DirectiveStep(EmptyCsp.(hasCsp := true), x), y))
  {
    assert x + ";" + y == x + [';'] + y;
    SplitAt(x, ';', y);
    SplitNoSeparator(y, ';');
    var start := EmptyCsp.(hasCsp := true);
    var ds := [x, y];
    assert ds[..|ds| - 1] == [x] && [x][..|[x]| - 1] == [];
    assert DirectivesStep(start, [x]) == DirectiveStep(start, x);
    assert DirectivesStep(start, ds) == DirectiveStep(DirectiveStep(start, x), y);
  }

  /** A remote source is neither unsafe keyword. */
  lemma RemoteNotKeyword(w: string)
    requires IsRemote(w)
    ensures w != "'unsafe-eval'" && w != "'unsafe-inline'" && w != []
  {
    StartsWithIff(w, "http://");
    StartsWithIff(w, "https://");
    assert w[0] == 'h';
  }

  /**
   * The order of directives changes the score: `script-src w;connect-src w`
   * records the domain once and scores 10, the other order records it twice
   * and scores 20, because only `connect-src` skips a recorded domain.
   */
  lemma CspDirectiveOrder(w: string, d: string)
    requires IsRemote(w) && NoWhitespace(w) && ';' !in w && ExtractDomain(w) == Some(d)
    ensures var a := CspOf(Some("script-src " + w + ";connect-src " + w));
      a.allowedDomains == [d] && a.score == 10
    ensures var a := CspOf(Some("connect-src " + w + ";script-src " + w));
      a.allowedDomains == [d, d] && a.score == 20
  {
    var start := EmptyCsp.(hasCsp := true);
    RemoteNotKeyword(w);
    DirectiveOrderScores(start, w, d);
    ScriptThenConnectPolicy(w);
    ConnectThenScriptPolicy(w);
  }

  lemma ScriptThenConnectPolicy(w: string)
    requires w != [] && NoWhitespace(w) && ';' !in w
    ensures CspOf(Some("script-src " + w + ";connect-src " + w))
      == FinishCsp(ValuesStep("connect-src", ValuesStep("script-src", EmptyCsp.(hasCsp := true), [w]), [w]))
  {
    PolicyTextCsp("script-src", "connect-src", "script-src ", ";connect-src ", w);
    ScriptSrcWord();
    ConnectSrcWord();
    OrderedPolicy("script-src", "connect-src", w);
  }

  lemma ConnectThenScriptPolicy(w: string)
    requires w != [] && NoWhitespace(w) && ';' !in w
    ensures CspOf(Some("connect-src " + w + ";script-src " + w))
      == FinishCsp(ValuesStep("script-src", ValuesStep("connect-src", EmptyCsp.(hasCsp := true), [w]), [w]))
  {
    PolicyTextCsp("connect-src", "script-src", "connect-src ", ";script-src ", w);
    ScriptSrcWord();
    ConnectSrcWord();
    OrderedPolicy("connect-src", "script-src", w);
  }

  /** The same policy, spelled with its names and separators apart. */
  lemma PolicyTextCsp(n1: string, n2: string, p1: string, p2: string, w: string)
    requires p1 == n1 + " " && p2 == ";" + n2 + " "
    ensures CspOf(Some(p1 + w + p2 + w)) == CspOf(Some(n1 + " " + w + ";" + n2 + " " + w))
  {
    PolicyText(n1, n2, p1, p2, w);
  }

  /** How the policy text of two one-value directives is spelled. */
  lemma PolicyText(n1: string, n2: string, p1: string, p2: string, w: string)
    requires p1 == n1 + " " && p2 == ";" + n2 + " "
    ensures p1 + w + p2 + w == n1 + " " + w + ";" + n2 + " " + w
  {
  }

  /** The policy `n1 w;n2 w` runs the two one-value directives in order. */
  lemma OrderedPolicy(n1: string, n2: string, w: string)
    requires n1 != [] && NoWhitespace(n1) && ';' !in n1
    requires n2 != [] && NoWhitespace(n2) && ';' !in n2
    requires w != [] && NoWhitespace(w) && ';' !in w
    ensures var start := EmptyCsp.(hasCsp := true);
      CspOf(Some(n1 + " " + w + ";" + n2 + " " + w))
      == FinishCsp(ValuesStep(n2, ValuesStep(n1, start, [w]), [w]))
  {
    var start := EmptyCsp.(hasCsp := true);
    var x := n1 + " " + w;
    var y := n2 + " " + w;
    assert ';' !in x && ';' !in y && DirectiveStep(DirectiveStep(start, x), y) == ValuesStep(n2, ValuesStep(n1, start, [w]), [w]) by {
      TwoSingleSourceDirectives(n1, n2, start, w);
    }
    assert n1 + " " + w + ";" + n2 + " " + w == x + ";" + y;
    TwoDirectives(x, y);
  }

  lemma TwoSingleSourceDirectives(n1: string, n2: string, a: CspAnalysis, w: string)
    requires n1 != [] && NoWhitespace(n1) && ';' !in n1
    requires n2 != [] && NoWhitespace(n2) && ';' !in n2
    requires w != [] && NoWhitespace(w) && ';' !in w
    ensures ';' !in n1 + " " + w && ';' !in n2 + " " + w
    ensures DirectiveStep(DirectiveStep(a, n1 + " " + w), n2 + " " + w) == ValuesStep(n2, ValuesStep(n1, a, [w]), [w])
  {
    SingleSourceDirective(n1, a, w);
    SingleSourceDirective(n2, ValuesStep(n1, a, [w]), w);
  }

  /** The directive `name w` applies the one value `w` by the directive's rule. */
  lemma SingleSourceDirective(name: string, a: CspAnalysis, w: string)
    requires name != [] && NoWhitespace(name) && ';' !in name
    requires w != [] && NoWhitespace(w) && ';' !in w
    ensures ';' !in name + " " + w
    ensures DirectiveStep(a, name + " " + w) == ValuesStep(name, a, [w])
  {
    DirectiveOfOne(name, w);
    assert [name, w][1..] == [w];
  }

  /** The script step flags the source and adds no points for a remote source. */
  lemma DirectiveOrderScores(a: CspAnalysis, w: string, d: string)
    requires IsRemote(w) && ExtractDomain(w) == Some(d) && d !in a.allowedDomains
    ensures var b := ValuesStep("script-src", ValuesStep("connect-src", a, [w]), [w]);
      b.allowsRemoteScripts && b.score == a.score && b.allowedDomains == a.allowedDomains + [d, d]
    ensures var b := ValuesStep("connect-src", ValuesStep("script-src", a, [w]), [w]);
      b.allowsRemoteScripts && b.score == a.score && b.allowedDomains == a.allowedDomains + [d]
  {
    RemoteNotKeyword(w);
    DirectiveOrderDomains(a, w, d);
    ConnectDirectiveOne(a, w);
    var c := ValuesStep("connect-src", a, [w]);
    ScriptDirectiveOne(c, w);
    ScriptDirectiveOne(a, w);
    var s := ValuesStep("script-src", a, [w]);
    ConnectDirectiveOne(s, w);
  }

  // ---------------------------------------------------------------------------
  // The full report

  /** The risk band of a total score. */
  function RiskBand(total: nat): string
  {
    if total <= 20 then "low"
    else if total <= 100 then "medium"
    else if total <= 300 then "high"
    else "critical"
  }

  function BandRank(band: string): nat
  {
    if band == "low" then 0
    else if band == "medium" then 1
    else if band == "high" then 2
    else 3
  }

  /** A higher total never lands in a lower band. */
  lemma RiskBandMonotone(x: nat, y: nat)
    requires x <= y
    ensures BandRank(RiskBand(x)) <= BandRank(RiskBand(y))
  {
  }

  /** An optional permission: listed with an `(optional)` suffix. */
  function OptionalRisk(p: string): PermissionRisk
  {
    var r := GetPermissionRisk(p);
    r.(name := p + " (optional)")
  }

  /** One risk entry per required permission, in order. */
  function RequiredRisks(ps: seq<string>): (r: seq<PermissionRisk>)
    ensures |r| == |ps|
  {
    MapSeq(ps, GetPermissionRisk)
  }

  /** One suffixed risk entry per optional permission, in order. */
  function OptionalRisks(ps: seq<string>): (r: seq<PermissionRisk>)
    ensures |r| == |ps|
  {
    MapSeq(ps, OptionalRisk)
  }

  /** Full weight for each required permission. */
  function RequiredScore(ps: seq<string>): nat
  {
    SumBy(ps, FullWeight)
  }

  /** Half weight (rounded down) for each optional permission. */
  function OptionalScore(ps: seq<string>): nat
  {
    SumBy(ps, HalfWeight)
  }

  function FullWeight(p: string): nat
  {
    GetPermissionRisk(p).level.Score()
  }

  function HalfWeight(p: string): nat
  {
    GetPermissionRisk(p).level.Score() / 2
  }

  function CriticalCount(rs: seq<PermissionRisk>): nat
  {
    if rs == [] then 0 else CriticalCount(rs[..|rs| - 1]) + (if rs[|rs| - 1].level == Critical then 1 else 0)
  }

  const AllUrlsIssue := RiskIssue("Permissions", Critical, "All URLs access", "Extension can access all websites")
  const EvalIssue := RiskIssue("Security Policy", High, "Allows eval()", "Content Security Policy allows code execution via eval()")

  function CriticalPermissionsIssue(n: nat): RiskIssue
  {
    RiskIssue("Permissions", Critical, NatToString(n) + " critical permission(s)", "Extension requests highly dangerous permissions")
  }

  /** The issues raised from the findings, in the order the source raises them. */
  function ReportIssues(scope: HostPermissionScope, permissions: seq<PermissionRisk>, csp: CspAnalysis): seq<RiskIssue>
  {
    var n := CriticalCount(permissions);
    (if scope == AllUrls then [AllUrlsIssue] else [])
    + (if n > 0 then [CriticalPermissionsIssue(n)] else [])
    + (if csp.allowsUnsafeEval then [EvalIssue] else [])
  }

  /** The report `analyze_extension` produces. */
  function ExtensionReport(permissions: seq<string>, optional: seq<string>, hosts: seq<string>, csp: Option<string>): ExtensionRiskReport
  {
    AssembleReport(permissions, optional, hosts, CspOf(csp))
  }

  /** The report once the CSP has been analysed into `c`. */
  function AssembleReport(permissions: seq<string>, optional: seq<string>, hosts: seq<string>, c: CspAnalysis): ExtensionRiskReport
  {
    var risks := RequiredRisks(permissions) + OptionalRisks(optional);
    var scope := HostScope(hosts);
    var total := RequiredScore(permissions) + OptionalScore(optional) + scope.Score() + c.score;
    ExtensionRiskReport(total, RiskBand(total), risks, hosts, scope, c, Dedup(HostDomains(hosts)), ReportIssues(scope, risks, c))
  }

  lemma RequiredStep(ps: seq<string>, i: nat)
    requires i < |ps|
    ensures RequiredScore(ps[..i + 1]) == RequiredScore(ps[..i]) + GetPermissionRisk(ps[i]).level.Score()
    ensures RequiredRisks(ps[..i + 1]) == RequiredRisks(ps[..i]) + [GetPermissionRisk(ps[i])]
  {
    assert ps[..i + 1][..i] == ps[..i];
    MapSeqStep(ps, GetPermissionRisk, i);
    SumByStep(ps, FullWeight, i);
  }

  lemma OptionalStep(ps: seq<string>, i: nat)
    requires i < |ps|
    ensures OptionalScore(ps[..i + 1]) == OptionalScore(ps[..i]) + GetPermissionRisk(ps[i]).level.Score() / 2
    ensures OptionalRisks(ps[..i + 1]) == OptionalRisks(ps[..i]) + [OptionalRisk(ps[i])]
  {
    assert ps[..i + 1][..i] == ps[..i];
    MapSeqStep(ps, OptionalRisk, i);
    SumByStep(ps, HalfWeight, i);
  }

  /** The required-permission loop: full weights and one risk entry per permission. */
  method ScoreRequired(permissions: seq<string>) returns (total: nat, risks: seq<PermissionRisk>)
    ensures total == RequiredScore(permissions)
    ensures risks == RequiredRisks(permissions)
  {
    total := 0;
    risks := [];
    var i := 0;
    while i < |permissions|
      invariant 0 <= i <= |permissions|
      invariant total == RequiredScore(permissions[..i])
      invariant risks == RequiredRisks(permissions[..i])
    {
      RequiredStep(permissions, i);
      var risk := GetPermissionRisk(permissions[i]);
      total := total + risk.level.Score();
      risks := risks + [risk];
      i := i + 1;
    }
    assert permissions[..i] == permissions;
  }

  /** The optional-permission loop: half weights and suffixed names. */
  method ScoreOptional(optional: seq<string>) returns (total: nat, risks: seq<PermissionRisk>)
    ensures total == OptionalScore(optional)
    ensures risks == OptionalRisks(optional)
  {
    total := 0;
    risks := [];
    var i := 0;
    while i < |optional|
      invariant 0 <= i <= |optional|
      invariant total == OptionalScore(optional[..i])
      invariant risks == OptionalRisks(optional[..i])
    {
      OptionalStep(optional, i);
      var risk := GetPermissionRisk(optional[i]);
      total := total + risk.level.Score() / 2;
      risks := risks + [risk.(name := optional[i] + " (optional)")];
      i := i + 1;
    }
    assert optional[..i] == optional;
  }

  /** `iter().filter(level == Critical).count()`. */
  method CountCritical(risks: seq<PermissionRisk>) returns (n: nat)
    ensures n == CriticalCount(risks)
  {
    n := 0;
    var k := 0;
    while k < |risks|
      invariant 0 <= k <= |risks|
      invariant n == CriticalCount(risks[..k])
    {
      assert risks[..k + 1][..k] == risks[..k];
      if risks[k].level == Critical {
        n := n + 1;
      }
      k := k + 1;
    }
    assert risks[..k] == risks;
  }

  /** The issue-raising tail of `analyze_extension`. */
  method RaiseIssues(scope: HostPermissionScope, risks: seq<PermissionRisk>, cspAnalysis: CspAnalysis)
    returns (issues: seq<RiskIssue>)
    ensures issues == ReportIssues(scope, risks, cspAnalysis)
  {
    issues := [];
    if scope == AllUrls {
      issues := issues + [AllUrlsIssue];
    }
    var criticalCount := CountCritical(risks);
    if criticalCount > 0 {
      issues := issues + [CriticalPermissionsIssue(criticalCount)];
    }
    if cspAnalysis.allowsUnsafeEval {
      issues := issues + [EvalIssue];
    }
  }

  /** `analyze_extension`: adds up the weights permission by permission, then the host and CSP parts. */
  method AnalyzeExtension(permissions: seq<string>, optional: seq<string>, hosts: seq<string>, csp: Option<string>)
    returns (report: ExtensionRiskReport)
    ensures report == ExtensionReport(permissions, optional, hosts, csp)
  {
    var requiredTotal, required := ScoreRequired(permissions);
    var optionalTotal, optionalRisks := ScoreOptional(optional);
    var risks := required + optionalRisks;
    var scope, domains := AnalyzeHostPermissions(hosts);
    var cspAnalysis := AnalyzeCsp(csp);
    var total := requiredTotal + optionalTotal + scope.Score() + cspAnalysis.score;
    var issues := RaiseIssues(scope, risks, cspAnalysis);
    report := ExtensionRiskReport(total, RiskBand(total), risks, hosts, scope, cspAnalysis, domains, issues);
    AssembledFromParts(permissions, optional, hosts, cspAnalysis, report);
  }

  /** A report whose parts are the specified ones is the assembled report. */
  lemma AssembledFromParts(permissions: seq<string>, optional: seq<string>, hosts: seq<string>, c: CspAnalysis, r: ExtensionRiskReport)
    requires r.permissions == RequiredRisks(permissions) + OptionalRisks(optional)
    requires r.hostPermissionScope == HostScope(hosts) && r.hostPermissions == hosts && r.csp == c
    requires r.totalScore == RequiredScore(permissions) + OptionalScore(optional) + HostScope(hosts).Score() + c.score
    requires r.riskLevel == RiskBand(r.totalScore)
    requires r.externalDomains == Dedup(HostDomains(hosts))
    requires r.issues == ReportIssues(HostScope(hosts), r.permissions, c)
    ensures r == AssembleReport(permissions, optional, hosts, c)
  {
  }

  /**
   * The total in closed form and the band it falls in: required weights, half
   * optional weights, the host scope and the CSP score.
   */
  lemma ReportTotal(permissions: seq<string>, optional: seq<string>, hosts: seq<string>, c: CspAnalysis)
    ensures var r := AssembleReport(permissions, optional, hosts, c);
      && r.totalScore == RequiredScore(permissions) + OptionalScore(optional) + HostScope(hosts).Score() + c.score
      && (r.totalScore <= 20 <==> r.riskLevel == "low")
      && (20 < r.totalScore <= 100 <==> r.riskLevel == "medium")
      && (100 < r.totalScore <= 300 <==> r.riskLevel == "high")
      && (300 < r.totalScore <==> r.riskLevel == "critical")
  {
  }

  /** Without host permissions or a policy, the total is the permission weights plus 30 for the missing CSP. */
  lemma ReportTotalWithoutHostsOrCsp(permissions: seq<string>, optional: seq<string>)
    ensures ExtensionReport(permissions, optional, [], Option.None).totalScore == RequiredScore(permissions) + OptionalScore(optional) + 30
  {
  }

  lemma {:induction false} CriticalCountAppend(a: seq<PermissionRisk>, b: seq<PermissionRisk>)
    ensures CriticalCount(a + b) == CriticalCount(a) + CriticalCount(b)
    decreases |b|
  {
    if b != [] {
      var ab := a + b;
      assert ab[..|ab| - 1] == a + b[..|b| - 1];
      assert ab[|ab| - 1] == b[|b| - 1];
      CriticalCountAppend(a, b[..|b| - 1]);
    } else {
      assert a + b == a;
    }
  }

  lemma {:induction false} CriticalCountPositive(rs: seq<PermissionRisk>)
    ensures CriticalCount(rs) > 0 <==> exists i :: 0 <= i < |rs| && rs[i].level == Critical
    decreases |rs|
  {
    if rs != [] {
      var init := rs[..|rs| - 1];
      CriticalCountPositive(init);
      assert forall i :: 0 <= i < |init| ==> init[i] == rs[i];
      if CriticalCount(init) > 0 {
        var i :| 0 <= i < |init| && init[i].level == Critical;
        assert rs[i].level == Critical;
      }
    }
  }

  /** Some listed permission has a critical entry in the table. */
  lemma {:induction false} CriticalRisksIff(ps: seq<string>, optional: bool)
    ensures var rs := if optional then OptionalRisks(ps) else RequiredRisks(ps);
      CriticalCount(rs) > 0 <==> exists i :: 0 <= i < |ps| && CriticalEntry(ps[i]).Some?
  {
    var rs := if optional then OptionalRisks(ps) else RequiredRisks(ps);
    CriticalCountPositive(rs);
    forall i | 0 <= i < |ps|
      ensures rs[i].level == Critical <==> CriticalEntry(ps[i]).Some?
    {
      if optional {
        MapSeqAt(ps, OptionalRisk, i);
      } else {
        MapSeqAt(ps, GetPermissionRisk, i);
      }
      PermissionLevels(ps[i]);
    }
  }

  /**
   * The critical-permission issue is raised exactly when some required or
   * optional permission is in the critical table.
   */
  lemma CriticalIssueIff(permissions: seq<string>, optional: seq<string>)
    ensures CriticalCount(RequiredRisks(permissions) + OptionalRisks(optional)) > 0 <==>
      (exists i :: 0 <= i < |permissions| && CriticalEntry(permissions[i]).Some?)
      || (exists i :: 0 <= i < |optional| && CriticalEntry(optional[i]).Some?)
  {
    CriticalCountAppend(RequiredRisks(permissions), OptionalRisks(optional));
    CriticalRisksIff(permissions, false);
    CriticalRisksIff(optional, true);
  }

  /**
   * One issue per finding, in a fixed order: all-URLs access, then the count of
   * critical permissions, then an eval-permitting policy.
   */
  lemma ReportIssuesShape(scope: HostPermissionScope, permissions: seq<PermissionRisk>, c: CspAnalysis)
    ensures var issues := ReportIssues(scope, permissions, c);
      && |issues| == (if scope == AllUrls then 1 else 0) + (if CriticalCount(permissions) > 0 then 1 else 0) + (if c.allowsUnsafeEval then 1 else 0)
      && (forall k :: 0 <= k < |issues| ==> issues[k].severity == Critical || issues[k] == EvalIssue)
      && (scope == AllUrls ==> issues[0] == AllUrlsIssue)
      && (c.allowsUnsafeEval ==> issues[|issues| - 1] == EvalIssue)
  {
    var n := CriticalCount(permissions);
    var a: seq<RiskIssue> := if scope == AllUrls then [AllUrlsIssue] else [];
    var b: seq<RiskIssue> := if n > 0 then [CriticalPermissionsIssue(n)] else [];
    var e: seq<RiskIssue> := if c.allowsUnsafeEval then [EvalIssue] else [];
    var issues := ReportIssues(scope, permissions, c);
    assert issues == a + b + e;
    assert forall k :: 0 <= k < |a + b| ==> (a + b)[k].severity == Critical;
  }

}
