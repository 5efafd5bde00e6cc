/**
 * Classification of the visitor's user-agent string (script.js:9-37, 51):
 * browser name, operating system and device type. Each classifier takes the
 * user agent (and, for the operating system, the high-entropy platform hint)
 * as a parameter instead of reading it from `navigator`.
 *
 * The browser and operating-system classifiers are written as the source's
 * if-chains; `Classify` over a rule table is their reference definition
 * ("the first rule whose token occurs wins"), and the lemmas connect the two.
 */
module UserAgent {
  import opened Wrappers
  import opened Text

  /** One link of an if-chain: if `token` occurs in the user agent, answer `name`. */
  datatype Rule = Rule(token: string, name: string)

  /** Index of the first rule whose token occurs in `ua`, or `|rules|` when none does. */
  function FirstMatch(rules: seq<Rule>, ua: string): (k: nat)
    ensures k <= |rules|
    ensures forall j :: 0 <= j < k ==> !Includes(ua, rules[j].token)
    ensures k < |rules| ==> Includes(ua, rules[k].token)
  {
    if rules == [] then 0
    else if Includes(ua, rules[0].token) then 0
    else 1 + FirstMatch(rules[1..], ua)
  }

  /** Reference classifier: the name of the first matching rule, else `fallback`. */
  function Classify(rules: seq<Rule>, ua: string, fallback: string): (r: string)
    ensures r == fallback || exists k :: 0 <= k < |rules| && r == rules[k].name && Includes(ua, rules[k].token)
  {
    var k := FirstMatch(rules, ua);
    if k < |rules| then rules[k].name else fallback
  }

  /** The rule names are pairwise different and differ from the fallback answer. */
  predicate Unambiguous(rules: seq<Rule>, fallback: string) {
    (forall i, j :: 0 <= i < j < |rules| ==> rules[i].name != rules[j].name) &&
    (forall i :: 0 <= i < |rules| ==> rules[i].name != fallback)
  }

  /** With unambiguous names, answer k means exactly: token k occurs and no earlier token does. */
  lemma ClassifyIsRule(rules: seq<Rule>, ua: string, fallback: string, k: nat)
    requires Unambiguous(rules, fallback) && k < |rules|
    ensures Classify(rules, ua, fallback) == rules[k].name <==>
            Includes(ua, rules[k].token) && forall j :: 0 <= j < k ==> !Includes(ua, rules[j].token)
  {
    var m := FirstMatch(rules, ua);
    if Classify(rules, ua, fallback) == rules[k].name {
      assert m < |rules| && rules[m].name == rules[k].name;
      assert m == k;
    }
  }

  /** With unambiguous names, the fallback is answered exactly when no token occurs. */
  lemma ClassifyIsFallback(rules: seq<Rule>, ua: string, fallback: string)
    requires Unambiguous(rules, fallback)
    ensures Classify(rules, ua, fallback) == fallback <==>
            forall j :: 0 <= j < |rules| ==> !Includes(ua, rules[j].token)
  {
    var m := FirstMatch(rules, ua);
    if m < |rules| {
      assert rules[m].name != fallback;
    }
  }

  // ---------------------------------------------------------------------
  // Browser (script.js:9-18)
  // ---------------------------------------------------------------------

  const UnknownBrowser: string := "Desconocido"

  const BrowserRules: seq<Rule> := [
    Rule("Firefox", "Firefox"),
    Rule("Chrome", "Chrome"),
    Rule("Safari", "Safari"),
    Rule("Edge", "Edge"),
    Rule("Opera", "Opera")
  ]

  const BrowserNames: set<string> := {"Firefox", "Chrome", "Safari", "Edge", "Opera", UnknownBrowser}

  lemma BrowserRulesUnambiguous()
    ensures Unambiguous(BrowserRules, UnknownBrowser)
  {
    var r := BrowserRules;
    assert r[0].name[0] == 'F' && r[1].name[0] == 'C' && r[2].name[0] == 'S';
    assert r[3].name[0] == 'E' && r[4].name[0] == 'O' && UnknownBrowser[0] == 'D';
  }

  /** The browser name the dashboard shows for user agent `ua`. */
  function DetectBrowser(ua: string): (r: string)
    ensures r in BrowserNames
    ensures Includes(ua, "Firefox") ==> r == "Firefox"
    ensures Includes(ua, "Chrome") && !Includes(ua, "Firefox") ==> r == "Chrome"
  {
    if Includes(ua, "Firefox") then "Firefox"
    else if Includes(ua, "Chrome") then "Chrome"
    else if Includes(ua, "Safari") then "Safari"
    else if Includes(ua, "Edge") then "Edge"
    else if Includes(ua, "Opera") then "Opera"
    else UnknownBrowser
  }

  /** The if-chain is first-match classification over `BrowserRules`. */
  lemma DetectBrowserIsFirstMatch(ua: string)
    ensures DetectBrowser(ua) == Classify(BrowserRules, ua, UnknownBrowser)
  {
    var r := BrowserRules;
    assert r[1..][1..][1..][1..][1..] == [];
    assert FirstMatch(r[1..][1..][1..][1..], ua) == (if Includes(ua, "Opera") then 0 else 1);
    assert FirstMatch(r[1..][1..][1..], ua) == (if Includes(ua, "Edge") then 0 else 1 + FirstMatch(r[1..][1..][1..][1..], ua));
    assert FirstMatch(r[1..][1..], ua) == (if Includes(ua, "Safari") then 0 else 1 + FirstMatch(r[1..][1..][1..], ua));
    assert FirstMatch(r[1..], ua) == (if Includes(ua, "Chrome") then 0 else 1 + FirstMatch(r[1..][1..], ua));
  }

  /**
   * The browser is the name of rule k exactly when token k occurs and no
   * earlier token does.
   */
  lemma BrowserIsFirstOccurringToken(ua: string, k: nat)
    requires k < |BrowserRules|
    ensures DetectBrowser(ua) == BrowserRules[k].name <==>
            Includes(ua, BrowserRules[k].token) &&
            forall j :: 0 <= j < k ==> !Includes(ua, BrowserRules[j].token)
  {
    DetectBrowserIsFirstMatch(ua);
    BrowserRulesUnambiguous();
    ClassifyIsRule(BrowserRules, ua, UnknownBrowser, k);
  }

  /** "Desconocido" is shown exactly when none of the five tokens occurs. */
  lemma BrowserUnknownIffNoToken(ua: string)
    ensures DetectBrowser(ua) == UnknownBrowser <==>
            forall j :: 0 <= j < |BrowserRules| ==> !Includes(ua, BrowserRules[j].token)
  {
    DetectBrowserIsFirstMatch(ua);
    BrowserRulesUnambiguous();
    ClassifyIsFallback(BrowserRules, ua, UnknownBrowser);
  }

  /** "Edge" is reported only for a user agent that mentions none of Firefox, Chrome, Safari. */
  lemma EdgeNeedsNoChromeOrSafari(ua: string)
    requires DetectBrowser(ua) == "Edge"
    ensures Includes(ua, "Edge")
    ensures !Includes(ua, "Firefox") && !Includes(ua, "Chrome") && !Includes(ua, "Safari")
  {
    BrowserIsFirstOccurringToken(ua, 3);
    assert BrowserRules[0].token == "Firefox" && BrowserRules[1].token == "Chrome";
    assert BrowserRules[2].token == "Safari";
  }

  // ---------------------------------------------------------------------
  // Operating system (script.js:21-37)
  // ---------------------------------------------------------------------

  const UnknownOs: string := "Sistema Operativo Desconocido"

  const OsRules: seq<Rule> := [
    Rule("Win", "Windows"),
    Rule("Mac", "MacOS"),
    Rule("Linux", "Linux"),
    Rule("Android", "Android"),
    Rule("iOS", "iOS")
  ]

  const OsNames: set<string> := {"Windows", "MacOS", "Linux", "Android", "iOS", UnknownOs}

  lemma OsRulesUnambiguous()
    ensures Unambiguous(OsRules, UnknownOs)
  {
    var r := OsRules;
    assert r[0].name[0] == 'W' && r[1].name[0] == 'M' && r[2].name[0] == 'L';
    assert r[3].name[0] == 'A' && r[4].name[0] == 'i' && UnknownOs[0] == 'S';
  }

  /** `navigator.userAgentData?.platform` is truthy: present and not the empty string. */
  predicate HasPlatform(platform: Option<string>) {
    platform.Some? && platform.value != ""
  }

  /**
   * The operating system the dashboard shows: the platform hint when it is
   * truthy, otherwise a classification of the user agent.
   */
  function DetectOs(platform: Option<string>, ua: string): (r: string)
    ensures HasPlatform(platform) ==> r == platform.value
    ensures !HasPlatform(platform) ==> r in OsNames
  {
    if HasPlatform(platform) then platform.value
    else if IndexOf(ua, "Win") != -1 then "Windows"
    else if IndexOf(ua, "Mac") != -1 then "MacOS"
    else if IndexOf(ua, "Linux") != -1 then "Linux"
    else if IndexOf(ua, "Android") != -1 then "Android"
    else if IndexOf(ua, "iOS") != -1 then "iOS"
    else UnknownOs
  }

  /** Without a platform hint, the if-chain is first-match classification over `OsRules`. */
  lemma DetectOsIsFirstMatch(platform: Option<string>, ua: string)
    requires !HasPlatform(platform)
    ensures DetectOs(platform, ua) == Classify(OsRules, ua, UnknownOs)
  {
    var r := OsRules;
    assert r[1..][1..][1..][1..][1..] == [];
    assert FirstMatch(r[1..][1..][1..][1..], ua) == (if Includes(ua, "iOS") then 0 else 1);
    assert FirstMatch(r[1..][1..][1..], ua) == (if Includes(ua, "Android") then 0 else 1 + FirstMatch(r[1..][1..][1..][1..], ua));
    assert FirstMatch(r[1..][1..], ua) == (if Includes(ua, "Linux") then 0 else 1 + FirstMatch(r[1..][1..][1..], ua));
    assert FirstMatch(r[1..], ua) == (if Includes(ua, "Mac") then 0 else 1 + FirstMatch(r[1..][1..], ua));
  }

  /** A truthy platform hint wins whatever the user agent says. */
  lemma PlatformHintIgnoresUserAgent(p: string, ua1: string, ua2: string)
    requires p != ""
    ensures DetectOs(Some(p), ua1) == DetectOs(Some(p), ua2) == p
  {
  }

  /**
   * Without a platform hint, the system is the name of rule k exactly when
   * token k occurs and no earlier token does.
   */
  lemma OsIsFirstOccurringToken(platform: Option<string>, ua: string, k: nat)
    requires !HasPlatform(platform) && k < |OsRules|
    ensures DetectOs(platform, ua) == OsRules[k].name <==>
            Includes(ua, OsRules[k].token) &&
            forall j :: 0 <= j < k ==> !Includes(ua, OsRules[j].token)
  {
    DetectOsIsFirstMatch(platform, ua);
    OsRulesUnambiguous();
    ClassifyIsRule(OsRules, ua, UnknownOs, k);
  }

  /** Without a platform hint, the unknown answer comes exactly when none of the five tokens occurs. */
  lemma OsUnknownIffNoToken(platform: Option<string>, ua: string)
    requires !HasPlatform(platform)
    ensures DetectOs(platform, ua) == UnknownOs <==>
            forall j :: 0 <= j < |OsRules| ==> !Includes(ua, OsRules[j].token)
  {
    DetectOsIsFirstMatch(platform, ua);
    OsRulesUnambiguous();
    ClassifyIsFallback(OsRules, ua, UnknownOs);
  }

  /**
   * Android user agents carry "Linux", so they are reported as "Linux":
   * "Android" is answered only for a user agent without "Linux".
   */
  lemma AndroidShadowedByLinux(platform: Option<string>, ua: string)
    requires !HasPlatform(platform)
    ensures Includes(ua, "Linux") ==> DetectOs(platform, ua) != "Android"
    ensures DetectOs(platform, ua) == "Android" <==>
            Includes(ua, "Android") && !Includes(ua, "Win") && !Includes(ua, "Mac") && !Includes(ua, "Linux")
  {
    OsIsFirstOccurringToken(platform, ua, 3);
    assert OsRules[0].token == "Win" && OsRules[1].token == "Mac" && OsRules[2].token == "Linux";
  }

  /**
   * iOS user agents carry "Mac OS X", so they are reported as "MacOS":
   * "iOS" is answered only for a user agent without "Mac".
   */
  lemma IosShadowedByMac(platform: Option<string>, ua: string)
    requires !HasPlatform(platform)
    ensures DetectOs(platform, ua) == "iOS" ==> Includes(ua, "iOS") && !Includes(ua, "Mac")
  {
    OsIsFirstOccurringToken(platform, ua, 4);
    assert OsRules[1].token == "Mac";
  }

  // ---------------------------------------------------------------------
  // Device type (script.js:51)
  // ---------------------------------------------------------------------

  const Mobile: string := "Móvil"
  const Desktop: string := "Escritorio"

  /** The alternatives of the pattern /iPhone|iPad|iPod|Android/i. */
  const MobileTokens: seq<string> := ["iPhone", "iPad", "iPod", "Android"]

  /** The pattern /iPhone|iPad|iPod|Android/i matches somewhere in `ua`. */
  ghost predicate MobilePatternMatches(ua: string) {
    exists k, i :: 0 <= k < |MobileTokens| && OccursIgnoringCaseAt(ua, MobileTokens[k], i)
  }

  /** "Móvil" when the case-insensitive mobile pattern matches the user agent, else "Escritorio". */
  function DetectDeviceType(ua: string): (r: string)
    ensures r == Mobile || r == Desktop
    ensures r == Mobile <==> MobilePatternMatches(ua)
  {
    var t := MobileTokens;
    var mobile :=
      IncludesIgnoringCase(ua, t[0]) || IncludesIgnoringCase(ua, t[1]) ||
      IncludesIgnoringCase(ua, t[2]) || IncludesIgnoringCase(ua, t[3]);
    assert mobile <==> MobilePatternMatches(ua) by {
      if MobilePatternMatches(ua) {
        var k, i :| 0 <= k < |t| && OccursIgnoringCaseAt(ua, t[k], i);
        assert IncludesIgnoringCase(ua, t[k]);
      }
    }
    if mobile then Mobile else Desktop
  }

  lemma SameIgnoringCaseLower(a: string, b: string)
    ensures SameIgnoringCase(Lower(a), b) <==> SameIgnoringCase(a, b)
  {
    LowerIdempotent(a);
    if |a| == |b| {
      forall i | 0 <= i < |a| ensures LowerAscii(Lower(a)[i]) == LowerAscii(a[i]) {
        assert Lower(Lower(a))[i] == Lower(a)[i];
      }
    }
  }

  lemma OccursIgnoringCaseLower(ua: string, t: string, i: int)
    ensures OccursIgnoringCaseAt(Lower(ua), t, i) <==> OccursIgnoringCaseAt(ua, t, i)
  {
    if 0 <= i && i + |t| <= |ua| {
      assert Lower(ua)[i..i + |t|] == Lower(ua[i..i + |t|]);
      SameIgnoringCaseLower(ua[i..i + |t|], t);
    }
  }

  /** The device type does not depend on the case of the user agent's letters. */
  lemma DeviceTypeIgnoresCase(ua: string)
    ensures DetectDeviceType(Lower(ua)) == DetectDeviceType(ua)
  {
    if MobilePatternMatches(ua) {
      var k, i :| 0 <= k < |MobileTokens| && OccursIgnoringCaseAt(ua, MobileTokens[k], i);
      OccursIgnoringCaseLower(ua, MobileTokens[k], i);
    }
    if MobilePatternMatches(Lower(ua)) {
      var k, i :| 0 <= k < |MobileTokens| && OccursIgnoringCaseAt(Lower(ua), MobileTokens[k], i);
      OccursIgnoringCaseLower(ua, MobileTokens[k], i);
    }
  }
}
