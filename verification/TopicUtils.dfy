/**
 Names of topics and subscriptions (`pkg/topicutils/sanitize.go`).
 A string is a sequence of code points; once invalid characters are replaced every
 character is ASCII, so lengths in characters and in bytes agree.
 */
module TopicUtils {
  import Strings

  const MAX_NAME := 255
  const SUFFIX := "-subscription"

  // ----- the code's passes -----

  predicate IsLetter(c: char) {
    'a' <= c <= 'z' || 'A' <= c <= 'Z'
  }

  /** `[A-Za-z0-9_]`: the characters that make up a token. */
  predicate IsWord(c: char) {
    IsLetter(c) || '0' <= c <= '9' || c == '_'
  }

  predicate IsAllowed(c: char) {
    IsWord(c) || c == '-'
  }

  function ReplaceInvalid(s: string): (r: string)
    ensures |r| == |s|
  {
    seq(|s|, i requires 0 <= i < |s| => if IsAllowed(s[i]) then s[i] else '-')
  }

  function TrimLeft(s: string): (r: string)
    ensures |r| <= |s| && (r == "" || r[0] != '-')
  {
    if s != "" && s[0] == '-' then TrimLeft(s[1..]) else s
  }

  function TrimRight(s: string): (r: string)
    ensures r <= s && (r == "" || r[|r| - 1] != '-')
  {
    if s != "" && s[|s| - 1] == '-' then TrimRight(s[..|s| - 1]) else s
  }

  function Trim(s: string): string {
    TrimRight(TrimLeft(s))
  }

  /** Replaces each maximal run of hyphens by one hyphen. */
  function Collapse(s: string): string
    decreases |s|
  {
    if s == "" then ""
    else if s[0] == '-' then "-" + Collapse(TrimLeft(s[1..]))
    else [s[0]] + Collapse(s[1..])
  }

  function TrimSuffixHyphen(s: string): string {
    if s != "" && s[|s| - 1] == '-' then s[..|s| - 1] else s
  }

  function Cut(s: string): string {
    if |s| > MAX_NAME then s[..MAX_NAME] else s
  }

  /** The rules for an empty, badly started, short or long name. */
  function Finish(s: string): string {
    if s == "" then "topic"
    else
      var started := if IsLetter(s[0]) then s else "topic-" + s;
      var padded := if |started| < 3 then "topic-" + started else started;
      TrimSuffixHyphen(Cut(padded))
  }

  function SanitizeTopicName(name: string): string {
    Finish(Trim(Collapse(ReplaceInvalid(name))))
  }

  function BuildTopicName(projectID: string, event: string): string {
    SanitizeTopicName(projectID + "-" + event)
  }

  function BuildSubscriptionName(topicName: string): string {
    if topicName == "" then "topic-subscription" else SanitizeTopicName(topicName + SUFFIX)
  }

  // ----- reference: tokens joined by single hyphens -----

  /** Length of the longest prefix made of token characters. */
  function RunLength(s: string): (n: nat)
    ensures n <= |s|
    ensures forall i :: 0 <= i < n ==> IsWord(s[i])
    ensures n < |s| ==> !IsWord(s[n])
  {
    if s != "" && IsWord(s[0]) then 1 + RunLength(s[1..]) else 0
  }

  /** The maximal runs of token characters, in order. */
  function Tokens(s: string): seq<string>
    decreases |s|
  {
    if s == "" then []
    else if IsWord(s[0]) then [s[..RunLength(s)]] + Tokens(s[RunLength(s)..])
    else Tokens(s[1..])
  }

  function Join(ts: seq<string>): string {
    Strings.Join(ts, "-")
  }

  /** Google's naming rules, plus the two hyphen rules that the passes establish. */
  predicate Canonical(s: string) {
    && 3 <= |s| <= MAX_NAME
    && IsLetter(s[0])
    && Tidy(s)
  }

  /** Allowed characters only, no leading, trailing or double hyphen. */
  predicate Tidy(s: string) {
    && (forall i :: 0 <= i < |s| ==> IsAllowed(s[i]))
    && (forall i :: 0 < i < |s| ==> s[i] != '-' || s[i - 1] != '-')
    && (s != "" ==> s[0] != '-' && s[|s| - 1] != '-')
  }

  // ----- the passes compute the joined tokens -----

  /** Tokens joined by hyphens, with a hyphen before them, and behind them if there are any. */
  function Frame(lead: bool, ts: seq<string>, trail: bool): string {
    (if lead then "-" else "") + (Join(ts) + if trail && ts != [] then "-" else "")
  }

  predicate StartsWithHyphen(s: string) {
    s != "" && s[0] == '-'
  }

  predicate EndsWithHyphen(s: string) {
    s != "" && s[|s| - 1] == '-'
  }

  /** What `Collapse` leaves of a string of allowed characters, hyphens at both ends included. */
  function Framed(s: string): string {
    Frame(StartsWithHyphen(s), Tokens(s), EndsWithHyphen(s))
  }

  predicate AllAllowed(s: string) {
    forall i :: 0 <= i < |s| ==> IsAllowed(s[i])
  }

  lemma {:induction false} TrimLeftFacts(s: string)
    requires AllAllowed(s)
    ensures AllAllowed(TrimLeft(s)) && Tokens(TrimLeft(s)) == Tokens(s)
    ensures TrimLeft(s) != "" ==> TrimLeft(s)[|TrimLeft(s)| - 1] == s[|s| - 1]
    ensures (TrimLeft(s) == "") <==> (Tokens(s) == [])
  {
    if s != "" && s[0] == '-' {
      TrimLeftFacts(s[1..]);
    }
  }

  lemma {:induction false} CollapseRun(s: string)
    requires AllAllowed(s)
    ensures Collapse(s) == s[..RunLength(s)] + Collapse(s[RunLength(s)..])
  {
    if s != "" && IsWord(s[0]) {
      CollapseRun(s[1..]);
      assert s[1..][RunLength(s[1..])..] == s[RunLength(s)..];
      assert s[..RunLength(s)] == [s[0]] + s[1..][..RunLength(s[1..])];
    }
  }

  lemma {:induction false} CollapseIsFramed(s: string)
    requires AllAllowed(s)
    ensures Collapse(s) == Framed(s)
    decreases |s|
  {
    if s == "" {
    } else if s[0] == '-' {
      var rest := TrimLeft(s[1..]);
      TrimLeftFacts(s[1..]);
      CollapseIsFramed(rest);
      FrameLead(Tokens(s), EndsWithHyphen(rest), EndsWithHyphen(s));
    } else {
      var n := RunLength(s);
      CollapseIsFramed(s[n..]);
      CollapseRun(s);
      FramedRun(s, s[..n], s[n..]);
    }
  }

  lemma FrameLead(ts: seq<string>, trail: bool, trail': bool)
    requires trail == trail' || ts == []
    ensures Frame(true, ts, trail') == "-" + Frame(false, ts, trail)
  {
  }

  lemma FrameCons(run: string, ts: seq<string>, trail: bool)
    requires ts == [] ==> trail
    ensures Frame(false, [run] + ts, trail) == run + Frame(true, ts, trail)
  {
    JoinCons(run, ts);
  }

  lemma FramedRun(s: string, run: string, rest: string)
    requires AllAllowed(s) && s != "" && IsWord(s[0])
    requires run == s[..RunLength(s)] && rest == s[RunLength(s)..]
    ensures Framed(s) == run + Framed(rest)
  {
    if rest == "" {
      assert run == s && Tokens(s) == [s];
    } else {
      if Tokens(rest) == [] {
        AllHyphens(rest);
      }
      FrameCons(run, Tokens(rest), EndsWithHyphen(s));
    }
  }

  lemma JoinCons(t: string, ts: seq<string>)
    ensures Join([t] + ts) == if ts == [] then t else t + "-" + Join(ts)
  {
    assert ([t] + ts)[1..] == ts;
  }

  lemma {:induction false} AllHyphens(s: string)
    requires AllAllowed(s) && Tokens(s) == [] && s != ""
    ensures s[|s| - 1] == '-' && Collapse(s) == "-"
  {
    assert s[0] == '-';
    TrimLeftFacts(s[1..]);
    if |s| > 1 {
      AllHyphens(s[1..]);
    }
  }

  lemma {:induction false} ReplaceKeepsTokens(s: string)
    ensures AllAllowed(ReplaceInvalid(s)) && Tokens(ReplaceInvalid(s)) == Tokens(s)
    decreases |s|
  {
    var r := ReplaceInvalid(s);
    if s == "" {
    } else if IsWord(s[0]) {
      var n := RunLength(s);
      ReplaceRun(s);
      assert r[..n] == s[..n];
      assert r[n..] == ReplaceInvalid(s[n..]);
      ReplaceKeepsTokens(s[n..]);
    } else {
      assert r[1..] == ReplaceInvalid(s[1..]);
      ReplaceKeepsTokens(s[1..]);
    }
  }

  lemma {:induction false} ReplaceRun(s: string)
    ensures RunLength(ReplaceInvalid(s)) == RunLength(s)
  {
    if s != "" && IsWord(s[0]) {
      assert ReplaceInvalid(s)[1..] == ReplaceInvalid(s[1..]);
      ReplaceRun(s[1..]);
    }
  }

  /** Every element is a non-empty run of token characters. */
  predicate Words(ts: seq<string>) {
    forall t :: t in ts ==> t != "" && forall i :: 0 <= i < |t| ==> IsWord(t[i])
  }

  lemma {:induction false} TokensAreWords(s: string)
    ensures Words(Tokens(s))
    decreases |s|
  {
    if s == "" {
    } else if IsWord(s[0]) {
      TokensAreWords(s[RunLength(s)..]);
    } else {
      TokensAreWords(s[1..]);
    }
  }

  lemma {:induction false} JoinIsTidy(ts: seq<string>)
    requires Words(ts)
    ensures Tidy(Join(ts)) && (Join(ts) == "" <==> ts == [])
  {
    if ts == [] {
    } else {
      assert ts[0] in ts;
      assert forall i :: 0 <= i < |ts[0]| ==> IsWord(ts[0][i]);
      if |ts| > 1 {
        JoinIsTidy(ts[1..]);
      }
    }
  }

  lemma TrimLead(t: string)
    requires !StartsWithHyphen(t)
    ensures TrimLeft(t) == t && TrimLeft("-" + t) == t
  {
    assert ("-" + t)[1..] == t;
  }

  lemma TrimTrail(t: string)
    requires !EndsWithHyphen(t)
    ensures TrimRight(t) == t && TrimRight(t + "-") == t
  {
    assert (t + "-")[..|t|] == t;
  }

  lemma TrimTail(body: string, trail: bool)
    requires Tidy(body) && (trail ==> body != "")
    ensures var t := body + if trail then "-" else ""; !StartsWithHyphen(t) && TrimRight(t) == body
  {
    TrimTrail(body);
    assert body + "" == body;
  }

  lemma TrimFrame(lead: bool, ts: seq<string>, trail: bool)
    requires Words(ts)
    ensures Trim(Frame(lead, ts, trail)) == Join(ts)
  {
    var t := Join(ts) + if trail && ts != [] then "-" else "";
    JoinIsTidy(ts);
    TrimTail(Join(ts), trail && ts != []);
    TrimLead(t);
    assert Frame(lead, ts, trail) == if lead then "-" + t else t;
  }

  /** The replace, collapse and trim passes together: split into tokens and join with single hyphens. */
  lemma PassesJoinTokens(name: string)
    ensures Trim(Collapse(ReplaceInvalid(name))) == Join(Tokens(name))
  {
    var r := ReplaceInvalid(name);
    ReplaceKeepsTokens(name);
    CollapseIsFramed(r);
    TokensAreWords(name);
    TrimFrame(StartsWithHyphen(r), Tokens(name), EndsWithHyphen(r));
  }

  lemma {:induction false} TokensOfPair(p: string, e: string)
    ensures Tokens(p + "-" + e) == Tokens(p) + Tokens(e)
    decreases |p|
  {
    var s := p + "-" + e;
    if p == "" {
      assert s[1..] == e;
    } else if IsWord(p[0]) {
      var n := RunLength(p);
      RunOfPair(p, e);
      assert s[..n] == p[..n];
      assert s[n..] == p[n..] + "-" + e;
      TokensOfPair(p[n..], e);
    } else {
      assert s[1..] == p[1..] + "-" + e;
      TokensOfPair(p[1..], e);
    }
  }

  lemma {:induction false} RunOfPair(p: string, e: string)
    ensures RunLength(p + "-" + e) == RunLength(p)
  {
    if p != "" && IsWord(p[0]) {
      assert (p + "-" + e)[1..] == p[1..] + "-" + e;
      RunOfPair(p[1..], e);
    }
  }

  /** A topic name depends only on the tokens of the project followed by the tokens of the event. */
  lemma TopicNameFromTokens(p: string, e: string)
    ensures BuildTopicName(p, e) == Finish(Join(Tokens(p) + Tokens(e)))
  {
    PassesJoinTokens(p + "-" + e);
    TokensOfPair(p, e);
  }

  // ----- canonical names are exactly the fixed points -----

  lemma FinishIsCanonical(s: string)
    requires Tidy(s)
    ensures Canonical(Finish(s))
  {
    if s != "" {
      PrefixIsTidy(s);
      var started := if IsLetter(s[0]) then s else "topic-" + s;
      PrefixIsTidy(started);
      var padded := if |started| < 3 then "topic-" + started else started;
      CutIsCanonical(padded);
    } else {
      assert Canonical("topic");
    }
  }

  lemma PrefixIsTidy(s: string)
    requires Tidy(s) && s != ""
    ensures Tidy("topic-" + s) && IsLetter(("topic-" + s)[0]) && |"topic-" + s| >= 3
  {
    var prefix := "topic";
    assert Tidy(prefix);
    var r := prefix + "-" + s;
    assert forall i :: 0 <= i < 5 ==> r[i] == prefix[i];
    assert forall i :: 6 <= i < |r| ==> r[i] == s[i - 6];
    assert "topic-" + s == r;
  }

  lemma CutIsCanonical(s: string)
    requires Tidy(s) && |s| >= 3 && IsLetter(s[0])
    ensures Canonical(TrimSuffixHyphen(Cut(s)))
  {
    var cut := Cut(s);
    assert cut <= s;
    var r := TrimSuffixHyphen(cut);
    assert r <= s;
    assert forall i :: 0 <= i < |r| ==> r[i] == s[i];
  }

  /** Every output is canonical, whatever the input. */
  lemma SanitizeIsCanonical(name: string)
    ensures Canonical(SanitizeTopicName(name))
  {
    PassesJoinTokens(name);
    TokensAreWords(name);
    JoinIsTidy(Tokens(name));
    FinishIsCanonical(Join(Tokens(name)));
  }

  /** The joined tokens with at most one prefix. */
  function Prefixed(s: string): string
    requires s != ""
  {
    if IsLetter(s[0]) && |s| >= 3 then s else "topic-" + s
  }

  lemma PrefixedIsTidy(s: string)
    requires Tidy(s) && s != ""
    ensures Tidy(Prefixed(s)) && Prefixed(s) != ""
  {
    PrefixIsTidy(s);
  }

  /** A prefixed name is long enough not to be prefixed again. */
  lemma FinishPrefixes(s: string)
    requires s != ""
    ensures Finish(s) == TrimSuffixHyphen(Cut(Prefixed(s)))
  {
    var t := "topic-";
    assert |t + s| > 3;
  }

  lemma CutExactly(p: string)
    requires Tidy(p) && p != ""
    ensures TrimSuffixHyphen(Cut(p)) == if |p| <= 255 then p else if p[254] == '-' then p[..254] else p[..255]
  {
    if |p| > 255 {
      assert p[..255][254] == p[254] && p[..255][..254] == p[..254];
    }
  }

  /**
   The exact result: the joined tokens, prefixed once at most, and cut to 255 characters,
   or to 254 when the 255th is a hyphen that the cut would leave at the end.
   */
  lemma SanitizeExactly(name: string)
    ensures Join(Tokens(name)) == "" ==> SanitizeTopicName(name) == "topic"
    ensures Join(Tokens(name)) != "" ==>
      var s := Join(Tokens(name));
      var p := if ('a' <= s[0] <= 'z' || 'A' <= s[0] <= 'Z') && |s| >= 3 then s else "topic-" + s;
      SanitizeTopicName(name) == if |p| <= 255 then p else if p[254] == '-' then p[..254] else p[..255]
  {
    var s := Join(Tokens(name));
    PassesJoinTokens(name);
    TokensAreWords(name);
    JoinIsTidy(Tokens(name));
    if s != "" {
      FinishPrefixes(s);
      PrefixedIsTidy(s);
      CutExactly(Prefixed(s));
    }
  }

  lemma {:induction false} CollapseKeepsSingles(s: string)
    requires forall i :: 0 < i < |s| ==> s[i] != '-' || s[i - 1] != '-'
    ensures Collapse(s) == s
  {
    if s != "" {
      CollapseKeepsSingles(s[1..]);
    }
  }

  lemma PassesKeepTidy(s: string)
    requires Tidy(s)
    ensures Trim(Collapse(ReplaceInvalid(s))) == s
  {
    assert ReplaceInvalid(s) == s;
    CollapseKeepsSingles(s);
  }

  /** A name is left alone exactly when it is canonical. */
  lemma FixedPointIffCanonical(name: string)
    ensures SanitizeTopicName(name) == name <==> Canonical(name)
  {
    if Canonical(name) {
      PassesKeepTidy(name);
    } else {
      SanitizeIsCanonical(name);
    }
  }

  /**
   In terms of characters: kept are exactly the names of 3 to 255 letters, digits, underscores and hyphens that
   start with a letter, and have neither two hyphens in a row nor a hyphen at the end.
   */
  lemma KeptExactly(name: string)
    ensures SanitizeTopicName(name) == name <==>
      && 3 <= |name| <= 255
      && ('a' <= name[0] <= 'z' || 'A' <= name[0] <= 'Z')
      && (forall i :: 0 <= i < |name| ==>
            || 'a' <= name[i] <= 'z' || 'A' <= name[i] <= 'Z' || '0' <= name[i] <= '9'
            || name[i] == '_' || name[i] == '-')
      && (forall i :: 0 < i < |name| ==> name[i] != '-' || name[i - 1] != '-')
      && name[|name| - 1] != '-'
  {
    FixedPointIffCanonical(name);
  }

  /** The subscription of no topic. */
  lemma EmptyTopic()
    ensures BuildSubscriptionName("") == "topic-subscription"
  {
  }

  lemma SanitizeIdempotent(name: string)
    ensures SanitizeTopicName(SanitizeTopicName(name)) == SanitizeTopicName(name)
  {
    SanitizeIsCanonical(name);
    FixedPointIffCanonical(SanitizeTopicName(name));
  }

  /** Sanitizing a name whose replacement is already canonical is just the replacement. */
  lemma SanitizeByReplacement(name: string)
    requires Canonical(ReplaceInvalid(name))
    ensures SanitizeTopicName(name) == ReplaceInvalid(name)
  {
    FixedPointIffCanonical(ReplaceInvalid(name));
    assert ReplaceInvalid(ReplaceInvalid(name)) == ReplaceInvalid(name);
  }

  lemma TidyPair(a: string, b: string)
    requires Tidy(a) && Tidy(b) && a != "" && b != ""
    ensures Tidy(a + "-" + b)
  {
  }

  /** The queue names of the program are two tidy words joined by a dot. */
  lemma DottedTopicName(p: string, q: string, n: string)
    requires Canonical(p) && Tidy(q) && Tidy(n) && q != "" && n != ""
    requires |p| + |q| + |n| + 2 <= MAX_NAME
    ensures BuildTopicName(p, q + "." + n) == p + "-" + q + "-" + n
  {
    var name := p + "-" + (q + "." + n);
    TidyPair(p, q);
    TidyPair(p + "-" + q, n);
    assert ReplaceInvalid(name) == p + "-" + q + "-" + n;
    SanitizeByReplacement(name);
  }

  // ----- subscription names at the length boundary -----

  /** How many characters of "-subscription" survive after a canonical topic of length n. */
  function SuffixKept(n: nat): nat {
    if n >= 254 then 0 else if n <= 242 then 13 else 255 - n
  }

  lemma SubscriptionBoundary(t: string)
    requires Canonical(t)
    ensures BuildSubscriptionName(t) == t + SUFFIX[..SuffixKept(|t|)]
    ensures |t| <= 242 ==> BuildSubscriptionName(t) == t + "-subscription"
    ensures Canonical(BuildSubscriptionName(t))
    ensures BuildSubscriptionName(t) == t <==> |t| >= 254
  {
    SuffixShape();
    CutAfterSuffix(t, SUFFIX);
    SanitizeIsCanonical(t + SUFFIX);
  }

  predicate HyphenThenLetters(x: string) {
    |x| == 13 && x[0] == '-' && forall i :: 1 <= i < 13 ==> IsLetter(x[i])
  }

  lemma SuffixShape()
    ensures HyphenThenLetters(SUFFIX)
  {
  }

  lemma CutAfterSuffix(t: string, x: string)
    requires Canonical(t) && HyphenThenLetters(x)
    ensures SanitizeTopicName(t + x) == t + x[..SuffixKept(|t|)]
  {
    var full := t + x;
    assert Tidy(full);
    PassesKeepTidy(full);
    if |t| <= 242 {
      assert x[..13] == x;
    } else {
      var k := 255 - |t|;
      assert Cut(full) == t + x[..k];
      if k == 1 {
        assert (t + x[..1])[..254] == t;
      }
    }
  }

  /**
   Two different canonical topics share a subscription name in exactly one way: the shorter has 241 to 253
   characters, and the longer is the shorter with as much of the suffix as fits.
   */
  lemma SubscriptionCollision(t: string, u: string)
    requires Canonical(t) && Canonical(u) && t != u && |t| <= |u|
    ensures BuildSubscriptionName(t) == BuildSubscriptionName(u)
        <==> 241 <= |t| < 254 && u == t + SUFFIX[..SuffixKept(|t|)]
  {
    SubscriptionBoundary(t);
    SubscriptionBoundary(u);
    if BuildSubscriptionName(t) == BuildSubscriptionName(u) && |u| < 254 {
      SubscriptionInjective(t, u);
    }
  }

  /** 243 letters, and the same with "-subscriptio" behind them: two topics, one subscription. */
  lemma SubscriptionShared()
    ensures var t := seq(243, i => 'a');
      var u := t + SUFFIX[..12];
      Canonical(t) && Canonical(u) && t != u && BuildSubscriptionName(t) == BuildSubscriptionName(u) == u
  {
    var t := seq(243, i => 'a');
    var u := t + SUFFIX[..12];
    assert Canonical(t);
    SubscriptionBoundary(t);
    SubscriptionCollision(t, u);
    SubscriptionBoundary(u);
  }

  lemma SubscriptionInjective(t: string, u: string)
    requires Canonical(t) && Canonical(u) && |t| < 254 && |u| < 254
    requires BuildSubscriptionName(t) == BuildSubscriptionName(u)
    ensures t == u
  {
    SubscriptionBoundary(t);
    SubscriptionBoundary(u);
    SuffixShape();
    if |t| <= |u| {
      SameStem(t, u, SUFFIX);
    } else {
      SameStem(u, t, SUFFIX);
    }
  }

  lemma SameStem(t: string, u: string, x: string)
    requires HyphenThenLetters(x) && |t| <= |u| < 254
    requires t + x[..SuffixKept(|t|)] == u + x[..SuffixKept(|u|)]
    ensures t == u
  {
    var r := t + x[..SuffixKept(|t|)];
    assert r[|u|] == x[0] by {
      assert r[|u|] == (u + x[..SuffixKept(|u|)])[|u|];
    }
    assert r[|u|] == x[|u| - |t|];
    assert t == r[..|t|] == u;
  }
}
