/** Which backend a request goes to: inline model, subagent tag, prefix rules, default. */
module Router {
  import opened Prelude
  import opened ByteLines
  import TierRules

  datatype RouteRule = RouteRule(prefix: string, target: string)

  /** `enabled` of each known provider; the empty default is none. */
  datatype Config = Config(enabled: map<string, bool>, rules: seq<RouteRule>, default: string)

  datatype Scenario = Inline | Subagent | ByRule | ByDefault
  datatype Decision =
    | Decision(provider: string, model: string, scenario: Scenario, strip: bool, fallback: Option<string>)
    | NoRoute

  /** `parse_route_target`: "/" goes before ",". */
  function ParseTarget(target: string): (string, string) {
    var at := if Find(target, '/') >= 0 then Find(target, '/') else Find(target, ',');
    if at < 0 then (target, "") else (target[..at], target[at + 1..])
  }

  predicate Usable(config: Config, target: string) {
    var provider := ParseTarget(target).0;
    provider in config.enabled && config.enabled[provider]
  }

  predicate Explicit(model: string) { Find(model, '/') >= 0 || Find(model, ',') >= 0 }

  /** `x or y` of two announcements. */
  function Announce(first: Option<string>, second: string): Option<string> {
    if first.Some? && first.value != "" then first else Some(second)
  }

  /** The explicit wish that was not followed, if any; `clean` makes it fit for a header. */
  function Unfollowed(model: string, tag: Option<string>, clean: string -> string): Option<string> {
    var inline := if Explicit(model) then Some(clean(model)) else None;
    if tag.Some? then Announce(inline, clean(tag.value)) else inline
  }

  // ---- an independent reading: the first usable of all that ask to be followed -----------------------

  datatype Candidate = Candidate(scenario: Scenario, target: string)

  function RuleCandidates(rules: seq<RouteRule>, model: string): seq<Candidate> {
    if rules == [] then []
    else
      (if rules[0].prefix <= model && rules[0].target != "" then [Candidate(ByRule, rules[0].target)] else [])
      + RuleCandidates(rules[1..], model)
  }

  function Candidates(model: string, tag: Option<string>, config: Config): seq<Candidate> {
    (if Explicit(model) then [Candidate(Inline, model)] else [])
    + (if tag.Some? then [Candidate(Subagent, tag.value)] else [])
    + RuleCandidates(config.rules, model)
    + (if config.default != "" then [Candidate(ByDefault, config.default)] else [])
  }

  function FirstUsable(cs: seq<Candidate>, config: Config): Option<Candidate> {
    if cs == [] then None
    else if Usable(config, cs[0].target) then Some(cs[0])
    else FirstUsable(cs[1..], config)
  }

  function Decided(c: Option<Candidate>, model: string, tag: Option<string>, clean: string -> string): Decision {
    match c
    case None => NoRoute
    case Some(Candidate(scenario, target)) =>
      var parsed := ParseTarget(target);
      Decision(parsed.0, parsed.1, scenario, scenario == Subagent,
               if scenario == Inline || scenario == Subagent then None else Unfollowed(model, tag, clean))
  }

  lemma {:induction false} FirstUsableAppend(a: seq<Candidate>, b: seq<Candidate>, config: Config)
    ensures FirstUsable(a + b, config) ==
            if FirstUsable(a, config).Some? then FirstUsable(a, config)
            else FirstUsable(b, config)
    decreases |a|
  {
    if a == [] {
      assert a + b == b;
    } else {
      assert (a + b)[1..] == a[1..] + b;
      FirstUsableAppend(a[1..], b, config);
    }
  }

  lemma FirstUsableOne(c: Candidate, config: Config)
    ensures FirstUsable([c], config) == if Usable(config, c.target) then Some(c) else None
  {
    assert [c][1..] == [];
  }

  lemma FirstRuleCandidate(rules: seq<RouteRule>, i: nat, model: string, config: Config)
    requires i < |rules|
    ensures FirstUsable(RuleCandidates(rules[i..], model), config) ==
            if rules[i].prefix <= model && rules[i].target != "" && Usable(config, rules[i].target)
            then Some(Candidate(ByRule, rules[i].target))
            else FirstUsable(RuleCandidates(rules[i + 1..], model), config)
  {
    var r := rules[i];
    assert rules[i..][0] == r && rules[i..][1..] == rules[i + 1..];
    var first := if r.prefix <= model && r.target != "" then [Candidate(ByRule, r.target)] else [];
    FirstUsableAppend(first, RuleCandidates(rules[i + 1..], model), config);
    FirstUsableOne(Candidate(ByRule, r.target), config);
  }

  lemma FirstOfAll(model: string, tag: Option<string>, config: Config)
    ensures FirstUsable(Candidates(model, tag, config), config) ==
            if Explicit(model) && Usable(config, model) then Some(Candidate(Inline, model))
            else if tag.Some? && Usable(config, tag.value) then Some(Candidate(Subagent, tag.value))
            else if FirstUsable(RuleCandidates(config.rules, model), config).Some?
            then FirstUsable(RuleCandidates(config.rules, model), config)
            else if config.default != "" && Usable(config, config.default) then
              Some(Candidate(ByDefault, config.default))
            else None
  {
    hide RuleCandidates, Usable;
    var a := if Explicit(model) then [Candidate(Inline, model)] else [];
    var b := if tag.Some? then [Candidate(Subagent, tag.value)] else [];
    var c := RuleCandidates(config.rules, model);
    var d := if config.default != "" then [Candidate(ByDefault, config.default)] else [];
    FirstUsableAppend(a + b + c, d, config);
    FirstUsableAppend(a + b, c, config);
    FirstUsableAppend(a, b, config);
    FirstUsableOne(Candidate(Inline, model), config);
    if tag.Some? { FirstUsableOne(Candidate(Subagent, tag.value), config); }
    FirstUsableOne(Candidate(ByDefault, config.default), config);
  }

  /** `decide_route`; the tag is what the system text holds between the subagent markers. */
  method DecideRoute(model: string, tag: Option<string>, config: Config, clean: string -> string) returns (d: Decision)
    ensures d == Decided(FirstUsable(Candidates(model, tag, config), config), model, tag, clean)
    ensures d.Decision? ==> d.provider in config.enabled && config.enabled[d.provider]
  {
    hide FirstUsable, Candidates, RuleCandidates;
    FirstOfAll(model, tag, config);
    var fallback: Option<string> := None;
    if Find(model, '/') >= 0 || Find(model, ',') >= 0 {
      var p := ParseTarget(model);
      if p.0 in config.enabled && config.enabled[p.0] {
        return Decision(p.0, p.1, Inline, false, None);
      }
      fallback := Some(clean(model));
    }
    if tag.Some? {
      var p := ParseTarget(tag.value);
      if p.0 in config.enabled && config.enabled[p.0] {
        return Decision(p.0, p.1, Subagent, true, None);
      }
      fallback := Announce(fallback, clean(tag.value));
    }
    assert config.rules[0..] == config.rules;
    for i := 0 to |config.rules|
      invariant FirstUsable(RuleCandidates(config.rules, model), config) ==
                FirstUsable(RuleCandidates(config.rules[i..], model), config)
    {
      FirstRuleCandidate(config.rules, i, model, config);
      var r := config.rules[i];
      if r.prefix <= model {
        d := MakeDecision(r.target, ByRule, config, fallback);
        if d.Decision? {
          return;
        }
      }
    }
    NoRuleLeft(config, model);
    d := MakeDecision(config.default, ByDefault, config, fallback);
  }

  lemma NoRuleLeft(config: Config, model: string)
    ensures FirstUsable(RuleCandidates(config.rules[|config.rules|..], model), config) == None
  {
  }

  /** `_make_decision` */
  method MakeDecision(slot: string, scenario: Scenario, config: Config, fallback: Option<string>) returns (d: Decision)
    ensures d == if slot != "" && Usable(config, slot)
                 then Decision(ParseTarget(slot).0, ParseTarget(slot).1, scenario, false, fallback) else NoRoute
  {
    if slot == "" {
      return NoRoute;
    }
    var p := ParseTarget(slot);
    if p.0 !in config.enabled || !config.enabled[p.0] {
      return NoRoute;
    }
    return Decision(p.0, p.1, scenario, false, fallback);
  }

  /**
   * A request is announced as not following an explicit wish exactly when it came with one and went
   * by rule or default. So an inline wish dropped for a subagent tag that works is not announced.
   */
  lemma AnnouncedWhen(model: string, tag: Option<string>, config: Config, clean: string -> string)
    ensures var d := Decided(FirstUsable(Candidates(model, tag, config), config), model, tag, clean);
            d.Decision? ==>
              && (d.fallback.Some? <==>
                    && (Explicit(model) || tag.Some?)
                    && !(Explicit(model) && Usable(config, model)) && !(tag.Some? && Usable(config, tag.value)))
              && (Explicit(model) && !Usable(config, model) && d.fallback == None <==>
                    d.scenario == Subagent && Explicit(model))
  {
    hide FirstUsable, Candidates, RuleCandidates, Usable;
    FirstOfAll(model, tag, config);
    RuleCandidatesAreRules(config.rules, model, config);
  }

  lemma {:induction false} RuleCandidatesAreRules(rules: seq<RouteRule>, model: string, config: Config)
    ensures var c := FirstUsable(RuleCandidates(rules, model), config);
            c.Some? ==> c.value.scenario == ByRule && Usable(config, c.value.target)
  {
    if rules != [] {
      RuleCandidatesAreRules(rules[1..], model, config);
      assert rules[0..] == rules;
      FirstRuleCandidate(rules, 0, model, config);
    }
  }

  // ---- what is decided, by the request and the configuration alone ----------------------------------------

  /** A target names a provider and a model: apart at the first slash, else at the first comma, else all provider. */
  ghost predicate Names(target: string, provider: string, model: string) {
    if '/' in target then Splits(target, '/', provider, model)
    else if ',' in target then Splits(target, ',', provider, model)
    else provider == target && model == ""
  }

  ghost predicate Splits(target: string, c: char, provider: string, model: string) {
    c !in provider && target == provider + [c] + model
  }

  lemma TargetSays(target: string)
    ensures Names(target, ParseTarget(target).0, ParseTarget(target).1)
    ensures forall p, m :: Names(target, p, m) ==> p == ParseTarget(target).0 && m == ParseTarget(target).1
  {
    FoundWhenIn(target, '/');
    FoundWhenIn(target, ',');
    forall p, m | Names(target, p, m) ensures p == ParseTarget(target).0 && m == ParseTarget(target).1 {
      if '/' in target { SplitOnce(target, '/', p, m); } else if ',' in target { SplitOnce(target, ',', p, m); }
    }
    var at := if Find(target, '/') >= 0 then Find(target, '/') else Find(target, ',');
    if at >= 0 { assert target == target[..at] + [target[at]] + target[at + 1..]; }
  }

  lemma FoundWhenIn(s: string, c: char)
    ensures c in s <==> 0 <= Find(s, c)
    ensures 0 <= Find(s, c) ==> c !in s[..Find(s, c)]
  {
    if 0 <= Find(s, c) { assert s[Find(s, c)] in s; }
  }

  lemma SplitOnce(s: string, c: char, before: string, after: string)
    requires Splits(s, c, before, after)
    ensures Find(s, c) == |before| && before == s[..|before|] && after == s[|before| + 1..]
  {
    assert forall k :: 0 <= k < |before| ==> s[k] == before[k] && before[k] in before;
    FindUnique(s, c, |before|);
  }

  /** The target is not empty of meaning here: its provider is known and switched on. */
  ghost predicate Live(config: Config, target: string) {
    exists p, m :: Names(target, p, m) && p in config.enabled && config.enabled[p]
  }

  lemma UsableIsLive(config: Config, target: string)
    ensures Usable(config, target) <==> Live(config, target)
  {
    hide Names;
    TargetSays(target);
  }

  /** Rule i asks for this model, and its target can be used. */
  ghost predicate Serves(config: Config, model: string, i: int) {
    && 0 <= i < |config.rules|
    && config.rules[i].prefix <= model && config.rules[i].target != "" && Live(config, config.rules[i].target)
  }

  ghost predicate FirstServes(config: Config, model: string, i: int) {
    Serves(config, model, i) && forall j :: 0 <= j < i ==> !Serves(config, model, j)
  }

  lemma RulesFrom(config: Config, model: string, i: nat)
    requires i <= |config.rules| && forall j :: 0 <= j < i ==> !Serves(config, model, j)
    ensures var c := FirstUsable(RuleCandidates(config.rules[i..], model), config);
            && (c == None <==> forall j :: !Serves(config, model, j))
            && (c.Some? ==>
                  exists j :: FirstServes(config, model, j) && c == Some(Candidate(ByRule, config.rules[j].target)))
    decreases |config.rules| - i
  {
    hide Live, Usable, FirstUsable, RuleCandidates;
    if i == |config.rules| {
      NoRuleLeft(config, model);
    } else {
      FirstRuleCandidate(config.rules, i, model, config);
      UsableIsLive(config, config.rules[i].target);
      if Serves(config, model, i) { assert FirstServes(config, model, i); } else { RulesFrom(config, model, i + 1); }
    }
  }

  /** A decision that follows this target, in this way. */
  ghost predicate Follows(d: Decision, scenario: Scenario, target: string) {
    d.Decision? && d.scenario == scenario && Names(target, d.provider, d.model) && d.strip == scenario.Subagent?
  }

  /**
   * An inline model with a live provider is followed; else a live subagent tag; else the first rule whose
   * prefix the model starts with and whose target is live; else a live default; else there is no route.
   */
  lemma RouteSays(model: string, tag: Option<string>, config: Config, clean: string -> string)
    ensures var d := Decided(FirstUsable(Candidates(model, tag, config), config), model, tag, clean);
            if ('/' in model || ',' in model) && Live(config, model) then Follows(d, Inline, model)
            else if tag.Some? && Live(config, tag.value) then Follows(d, Subagent, tag.value)
            else if exists i :: Serves(config, model, i) then
              exists i :: FirstServes(config, model, i) && Follows(d, ByRule, config.rules[i].target)
            else if config.default != "" && Live(config, config.default) then Follows(d, ByDefault, config.default)
            else d == NoRoute
  {
    hide Names, Live, Usable, FirstUsable, Candidates, RuleCandidates, ParseTarget;
    var d := Decided(FirstUsable(Candidates(model, tag, config), config), model, tag, clean);
    FoundWhenIn(model, '/');
    FoundWhenIn(model, ',');
    FirstOfAll(model, tag, config);
    UsableIsLive(config, model);
    UsableIsLive(config, config.default);
    TargetSays(model);
    TargetSays(config.default);
    if tag.Some? {
      UsableIsLive(config, tag.value);
      TargetSays(tag.value);
    }
    assert config.rules[0..] == config.rules;
    RulesFrom(config, model, 0);
    if i :| FirstServes(config, model, i) && FirstUsable(RuleCandidates(config.rules, model), config) ==
                                             Some(Candidate(ByRule, config.rules[i].target)) {
      TargetSays(config.rules[i].target);
    }
  }

  /** What is announced as not followed: the inline model, or the tag where there is none or it cleans to nothing. */
  lemma AnnouncementSays(model: string, tag: Option<string>, config: Config, clean: string -> string)
    ensures var d := Decided(FirstUsable(Candidates(model, tag, config), config), model, tag, clean);
            d.Decision? && d.fallback.Some? ==>
              d.fallback.value ==
              if ('/' in model || ',' in model) && (tag == None || clean(model) != "") then clean(model)
              else clean(tag.GetOr(""))
  {
    hide FirstUsable, Candidates;
    FoundWhenIn(model, '/');
    FoundWhenIn(model, ',');
  }

  // ---- the tier seed and the router agree ---------------------------------------------------------------

  function AsRaw(rules: seq<RouteRule>): seq<TierRules.Raw> {
    seq(|rules|, i requires 0 <= i < |rules| => TierRules.Rule(Some(rules[i].prefix), Some(rules[i].target), ""))
  }

  /** The longer of the tier and the prefix of its first able rule. */
  function Sample(rules: seq<RouteRule>, tier: string): string {
    var i := TierRules.FirstAble(AsRaw(rules), tier);
    if i < |rules| && tier <= rules[i].prefix then rules[i].prefix else tier
  }

  lemma {:induction false} FirstMatchWins(rules: seq<RouteRule>, i: nat, j: nat, model: string, config: Config)
    requires i <= j < |rules| && forall k :: i <= k < j ==> !(rules[k].prefix <= model)
    requires rules[j].prefix <= model && rules[j].target != "" && Usable(config, rules[j].target)
    ensures FirstUsable(RuleCandidates(rules[i..], model), config) == Some(Candidate(ByRule, rules[j].target))
    decreases j - i
  {
    hide RuleCandidates, FirstUsable;
    FirstRuleCandidate(rules, i, model, config);
    if i < j { FirstMatchWins(rules, i + 1, j, model, config); }
  }

  /**
   * The target seeded for a tier is where some model of the tier is in fact routed, when every rule
   * has a prefix and a usable target: the router's own first match for that model is the same rule.
   */
  lemma SeedIsRouted(config: Config, tier: string, clean: string -> string)
    requires forall k :: 0 <= k < |config.rules| ==>
               config.rules[k].prefix != "" && config.rules[k].target != "" && Usable(config, config.rules[k].target)
    requires TierRules.TierRoute(AsRaw(config.rules), tier).Some? && !Explicit(Sample(config.rules, tier))
    ensures var m := Sample(config.rules, tier);
            var target := TierRules.TierRoute(AsRaw(config.rules), tier).value;
            && tier <= m
            && Decided(FirstUsable(Candidates(m, None, config), config), m, None, clean) ==
               Decision(ParseTarget(target).0, ParseTarget(target).1, ByRule, false, None)
  {
    hide FirstUsable, Candidates, RuleCandidates, Usable;
    var raw, m := AsRaw(config.rules), Sample(config.rules, tier);
    var i := TierRules.FirstAble(raw, tier);
    forall k | 0 <= k < i ensures !(config.rules[k].prefix <= m) {
      assert !TierRules.Able(raw[k], tier);
      NotAbleNotRouted(raw[k], config.rules[k].prefix, tier, m);
    }
    FirstMatchWins(config.rules, 0, i, m, config);
    assert config.rules[0..] == config.rules;
    FirstOfAll(m, None, config);
  }

  lemma NotAbleNotRouted(r: TierRules.Raw, prefix: string, tier: string, m: string)
    requires r.Rule? && r.prefix == Some(prefix) && prefix != "" && TierRules.Route(r) != ""
    requires !TierRules.Able(r, tier) && tier <= m
    ensures !(prefix <= m)
  {
    if prefix <= m {
      assert TierRules.StartsWith(m, tier) && TierRules.StartsWith(m, prefix);
      TierRules.CommonExtension(tier, prefix);
    }
  }
}
