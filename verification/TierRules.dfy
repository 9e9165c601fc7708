/** Prefix rules: which one serves a tier, how a role table is written back to them, how a request is routed. */
module TierRules {
  import opened Prelude
  import opened ByteLines

  /** A rule as found in the file; what is no dictionary is carried along as such. */
  datatype Raw = NotARule | Rule(prefix: Option<string>, route: Option<string>, extra: string)

  function Route(r: Raw): string { if r.Rule? then r.route.GetOr("") else "" }

  predicate StartsWith(m: string, p: string) { p <= m }

  predicate Comparable(a: string, b: string) { a <= b || b <= a }

  /** Some model name starts with both exactly when one of them starts with the other. */
  lemma CommonExtension(a: string, b: string)
    ensures (exists m :: StartsWith(m, a) && StartsWith(m, b)) <==> Comparable(a, b)
  {
    if Comparable(a, b) {
      var m := if a <= b then b else a;
      assert StartsWith(m, a) && StartsWith(m, b);
    }
    if m :| StartsWith(m, a) && StartsWith(m, b) {
      assert |a| <= |b| ==> a == m[..|a|] == b[..|a|];
      assert |b| <= |a| ==> b == m[..|b|] == a[..|b|];
    }
  }

  /** A rule with a prefix and a target that some model of the tier would hit. */
  ghost predicate Serves(r: Raw, tier: string) {
    && r.Rule? && r.prefix.Some? && r.prefix.value != "" && Route(r) != ""
    && exists m :: StartsWith(m, tier) && StartsWith(m, r.prefix.value)
  }

  predicate Able(r: Raw, tier: string) {
    r.Rule? && r.prefix.Some? && r.prefix.value != "" && Route(r) != "" && Comparable(tier, r.prefix.value)
  }

  lemma AbleServes(r: Raw, tier: string)
    ensures Able(r, tier) <==> Serves(r, tier)
  {
    if r.Rule? && r.prefix.Some? { CommonExtension(tier, r.prefix.value); }
  }

  /** Where the first able rule is; the length if there is none. */
  function FirstAble(rules: seq<Raw>, tier: string): (i: nat)
    ensures i <= |rules| && (i < |rules| ==> Able(rules[i], tier)) && forall j :: 0 <= j < i ==> !Able(rules[j], tier)
  {
    if rules == [] || Able(rules[0], tier) then 0
    else
      assert forall j :: 1 <= j < |rules| ==> rules[j] == rules[1..][j - 1];
      1 + FirstAble(rules[1..], tier)
  }

  /** `first_tier_route` */
  method FirstTierRoute(rules: seq<Raw>, tier: string) returns (route: Option<string>)
    ensures route == TierRoute(rules, tier)
    ensures route.Some? <==> exists i :: 0 <= i < |rules| && Serves(rules[i], tier)
    ensures route.Some? ==>
              exists i :: 0 <= i < |rules| && Serves(rules[i], tier) && route == Some(Route(rules[i]))
                          && forall j :: 0 <= j < i ==> !Serves(rules[j], tier)
  {
    forall i | 0 <= i < |rules| ensures Able(rules[i], tier) <==> Serves(rules[i], tier) { AbleServes(rules[i], tier); }
    for i := 0 to |rules|
      invariant forall j :: 0 <= j < i ==> !Able(rules[j], tier)
    {
      var r := rules[i];
      if r.Rule? && r.prefix.Some? && r.prefix.value != "" && Route(r) != ""
         && (r.prefix.value <= tier || tier <= r.prefix.value) {
        assert Serves(rules[i], tier);
        return Some(Route(r));
      }
    }
    return None;
  }

  function TierRoute(rules: seq<Raw>, tier: string): Option<string> {
    var i := FirstAble(rules, tier);
    if i < |rules| then Some(Route(rules[i])) else None
  }

  // ---- writing roles back --------------------------------------------------------------------------

  /** A role's prefix and its target, stripped; "" when the role has none. */
  datatype Wish = Wish(prefix: string, target: string)
  datatype Change = Add(prefix: string, target: string) | Replace(prefix: string, was: Option<string>, target: string)

  predicate Matches(r: Raw, prefix: string) { r.Rule? && r.prefix == Some(prefix) }

  function FirstIndex(rules: seq<Raw>, prefix: string): (i: nat)
    ensures i <= |rules| && (i < |rules| ==> Matches(rules[i], prefix))
            && forall j :: 0 <= j < i ==> !Matches(rules[j], prefix)
  {
    if rules == [] || Matches(rules[0], prefix) then 0
    else
      assert forall j :: 1 <= j < |rules| ==> rules[j] == rules[1..][j - 1];
      1 + FirstIndex(rules[1..], prefix)
  }

  lemma FirstIndexUnique(rules: seq<Raw>, prefix: string, i: nat)
    requires i <= |rules| && (i < |rules| ==> Matches(rules[i], prefix))
             && forall j :: 0 <= j < i ==> !Matches(rules[j], prefix)
    ensures FirstIndex(rules, prefix) == i
  {
  }

  function Upsert(rules: seq<Raw>, w: Wish, allowAdd: bool): seq<Raw> {
    var i := FirstIndex(rules, w.prefix);
    if w.target == "" then rules
    else if i == |rules| then (if allowAdd then rules + [Rule(Some(w.prefix), Some(w.target), "")] else rules)
    else if rules[i].route != Some(w.target) then rules[i := rules[i].(route := Some(w.target))]
    else rules
  }

  function ChangeOf(rules: seq<Raw>, w: Wish, allowAdd: bool): seq<Change> {
    var i := FirstIndex(rules, w.prefix);
    if w.target == "" then []
    else if i == |rules| then (if allowAdd then [Add(w.prefix, w.target)] else [])
    else if rules[i].route != Some(w.target) then [Replace(w.prefix, rules[i].route, w.target)]
    else []
  }

  function Planned(rules: seq<Raw>, wishes: seq<Wish>, allowAdd: bool): seq<Raw> {
    if wishes == [] then rules
    else Upsert(Planned(rules, wishes[..|wishes| - 1], allowAdd), wishes[|wishes| - 1], allowAdd)
  }

  function Changes(rules: seq<Raw>, wishes: seq<Wish>, allowAdd: bool): seq<Change> {
    if wishes == [] then []
    else
      var init := wishes[..|wishes| - 1];
      Changes(rules, init, allowAdd) + ChangeOf(Planned(rules, init, allowAdd), wishes[|wishes| - 1], allowAdd)
  }

  function Dictionaries(raw: seq<Raw>): seq<Raw> {
    if raw == [] then []
    else
      var before := Dictionaries(raw[..|raw| - 1]);
      if raw[|raw| - 1].Rule? then before + [raw[|raw| - 1]] else before
  }

  /** `_plan_rule_changes`: the list is copied, then edited wish by wish. */
  method PlanRuleChanges(raw: seq<Raw>, wishes: seq<Wish>, allowAdd: bool)
    returns (changes: seq<Change>, rules: seq<Raw>)
    ensures rules == Planned(Dictionaries(raw), wishes, allowAdd)
    ensures changes == Changes(Dictionaries(raw), wishes, allowAdd)
  {
    rules := [];
    for i := 0 to |raw|
      invariant rules == Dictionaries(raw[..i])
    {
      assert raw[..i + 1][..i] == raw[..i];
      if raw[i].Rule? {
        rules := rules + [raw[i]];
      }
    }
    assert raw[..|raw|] == raw;
    changes := [];
    for k := 0 to |wishes|
      invariant rules == Planned(Dictionaries(raw), wishes[..k], allowAdd)
      invariant changes == Changes(Dictionaries(raw), wishes[..k], allowAdd)
    {
      assert wishes[..k + 1][..k] == wishes[..k];
      var w := wishes[k];
      if w.target != "" {
        var idx := FindPrefix(rules, w.prefix);
        if idx == |rules| {
          if allowAdd {
            rules := rules + [Rule(Some(w.prefix), Some(w.target), "")];
            changes := changes + [Add(w.prefix, w.target)];
          }
        } else if rules[idx].route != Some(w.target) {
          changes := changes + [Replace(w.prefix, rules[idx].route, w.target)];
          rules := rules[idx := rules[idx].(route := Some(w.target))];
        }
      }
    }
    assert wishes[..|wishes|] == wishes;
  }

  method FindPrefix(rules: seq<Raw>, prefix: string) returns (idx: nat)
    ensures idx == FirstIndex(rules, prefix)
  {
    idx := 0;
    while idx < |rules| && !(rules[idx].Rule? && rules[idx].prefix == Some(prefix))
      invariant 0 <= idx <= |rules| && forall j :: 0 <= j < idx ==> !Matches(rules[j], prefix)
    {
      idx := idx + 1;
    }
    FirstIndexUnique(rules, prefix, idx);
  }

  ghost predicate OwnPrefixes(wishes: seq<Wish>) {
    forall i, j :: 0 <= i < j < |wishes| ==> wishes[i].prefix != wishes[j].prefix
  }

  /** An upsert moves nobody's first rule, and settles only the wish it was for. */
  lemma UpsertElsewhere(rules: seq<Raw>, w: Wish, allowAdd: bool, other: string)
    requires other != w.prefix
    ensures var after := Upsert(rules, w, allowAdd);
            var i := FirstIndex(rules, other);
            && (i < |rules| ==> FirstIndex(after, other) == i && after[i] == rules[i])
            && (i == |rules| ==> FirstIndex(after, other) == |after|)
  {
    var after, i := Upsert(rules, w, allowAdd), FirstIndex(rules, other);
    if i < |rules| { FirstIndexUnique(after, other, i); } else { FirstIndexUnique(after, other, |after|); }
  }

  /** The wish says nothing, or its first rule has its target, or it has none and none may be added. */
  predicate Settled(rules: seq<Raw>, w: Wish, allowAdd: bool) {
    var i := FirstIndex(rules, w.prefix);
    w.target == "" || (if i < |rules| then rules[i].route == Some(w.target) else !allowAdd)
  }

  lemma UpsertSettles(rules: seq<Raw>, w: Wish, allowAdd: bool)
    ensures Settled(Upsert(rules, w, allowAdd), w, allowAdd)
    ensures Settled(rules, w, allowAdd) <==> ChangeOf(rules, w, allowAdd) == []
    ensures Settled(rules, w, allowAdd) ==> Upsert(rules, w, allowAdd) == rules
  {
    var after, i := Upsert(rules, w, allowAdd), FirstIndex(rules, w.prefix);
    if w.target != "" && (i < |rules| || allowAdd) { FirstIndexUnique(after, w.prefix, i); }
  }

  /** Nothing is planned exactly when every wish is settled already. */
  lemma {:induction false} NothingPlanned(rules: seq<Raw>, wishes: seq<Wish>, allowAdd: bool)
    requires OwnPrefixes(wishes)
    ensures Changes(rules, wishes, allowAdd) == [] <==>
            forall k :: 0 <= k < |wishes| ==> Settled(rules, wishes[k], allowAdd)
    ensures Changes(rules, wishes, allowAdd) == [] ==> Planned(rules, wishes, allowAdd) == rules
    decreases |wishes|
  {
    if wishes != [] {
      var init, w := wishes[..|wishes| - 1], wishes[|wishes| - 1];
      NothingPlanned(rules, init, allowAdd);
      assert forall k :: 0 <= k < |init| ==> init[k] == wishes[k];
      if Changes(rules, init, allowAdd) == [] { UpsertSettles(rules, w, allowAdd); }
    }
  }

  lemma {:induction false} PlanSettles(rules: seq<Raw>, wishes: seq<Wish>, allowAdd: bool)
    requires OwnPrefixes(wishes)
    ensures forall k :: 0 <= k < |wishes| ==> Settled(Planned(rules, wishes, allowAdd), wishes[k], allowAdd)
    decreases |wishes|
  {
    if wishes != [] {
      var init, w := wishes[..|wishes| - 1], wishes[|wishes| - 1];
      PlanSettles(rules, init, allowAdd);
      var mid := Planned(rules, init, allowAdd);
      UpsertSettles(mid, w, allowAdd);
      forall k | 0 <= k < |init| ensures Settled(Planned(rules, wishes, allowAdd), wishes[k], allowAdd) {
        assert Settled(mid, init[k], allowAdd) && init[k] == wishes[k];
        UpsertElsewhere(mid, w, allowAdd, wishes[k].prefix);
      }
    }
  }

  /** Planning again plans nothing. */
  lemma PlanIsIdempotent(rules: seq<Raw>, wishes: seq<Wish>, allowAdd: bool)
    requires OwnPrefixes(wishes)
    ensures var once := Planned(rules, wishes, allowAdd);
            Changes(once, wishes, allowAdd) == [] && Planned(once, wishes, allowAdd) == once
  {
    PlanSettles(rules, wishes, allowAdd);
    NothingPlanned(Planned(rules, wishes, allowAdd), wishes, allowAdd);
  }

  /** A rule that may change: the first one with the prefix of a wish that has a target. */
  ghost predicate Addressed(rules: seq<Raw>, i: nat, w: Wish) {
    i < |rules| && w.target != "" && FirstIndex(rules, w.prefix) == i
  }

  ghost predicate AsWished(rules: seq<Raw>, after: seq<Raw>, wishes: seq<Wish>, i: nat)
    requires i < |after|
  {
    if i < |rules| then
      || after[i] == rules[i]
      || (rules[i].Rule? && exists k :: 0 <= k < |wishes| && Addressed(rules, i, wishes[k])
                                        && after[i] == rules[i].(route := Some(wishes[k].target)))
    else
      exists k :: 0 <= k < |wishes| && FirstIndex(rules, wishes[k].prefix) == |rules| && wishes[k].target != ""
                  && after[i] == Rule(Some(wishes[k].prefix), Some(wishes[k].target), "")
  }

  lemma {:induction false} PlanFindsTheSame(rules: seq<Raw>, wishes: seq<Wish>, allowAdd: bool, other: string)
    requires forall k :: 0 <= k < |wishes| ==> wishes[k].prefix != other
    ensures var after, i := Planned(rules, wishes, allowAdd), FirstIndex(rules, other);
            && (i < |rules| ==> FirstIndex(after, other) == i)
            && (i == |rules| ==> FirstIndex(after, other) == |after|)
    ensures |Planned(rules, wishes, allowAdd)| >= |rules|
    decreases |wishes|
  {
    if wishes != [] {
      var init, w := wishes[..|wishes| - 1], wishes[|wishes| - 1];
      assert forall k :: 0 <= k < |init| ==> init[k] == wishes[k];
      PlanFindsTheSame(rules, init, allowAdd, other);
      UpsertElsewhere(Planned(rules, init, allowAdd), w, allowAdd, other);
    }
  }

  /**
   * No rule is moved or dropped; only the first rule of a wished prefix gets a new target, keeping
   * everything else; what is new is appended, and only for prefixes that had no rule.
   */
  lemma {:induction false} PlanKeepsRules(rules: seq<Raw>, wishes: seq<Wish>, allowAdd: bool)
    requires OwnPrefixes(wishes)
    ensures var after := Planned(rules, wishes, allowAdd);
            && |after| >= |rules| && (!allowAdd ==> |after| == |rules|)
            && forall i :: 0 <= i < |after| ==> AsWished(rules, after, wishes, i)
    decreases |wishes|
  {
    if wishes != [] {
      var init, w := wishes[..|wishes| - 1], wishes[|wishes| - 1];
      assert forall k :: 0 <= k < |init| ==> init[k] == wishes[k];
      PlanKeepsRules(rules, init, allowAdd);
      PlanFindsTheSame(rules, init, allowAdd, w.prefix);
      var mid, after := Planned(rules, init, allowAdd), Planned(rules, wishes, allowAdd);
      forall i | 0 <= i < |after| ensures AsWished(rules, after, wishes, i) {
        PlanStep(rules, mid, wishes, allowAdd, i);
      }
    }
  }

  lemma PlanStep(rules: seq<Raw>, mid: seq<Raw>, wishes: seq<Wish>, allowAdd: bool, i: nat)
    requires wishes != [] && OwnPrefixes(wishes) && |mid| >= |rules|
    requires var w := wishes[|wishes| - 1];
             && (FirstIndex(rules, w.prefix) < |rules| ==> FirstIndex(mid, w.prefix) == FirstIndex(rules, w.prefix))
             && (FirstIndex(rules, w.prefix) == |rules| ==> FirstIndex(mid, w.prefix) == |mid|)
    requires i < |mid| ==> AsWished(rules, mid, wishes[..|wishes| - 1], i)
    requires i < |Upsert(mid, wishes[|wishes| - 1], allowAdd)|
    ensures AsWished(rules, Upsert(mid, wishes[|wishes| - 1], allowAdd), wishes, i)
  {
    var last := |wishes| - 1;
    var init, w := wishes[..last], wishes[last];
    var after := Upsert(mid, w, allowAdd);
    assert w == wishes[last];
    if i < |mid| && after[i] == mid[i] {
      WishedLonger(rules, mid, after, wishes, i);
    } else if i < |mid| {
      assert i == FirstIndex(mid, w.prefix) < |mid|;
      assert i == FirstIndex(rules, w.prefix) < |rules|;
      assert Addressed(rules, i, wishes[last]);
      KeepsRest(rules, mid, init, i, w.prefix);
    }
  }

  lemma WishedLonger(rules: seq<Raw>, mid: seq<Raw>, after: seq<Raw>, wishes: seq<Wish>, i: nat)
    requires wishes != [] && i < |mid| && i < |after| && after[i] == mid[i]
    requires AsWished(rules, mid, wishes[..|wishes| - 1], i)
    ensures AsWished(rules, after, wishes, i)
  {
    var init := wishes[..|wishes| - 1];
    assert forall k :: 0 <= k < |init| ==> init[k] == wishes[k];
    if i < |rules| && mid[i] != rules[i] {
      var k :| 0 <= k < |init| && Addressed(rules, i, init[k]) && mid[i] == rules[i].(route := Some(init[k].target));
      assert Addressed(rules, i, wishes[k]);
    } else if i >= |rules| {
      var k :| 0 <= k < |init| && FirstIndex(rules, init[k].prefix) == |rules| && init[k].target != ""
               && mid[i] == Rule(Some(init[k].prefix), Some(init[k].target), "");
      assert FirstIndex(rules, wishes[k].prefix) == |rules|;
    }
  }

  /** Whatever a rule was given, its other fields are its own. */
  lemma KeepsRest(rules: seq<Raw>, mid: seq<Raw>, wishes: seq<Wish>, i: nat, prefix: string)
    requires i < |rules| && i < |mid| && AsWished(rules, mid, wishes, i) && Matches(mid[i], prefix)
    ensures rules[i].Rule? && mid[i].Rule? && mid[i].prefix == rules[i].prefix && mid[i].extra == rules[i].extra
  {
  }

  /** A reported change: what the wish for this prefix asks for, and what was there before anything was planned. */
  ghost predicate Reports(c: Change, rules: seq<Raw>, w: Wish) {
    if exists i :: FirstOf(rules, w.prefix, i) then
      exists i :: FirstOf(rules, w.prefix, i) && c == Replace(w.prefix, rules[i].route, w.target)
    else c == Add(w.prefix, w.target)
  }

  ghost predicate FirstOf(rules: seq<Raw>, prefix: string, i: int) {
    && 0 <= i < |rules| && rules[i].Rule? && rules[i].prefix == Some(prefix)
    && forall j :: 0 <= j < i && rules[j].Rule? ==> rules[j].prefix != Some(prefix)
  }

  lemma FirstOfIs(rules: seq<Raw>, prefix: string)
    ensures var i := FirstIndex(rules, prefix);
            if i < |rules| then FirstOf(rules, prefix, i) else forall j :: !FirstOf(rules, prefix, j)
  {
  }

  ghost predicate Ascending(ks: seq<nat>) { forall i, j :: 0 <= i < j < |ks| ==> ks[i] < ks[j] }

  /** One change for each wish that is not settled, in the order of the wishes. */
  ghost predicate Listed(ks: seq<nat>, changes: seq<Change>, rules: seq<Raw>, wishes: seq<Wish>, allowAdd: bool) {
    && |ks| == |changes| && Ascending(ks)
    && (forall i :: 0 <= i < |ks| ==> ks[i] < |wishes| && Reports(changes[i], rules, wishes[ks[i]]))
    && (forall k: nat :: k in ks <==> k < |wishes| && !Settled(rules, wishes[k], allowAdd))
  }

  lemma ListedSettled(ks: seq<nat>, changes: seq<Change>, rules: seq<Raw>, wishes: seq<Wish>, w: Wish, allowAdd: bool)
    requires Listed(ks, changes, rules, wishes, allowAdd) && Settled(rules, w, allowAdd)
    ensures Listed(ks, changes, rules, wishes + [w], allowAdd)
  {
    hide Reports, Settled;
    var longer := wishes + [w];
    assert longer[|wishes|] == w && forall k :: 0 <= k < |wishes| ==> longer[k] == wishes[k];
  }

  lemma InLonger(ks: seq<nat>, n: nat, k: nat)
    ensures k in ks + [n] <==> k in ks || k == n
  {
  }

  lemma ListedMore(ks: seq<nat>, changes: seq<Change>, more: Change,
                   rules: seq<Raw>, wishes: seq<Wish>, w: Wish, allowAdd: bool)
    requires Listed(ks, changes, rules, wishes, allowAdd) && !Settled(rules, w, allowAdd) && Reports(more, rules, w)
    ensures Listed(ks + [|wishes|], changes + [more], rules, wishes + [w], allowAdd)
  {
    hide Reports, Settled;
    var longer, all, n := wishes + [w], changes + [more], ks + [|wishes|];
    assert longer[|wishes|] == w && forall k :: 0 <= k < |wishes| ==> longer[k] == wishes[k];
    forall k: nat ensures k in n <==> k < |longer| && !Settled(rules, longer[k], allowAdd) {
      InLonger(ks, |wishes|, k);
    }
    forall i | 0 <= i < |n| ensures n[i] < |longer| && Reports(all[i], rules, longer[n[i]]) {
      if i < |ks| { assert n[i] == ks[i] && all[i] == changes[i]; }
    }
  }

  /** The reported changes say, for each wish that is not settled, what is replaced and by what, or what is added. */
  lemma {:induction false} ChangesSay(rules: seq<Raw>, wishes: seq<Wish>, allowAdd: bool) returns (ks: seq<nat>)
    requires OwnPrefixes(wishes)
    ensures Listed(ks, Changes(rules, wishes, allowAdd), rules, wishes, allowAdd)
    decreases |wishes|
  {
    hide Listed, Reports, Settled, ChangeOf, Planned;
    if wishes == [] {
      ks := [];
      NoneListed(rules, allowAdd);
    } else {
      var init, w := wishes[..|wishes| - 1], wishes[|wishes| - 1];
      assert forall k :: 0 <= k < |init| ==> init[k] == wishes[k];
      ks := ChangesSay(rules, init, allowAdd);
      ChangeReports(rules, init, w, allowAdd);
      assert wishes == init + [w];
      var changes, change := Changes(rules, init, allowAdd), ChangeOf(Planned(rules, init, allowAdd), w, allowAdd);
      if Settled(rules, w, allowAdd) {
        assert changes + [] == changes;
        ListedSettled(ks, changes, rules, init, w, allowAdd);
      } else {
        assert change == [change[0]];
        ListedMore(ks, changes, change[0], rules, init, w, allowAdd);
        ks := ks + [|init|];
      }
    }
  }

  lemma NoneListed(rules: seq<Raw>, allowAdd: bool)
    ensures Listed([], [], rules, [], allowAdd)
  {
  }

  /** The wishes before this one leave its rule as it was. */
  lemma ChangeReports(rules: seq<Raw>, before: seq<Wish>, w: Wish, allowAdd: bool)
    requires forall k :: 0 <= k < |before| ==> before[k].prefix != w.prefix
    ensures var c := ChangeOf(Planned(rules, before, allowAdd), w, allowAdd);
            if Settled(rules, w, allowAdd) then c == [] else |c| == 1 && Reports(c[0], rules, w)
  {
    var mid, i := Planned(rules, before, allowAdd), FirstIndex(rules, w.prefix);
    PlanFindsTheSame(rules, before, allowAdd, w.prefix);
    PlanLeavesRule(rules, before, allowAdd, w.prefix);
    FirstOfIs(rules, w.prefix);
  }

  lemma {:induction false} PlanLeavesRule(rules: seq<Raw>, wishes: seq<Wish>, allowAdd: bool, other: string)
    requires forall k :: 0 <= k < |wishes| ==> wishes[k].prefix != other
    ensures var i := FirstIndex(rules, other);
            && |Planned(rules, wishes, allowAdd)| >= |rules|
            && (i < |rules| ==> Planned(rules, wishes, allowAdd)[i] == rules[i])
    decreases |wishes|
  {
    if wishes != [] {
      var init, w := wishes[..|wishes| - 1], wishes[|wishes| - 1];
      assert forall k :: 0 <= k < |init| ==> init[k] == wishes[k];
      PlanLeavesRule(rules, init, allowAdd, other);
      PlanFindsTheSame(rules, init, allowAdd, other);
      UpsertElsewhere(Planned(rules, init, allowAdd), w, allowAdd, other);
    }
  }

  // ---- deriving roles from rules --------------------------------------------------------------------

  /** `_default_roles_from_sp`, the tiers: the first able rule's target, or the default. */
  function Derived(rules: seq<Raw>, tiers: seq<string>, fallback: string): seq<Wish> {
    if tiers == [] then []
    else
      var tier := tiers[|tiers| - 1];
      Derived(rules, tiers[..|tiers| - 1], fallback) + [Wish(tier, Strip(TierRoute(rules, tier).GetOr(fallback)))]
  }

  lemma {:induction false} DerivedAt(rules: seq<Raw>, tiers: seq<string>, fallback: string)
    ensures |Derived(rules, tiers, fallback)| == |tiers|
    ensures forall k :: 0 <= k < |tiers| ==>
              Derived(rules, tiers, fallback)[k] == Wish(tiers[k], Strip(TierRoute(rules, tiers[k]).GetOr(fallback)))
  {
    if tiers != [] {
      var init := tiers[..|tiers| - 1];
      DerivedAt(rules, init, fallback);
      assert forall k :: 0 <= k < |init| ==> init[k] == tiers[k];
    }
  }

  ghost predicate Apart(tiers: seq<string>) {
    forall i, j :: 0 <= i < j < |tiers| ==> !Comparable(tiers[i], tiers[j])
  }

  const TIERS := ["claude-opus", "claude-sonnet", "claude-haiku", "claude-fable"]

  lemma TiersAreApart()
    ensures Apart(TIERS)
    ensures forall k :: 0 <= k < |TIERS| ==> TIERS[k] != ""
  {
    assert TIERS[0][7] == 'o' && TIERS[1][7] == 's' && TIERS[2][7] == 'h' && TIERS[3][7] == 'f';
  }

  /** A role table: one wish a tier, its target stripped, or none. */
  ghost predicate TableOf(wishes: seq<Wish>, tiers: seq<string>) {
    && |wishes| == |tiers|
    && forall k :: 0 <= k < |tiers| ==>
         wishes[k].prefix == tiers[k] && tiers[k] != "" && Strip(wishes[k].target) == wishes[k].target
  }

  lemma ApartAreOwn(wishes: seq<Wish>, tiers: seq<string>)
    requires |wishes| == |tiers| && Apart(tiers) && forall k :: 0 <= k < |tiers| ==> wishes[k].prefix == tiers[k]
    ensures OwnPrefixes(wishes)
  {
    forall i, j | 0 <= i < j < |wishes| ensures wishes[i].prefix != wishes[j].prefix {
      assert !Comparable(tiers[i], tiers[j]);
    }
  }

  /** Where the first rule is that is able to serve the tier or is the tier's own. */
  function FirstConcerned(rules: seq<Raw>, tier: string): nat {
    var i, j := FirstAble(rules, tier), FirstIndex(rules, tier);
    if i < j then i else j
  }

  /**
   * A tier whose derived role agrees with its rule once the table is written, said of the rules before.
   * With a target: the first rule concerned, if there is any, is the tier's own, or has a blank route, or
   * the target already. Without one: no rule is the tier's own, or what is derived is blank or its route.
   */
  predicate Agrees(rules: seq<Raw>, w: Wish, fallback: string) {
    var i, own := FirstConcerned(rules, w.prefix), FirstIndex(rules, w.prefix);
    if w.target != "" then
      i == own || Strip(Route(rules[i])) == "" || Strip(Route(rules[i])) == w.target
    else
      var derived := Strip(TierRoute(rules, w.prefix).GetOr(fallback));
      own == |rules| || derived == "" || rules[own].route == Some(derived)
  }

  /** What a written table leaves of one rule: itself, or its route set for the tier it is first of. */
  lemma WrittenRule(rules: seq<Raw>, wishes: seq<Wish>, tiers: seq<string>, k: nat, i: nat)
    requires Apart(tiers) && TableOf(wishes, tiers) && k < |tiers| && i < |Planned(rules, wishes, true)|
    ensures var after := Planned(rules, wishes, true);
            && |after| >= |rules|
            && (i < |rules| && (i != FirstIndex(rules, tiers[k]) || wishes[k].target == "") ==>
                  && (Able(after[i], tiers[k]) <==> Able(rules[i], tiers[k]))
                  && (Able(rules[i], tiers[k]) || i == FirstIndex(rules, tiers[k]) ==> after[i] == rules[i]))
            && (i >= |rules| && Able(after[i], tiers[k]) ==> Matches(after[i], tiers[k]) && wishes[k].target != "")
  {
    hide Planned, FirstIndex, Strip, Able;
    var after := Planned(rules, wishes, true);
    ApartAreOwn(wishes, tiers);
    PlanKeepsRules(rules, wishes, true);
    assert AsWished(rules, after, wishes, i);
    if i < |rules| && after[i] != rules[i] {
      var j :| 0 <= j < |wishes| && Addressed(rules, i, wishes[j])
               && after[i] == rules[i].(route := Some(wishes[j].target));
      assert Matches(rules[i], tiers[j]) && Matches(after[i], tiers[j]);
      if j != k { NotAbleForOthers(after[i], rules[i], tiers, j, k); }
    } else if i >= |rules| {
      var j :| 0 <= j < |wishes| && after[i] == Rule(Some(wishes[j].prefix), Some(wishes[j].target), "");
      if j != k { NotAbleForOthers(after[i], after[i], tiers, j, k); }
    }
  }

  lemma NotAbleForOthers(r: Raw, s: Raw, tiers: seq<string>, j: nat, k: nat)
    requires Apart(tiers) && j < |tiers| && k < |tiers| && j != k && Matches(r, tiers[j]) && Matches(s, tiers[j])
    ensures !Able(r, tiers[k]) && !Able(s, tiers[k]) && !Matches(r, tiers[k]) && !Matches(s, tiers[k])
  {
    assert !Comparable(tiers[j], tiers[k]) && !Comparable(tiers[k], tiers[j]) by {
      if j < k { assert !Comparable(tiers[j], tiers[k]); } else { assert !Comparable(tiers[k], tiers[j]); }
    }
  }

  lemma FirstAbleUnique(rules: seq<Raw>, tier: string, i: nat)
    requires i <= |rules| && (i < |rules| ==> Able(rules[i], tier)) && forall j :: 0 <= j < i ==> !Able(rules[j], tier)
    ensures FirstAble(rules, tier) == i
  {
  }

  /** The tier's own rule is where it was, or behind all rules. */
  lemma OwnAfter(rules: seq<Raw>, wishes: seq<Wish>, tiers: seq<string>, k: nat)
    requires Apart(tiers) && TableOf(wishes, tiers) && k < |tiers|
    ensures var after, own := Planned(rules, wishes, true), FirstIndex(rules, tiers[k]);
            && |after| >= |rules|
            && (own < |rules| ==> FirstIndex(after, tiers[k]) == own)
            && (own == |rules| ==> |rules| <= FirstIndex(after, tiers[k]))
            && (own == |rules| && wishes[k].target == "" ==> FirstIndex(after, tiers[k]) == |after|)
            && (wishes[k].target != "" ==>
                 FirstIndex(after, tiers[k]) < |after|
                 && after[FirstIndex(after, tiers[k])].route == Some(wishes[k].target))
  {
    hide Planned, Strip, Able;
    var after, own := Planned(rules, wishes, true), FirstIndex(rules, tiers[k]);
    ApartAreOwn(wishes, tiers);
    PlanKeepsRules(rules, wishes, true);
    PlanSettles(rules, wishes, true);
    assert Settled(after, wishes[k], true) && wishes[k].prefix == tiers[k];
    forall i | 0 <= i < |after| ensures Matches(after[i], tiers[k]) <==>
        if i < |rules| then Matches(rules[i], tiers[k]) else Matches(after[i], tiers[k]) && wishes[k].target != ""
    {
      assert AsWished(rules, after, wishes, i);
      if i >= |rules| {
        var j :| 0 <= j < |wishes| && wishes[j].target != ""
                 && after[i] == Rule(Some(wishes[j].prefix), Some(wishes[j].target), "");
        if j != k { NotAbleForOthers(after[i], after[i], tiers, j, k); }
      }
    }
    if own < |rules| {
      FirstIndexUnique(after, tiers[k], own);
    } else if wishes[k].target == "" {
      FirstIndexUnique(after, tiers[k], |after|);
    }
  }

  lemma WishedTierAgrees(rules: seq<Raw>, wishes: seq<Wish>, tiers: seq<string>, fallback: string, k: nat)
    requires Apart(tiers) && TableOf(wishes, tiers) && k < |tiers| && wishes[k].target != ""
    ensures var after := Planned(rules, wishes, true);
            Settled(after, Wish(tiers[k], Strip(TierRoute(after, tiers[k]).GetOr(fallback))), false)
            <==> Agrees(rules, wishes[k], fallback)
  {
    hide Planned, Strip;
    var tier, after := tiers[k], Planned(rules, wishes, true);
    OwnAfter(rules, wishes, tiers, k);
    var own, able := FirstIndex(after, tier), FirstAble(rules, tier);
    forall i | 0 <= i < own && i < |after|
      ensures Able(after[i], tier) <==> (i < |rules| && Able(rules[i], tier))
      ensures i < |rules| && Able(rules[i], tier) ==> after[i] == rules[i]
    {
      WrittenRule(rules, wishes, tiers, k, i);
    }
    FirstAbleUnique(after, tier, if able < FirstIndex(rules, tier) then able else own);
  }

  lemma UnwishedTierAgrees(rules: seq<Raw>, wishes: seq<Wish>, tiers: seq<string>, fallback: string, k: nat)
    requires Apart(tiers) && TableOf(wishes, tiers) && k < |tiers| && wishes[k].target == ""
    ensures var after := Planned(rules, wishes, true);
            Settled(after, Wish(tiers[k], Strip(TierRoute(after, tiers[k]).GetOr(fallback))), false)
            <==> Agrees(rules, wishes[k], fallback)
  {
    hide Planned, Strip;
    var tier, after := tiers[k], Planned(rules, wishes, true);
    OwnAfter(rules, wishes, tiers, k);
    var own, able := FirstIndex(rules, tier), FirstAble(rules, tier);
    forall i | 0 <= i < |after|
      ensures Able(after[i], tier) <==> (i < |rules| && Able(rules[i], tier))
      ensures i < |rules| && (Able(rules[i], tier) || i == own) ==> after[i] == rules[i]
    {
      WrittenRule(rules, wishes, tiers, k, i);
    }
    FirstAbleUnique(after, tier, if able < |rules| then able else |after|);
  }

  /**
   * A role table written back, and roles derived from the rules again: the derived roles plan nothing
   * exactly when every tier agrees.
   */
  lemma DerivedAgain(rules: seq<Raw>, wishes: seq<Wish>, tiers: seq<string>, fallback: string)
    requires Apart(tiers) && TableOf(wishes, tiers)
    ensures var after := Planned(rules, wishes, true);
            Changes(after, Derived(after, tiers, fallback), false) == [] <==>
            forall k :: 0 <= k < |wishes| ==> Agrees(rules, wishes[k], fallback)
  {
    hide Planned, Changes, Derived, Agrees, Settled, Strip, TierRoute;
    var after := Planned(rules, wishes, true);
    var derived := Derived(after, tiers, fallback);
    DerivedAt(after, tiers, fallback);
    ApartAreOwn(derived, tiers);
    NothingPlanned(after, derived, false);
    forall k | 0 <= k < |wishes| ensures Settled(after, derived[k], false) <==> Agrees(rules, wishes[k], fallback) {
      if wishes[k].target != "" {
        WishedTierAgrees(rules, wishes, tiers, fallback, k);
      } else {
        UnwishedTierAgrees(rules, wishes, tiers, fallback, k);
      }
    }
  }

  /** Rules that are a tier's own, or no tier's concern. */
  ghost predicate Tidy(rules: seq<Raw>, tiers: seq<string>) {
    forall i, k :: 0 <= i < |rules| && 0 <= k < |tiers| && Able(rules[i], tiers[k]) ==> Matches(rules[i], tiers[k])
  }

  /** Among such rules a full table, written back and derived again, plans nothing. */
  lemma DerivedAgainTidy(rules: seq<Raw>, wishes: seq<Wish>, tiers: seq<string>, fallback: string)
    requires Apart(tiers) && TableOf(wishes, tiers) && Tidy(rules, tiers)
    requires forall k :: 0 <= k < |wishes| ==> wishes[k].target != ""
    ensures var after := Planned(rules, wishes, true); Changes(after, Derived(after, tiers, fallback), false) == []
  {
    hide Planned, Changes, Derived, Strip;
    DerivedAgain(rules, wishes, tiers, fallback);
    forall k | 0 <= k < |wishes| ensures Agrees(rules, wishes[k], fallback) {
      var i := FirstAble(rules, tiers[k]);
      assert wishes[k].prefix == tiers[k];
      if i < |rules| { assert Matches(rules[i], tiers[k]); }
    }
  }

  /**
   * A broader rule in front of a tier's own is enough to make the derived roles plan a change, whether
   * the tier was given a target or left alone.
   */
  lemma BroadRuleChangesRoles(t: string, u: string)
    requires t != "" && u != "" && Strip(t) == t && Strip(u) == u && t != u
    ensures var broad := Rule(Some("claude"), Some(u), "");
            var after := Planned([broad], [Wish("claude-opus", t)], true);
            Changes(after, Derived(after, ["claude-opus"], ""), false) != []
    ensures var rules := [Rule(Some("claude"), Some(u), ""), Rule(Some("claude-opus"), Some(t), "")];
            var after := Planned(rules, [Wish("claude-opus", "")], true);
            Changes(after, Derived(after, ["claude-opus"], ""), false) != []
  {
    hide Planned, Changes, Derived;
    var tier := "claude-opus";
    var broad, own := Rule(Some("claude"), Some(u), ""), Rule(Some(tier), Some(t), "");
    assert "claude" <= tier && "claude" != tier;
    assert Able(broad, tier) && !Matches(broad, tier) && Matches(own, tier);
    DerivedAgain([broad], [Wish(tier, t)], [tier], "");
    FirstAbleUnique([broad], tier, 0);
    FirstIndexUnique([broad], tier, 1);
    assert !Agrees([broad], [Wish(tier, t)][0], "");
    DerivedAgain([broad, own], [Wish(tier, "")], [tier], "");
    FirstAbleUnique([broad, own], tier, 0);
    FirstIndexUnique([broad, own], tier, 1);
    assert !Agrees([broad, own], [Wish(tier, "")][0], "");
  }
}
