/** The role table as environment variables, and read back: which settings survive the round trip. */
module RoleEnv {
  import opened Prelude
  import opened ByteLines

  datatype RoleKey = Opus | Sonnet | Fable | Haiku | SubagentRole | DefaultRole

  /** `model` as given, `ctx1m`, and a display name ("" for none). */
  datatype Role = Role(model: string, ctx1m: bool, name: string)

  /** The variable of a role, and the one of its display name. */
  datatype Var = ModelVar(role: RoleKey) | NameVar(role: RoleKey)

  const ROLES := [Opus, Sonnet, Fable, Haiku, SubagentRole, DefaultRole]
  const SUFFIX := "[1M]"

  predicate Named(k: RoleKey) { k in {Opus, Sonnet, Fable, Haiku} }

  predicate EndsWith(s: string, t: string) { |t| <= |s| && s[|s| - |t|..] == t }

  function AddSuffix(model: string, ctx1m: bool): string {
    if !ctx1m || model == "" || EndsWith(model, SUFFIX) then model else model + SUFFIX
  }

  type Roles = map<RoleKey, Role>
  type Env = map<Var, string>

  predicate Emits(roles: Roles, k: RoleKey) { k in roles && Strip(roles[k].model) != "" }

  function ModelValue(r: Role): string { AddSuffix(Strip(r.model), r.ctx1m) }
  function NameValue(r: Role): string { if Strip(r.name) != "" then Strip(r.name) else Strip(r.model) }

  /** What a list of roles puts into the environment. */
  function Emitted(roles: Roles, keys: seq<RoleKey>): Env {
    if keys == [] then map[]
    else
      var k := keys[|keys| - 1];
      var before := Emitted(roles, keys[..|keys| - 1]);
      if !Emits(roles, k) then before
      else if Named(k) then before[ModelVar(k) := ModelValue(roles[k])][NameVar(k) := NameValue(roles[k])]
      else before[ModelVar(k) := ModelValue(roles[k])]
  }

  /** A role as read from its variables. */
  function ReadRole(env: Env, k: RoleKey): Option<Role> {
    if ModelVar(k) !in env then None
    else
      var raw := Strip(env[ModelVar(k)]);
      var model := if EndsWith(raw, SUFFIX) then raw[..|raw| - |SUFFIX|] else raw;
      if model == "" then None
      else Some(Role(model, EndsWith(raw, SUFFIX),
                if Named(k) && NameVar(k) in env then Strip(env[NameVar(k)]) else ""))
  }

  function ReadRoles(env: Env, keys: seq<RoleKey>): Roles {
    if keys == [] then map[]
    else
      var k := keys[|keys| - 1];
      var before := ReadRoles(env, keys[..|keys| - 1]);
      if ReadRole(env, k).Some? then before[k := ReadRole(env, k).value] else before
  }

  /** `_roles_to_env` */
  method RolesToEnv(roles: Roles) returns (env: Env)
    ensures env == Emitted(roles, ROLES)
  {
    hide AddSuffix, Strip;
    env := map[];
    for i := 0 to |ROLES|
      invariant env == Emitted(roles, ROLES[..i])
    {
      var k := ROLES[i];
      assert ROLES[..i + 1][..i] == ROLES[..i];
      if k in roles {
        var model := Strip(roles[k].model);
        if model != "" {
          env := env[ModelVar(k) := AddSuffix(model, roles[k].ctx1m)];
          if Named(k) {
            var name := Strip(roles[k].name);
            env := env[NameVar(k) := if name != "" then name else model];
          }
        }
      }
    }
    assert ROLES[..|ROLES|] == ROLES;
  }

  /** `_env_to_roles` */
  method EnvToRoles(env: Env) returns (roles: Roles)
    ensures roles == ReadRoles(env, ROLES)
  {
    hide Strip;
    roles := map[];
    for i := 0 to |ROLES|
      invariant roles == ReadRoles(env, ROLES[..i])
    {
      var k := ROLES[i];
      assert ROLES[..i + 1][..i] == ROLES[..i];
      if ModelVar(k) in env {
        var model := Strip(env[ModelVar(k)]);
        var ctx1m := EndsWith(model, SUFFIX);
        if ctx1m {
          model := model[..|model| - |SUFFIX|];
        }
        if model != "" {
          var name := "";
          if Named(k) && NameVar(k) in env {
            name := Strip(env[NameVar(k)]);
          }
          roles := roles[k := Role(model, ctx1m, name)];
        }
      }
    }
    assert ROLES[..|ROLES|] == ROLES;
  }

  // ---- stripping ----------------------------------------------------------------------------------------

  lemma {:induction false} RStripShorter(s: string)
    requires s != "" && IsSpace(s[|s| - 1])
    ensures |RStrip(s)| < |s|
  {
    RStripClean(s[..|s| - 1]);
  }

  // ---- one role there and back ----------------------------------------------------------------------------

  /** What a model, written with the suffix, is without it. */
  function Bare(model: string): string { if EndsWith(model, SUFFIX) then model[..|model| - |SUFFIX|] else model }

  /**
   * The model reads back as it was written: it carries no suffix of its own, or what is left without
   * it is a name, does not end in a blank, and does not carry another one.
   */
  predicate ReadsBack(model: string) {
    var m := Strip(model);
    !EndsWith(m, SUFFIX) || (Bare(m) != "" && !IsSpace(Bare(m)[|Bare(m)| - 1]) && !EndsWith(Bare(m), SUFFIX))
  }

  lemma SuffixedIsClean(m: string)
    requires Clean(m) && m != ""
    ensures Clean(m + SUFFIX) && EndsWith(m + SUFFIX, SUFFIX) && Bare(m + SUFFIX) == m
  {
    var s := m + SUFFIX;
    assert s[|m|..] == SUFFIX && s[..|m|] == m;
    assert s[|s| - 1] == SUFFIX[3] == ']';
  }

  /** Reading a written model and writing it again gives the same value exactly when it reads back. */
  lemma ModelRoundTrip(r: Role, name: string)
    requires Strip(r.model) != ""
    ensures var v := ModelValue(r);
            var back := Role(Bare(v), EndsWith(v, SUFFIX), name);
            && Strip(v) == v
            && (Bare(v) != "" && Strip(Bare(v)) != "" && ModelValue(back) == v <==> ReadsBack(r.model))
  {
    var m := Strip(r.model);
    StripIsClean(r.model);
    if !EndsWith(m, SUFFIX) {
      if r.ctx1m {
        SuffixedIsClean(m);
        CleanStays(m + SUFFIX);
      }
      CleanStays(m);
    } else {
      CleanStays(m);
      SuffixCut(m);
      var b := Bare(m);
      if b != "" {
        if IsSpace(b[|b| - 1]) {
          CutLoses(m, b);
        } else {
          CleanStays(b);
          if EndsWith(b, SUFFIX) { assert |b| < |m|; }
        }
      }
    }
  }

  lemma SuffixCut(m: string)
    requires EndsWith(m, SUFFIX) && Clean(m)
    ensures m == Bare(m) + SUFFIX && (Bare(m) != "" ==> !IsSpace(Bare(m)[0]))
  {
    if Bare(m) != "" { assert Bare(m)[0] == m[0]; }
  }

  /** A blank before the suffix is stripped when the model is written again. */
  lemma CutLoses(m: string, b: string)
    requires b != "" && IsSpace(b[|b| - 1]) && !IsSpace(b[0]) && m == b + SUFFIX
    ensures ModelValue(Role(b, true, "")) != m
  {
    RStripShorter(b);
    assert Strip(b) == RStrip(b);
    assert |AddSuffix(Strip(b), true)| <= |Strip(b)| + |SUFFIX| < |m|;
  }

  lemma NameRoundTrip(r: Role)
    requires Strip(r.model) != ""
    ensures NameValue(r) != "" && Strip(NameValue(r)) == NameValue(r)
  {
    StripIsClean(r.name);
    StripIsClean(r.model);
    CleanStays(NameValue(r));
  }

  // ---- the whole table ----------------------------------------------------------------------------------------

  predicate Distinct(keys: seq<RoleKey>) { forall i, j :: 0 <= i < j < |keys| ==> keys[i] != keys[j] }

  lemma {:induction false} EmittedAt(roles: Roles, keys: seq<RoleKey>, x: RoleKey)
    requires Distinct(keys)
    ensures var env := Emitted(roles, keys);
            && (ModelVar(x) in env <==> x in keys && Emits(roles, x))
            && (NameVar(x) in env <==> x in keys && Emits(roles, x) && Named(x))
            && (x in keys && Emits(roles, x) ==>
                  && env[ModelVar(x)] == ModelValue(roles[x])
                  && (Named(x) ==> env[NameVar(x)] == NameValue(roles[x])))
    decreases |keys|
  {
    hide Emits, ModelValue, NameValue, Named;
    if keys != [] {
      var init, k := keys[..|keys| - 1], keys[|keys| - 1];
      EmittedAt(roles, init, x);
      assert keys == init + [k];
      assert k !in init;
    }
  }

  lemma {:induction false} ReadAt(env: Env, keys: seq<RoleKey>)
    ensures forall k :: k in ReadRoles(env, keys) <==> k in keys && ReadRole(env, k).Some?
    ensures forall k :: k in ReadRoles(env, keys) ==> ReadRoles(env, keys)[k] == ReadRole(env, k).value
    decreases |keys|
  {
    hide ReadRole;
    if keys != [] {
      var init, k := keys[..|keys| - 1], keys[|keys| - 1];
      ReadAt(env, init);
      assert keys == init + [k];
    }
  }

  lemma AllRoles()
    ensures Distinct(ROLES) && forall k: RoleKey :: k in ROLES
  {
    assert ROLES[0] == Opus && ROLES[1] == Sonnet && ROLES[2] == Fable && ROLES[3] == Haiku;
    assert ROLES[4] == SubagentRole && ROLES[5] == DefaultRole;
    forall k: RoleKey ensures k in ROLES {
      match k
      case Opus => assert ROLES[0] == k;
      case Sonnet => assert ROLES[1] == k;
      case Fable => assert ROLES[2] == k;
      case Haiku => assert ROLES[3] == k;
      case SubagentRole => assert ROLES[4] == k;
      case DefaultRole => assert ROLES[5] == k;
    }
  }

  ghost predicate WrittenAs(roles: Roles, env: Env, k: RoleKey) {
    && (ModelVar(k) in env <==> Emits(roles, k))
    && (NameVar(k) in env <==> Emits(roles, k) && Named(k))
    && (Emits(roles, k) ==>
          && env[ModelVar(k)] == ModelValue(roles[k])
          && (Named(k) ==> env[NameVar(k)] == NameValue(roles[k])))
  }

  lemma WrittenRole(roles: Roles, k: RoleKey)
    ensures WrittenAs(roles, Emitted(roles, ROLES), k)
  {
    hide Emitted, Emits, ModelValue, NameValue, Named;
    AllRoles();
    EmittedAt(roles, ROLES, k);
  }

  lemma TableHas(env: Env, k: RoleKey)
    ensures k in ReadRoles(env, ROLES) <==> ReadRole(env, k).Some?
    ensures k in ReadRoles(env, ROLES) ==> ReadRoles(env, ROLES)[k] == ReadRole(env, k).value
  {
    hide ReadRoles, ReadRole;
    AllRoles();
    ReadAt(env, ROLES);
  }

  /** What a written role reads as. */
  lemma ReadWritten(env: Env, r: Role, k: RoleKey)
    requires Strip(r.model) != "" && ModelVar(k) in env && env[ModelVar(k)] == ModelValue(r)
    requires (NameVar(k) in env <==> Named(k)) && (Named(k) ==> env[NameVar(k)] == NameValue(r))
    ensures var v := ModelValue(r);
            ReadRole(env, k) ==
            if Bare(v) == "" then None
            else Some(Role(Bare(v), EndsWith(v, SUFFIX), if Named(k) then NameValue(r) else ""))
  {
    NameRoundTrip(r);
    ModelRoundTrip(r, "");
    hide Strip, EndsWith, ModelValue, NameValue, Named;
  }

  /** One role of the table, written, read and written again. */
  lemma RoleRoundTrip(roles: Roles, env: Env, again: Roles, k: RoleKey)
    requires env == Emitted(roles, ROLES) && again == ReadRoles(env, ROLES) && Emits(roles, k)
    ensures ModelVar(k) in env
    ensures (&& Emits(again, k) && ModelValue(again[k]) == env[ModelVar(k)]
             && (Named(k) ==> NameVar(k) in env && NameValue(again[k]) == env[NameVar(k)]))
            <==> ReadsBack(roles[k].model)
  {
    hide Emitted, ReadRoles, ReadRole, Strip, EndsWith, ModelValue, ReadsBack, Named, Bare;
    WrittenRole(roles, k);
    TableHas(env, k);
    var r := roles[k];
    ReadWritten(env, r, k);
    NameRoundTrip(r);
    ModelRoundTrip(r, if Named(k) then NameValue(r) else "");
  }

  /** Reading the written table and writing it again is the identity exactly when every model reads back. */
  lemma TableRoundTrip(roles: Roles)
    ensures var env := Emitted(roles, ROLES);
            Emitted(ReadRoles(env, ROLES), ROLES) == env <==>
            forall k :: k in ROLES && Emits(roles, k) ==> ReadsBack(roles[k].model)
  {
    hide Emitted, ReadRoles, ModelValue, NameValue, ReadsBack, ReadRole, Strip;
    AllRoles();
    var env := Emitted(roles, ROLES);
    var again := ReadRoles(env, ROLES);
    var env2 := Emitted(again, ROLES);
    forall k ensures WrittenAs(roles, env, k) && WrittenAs(again, env2, k) {
      WrittenRole(roles, k);
      WrittenRole(again, k);
    }
    forall k | Emits(roles, k)
      ensures ReadsBack(roles[k].model) <==> SameAt(env, env2, k)
    {
      assert WrittenAs(roles, env, k) && WrittenAs(again, env2, k);
      RoleRoundTrip(roles, env, again, k);
    }
    forall k | Emits(again, k) ensures Emits(roles, k) { ReadOnlyWritten(roles, env, k); }
    if forall k :: Emits(roles, k) ==> SameAt(env, env2, k) {
      forall x | x in env ensures x in env2 && env2[x] == env[x] {
        assert x == ModelVar(x.role) || x == NameVar(x.role);
        assert WrittenAs(roles, env, x.role) && SameAt(env, env2, x.role);
      }
      forall x | x in env2 ensures x in env {
        assert x == ModelVar(x.role) || x == NameVar(x.role);
        assert WrittenAs(again, env2, x.role) && WrittenAs(roles, env, x.role);
      }
      assert env == env2;
    }
    if env == env2 {
      forall k | Emits(roles, k) ensures SameAt(env, env2, k) { assert WrittenAs(roles, env, k); }
    }
  }

  ghost predicate SameAt(env: Env, env2: Env, k: RoleKey) {
    && ModelVar(k) in env && ModelVar(k) in env2 && env2[ModelVar(k)] == env[ModelVar(k)]
    && (Named(k) ==> NameVar(k) in env && NameVar(k) in env2 && env2[NameVar(k)] == env[NameVar(k)])
  }

  lemma ReadOnlyWritten(roles: Roles, env: Env, k: RoleKey)
    requires env == Emitted(roles, ROLES) && k in ReadRoles(env, ROLES)
    ensures Emits(roles, k)
  {
    TableHas(env, k);
    WrittenRole(roles, k);
  }

  // ---- the two directions, variable by variable ---------------------------------------------------------------

  lemma SuffixSays(m: string)
    ensures EndsWith(m, SUFFIX) <==> exists b :: m == b + "[1M]"
  {
    if EndsWith(m, SUFFIX) { assert m == m[..|m| - 4] + "[1M]"; }
    if b :| m == b + "[1M]" { assert m[|m| - 4..] == "[1M]"; }
  }

  /**
   * A role with a model has a variable, and a tier has a second one; the model is stripped and carries
   * the suffix once where it is asked for, and the name is the role's own or the model.
   */
  lemma VariablesSay(roles: Roles, k: RoleKey) returns (model: string, name: string)
    ensures k in roles ==> Stripped(roles[k].model, model) && Stripped(roles[k].name, name)
    ensures var env := Emitted(roles, ROLES);
            && (ModelVar(k) in env <==> k in roles && model != "")
            && (NameVar(k) in env <==> k in roles && model != "" && k != SubagentRole && k != DefaultRole)
            && (ModelVar(k) in env ==>
                  env[ModelVar(k)] ==
                  if roles[k].ctx1m && !(exists m :: model == m + "[1M]") then model + "[1M]" else model)
            && (NameVar(k) in env ==> env[NameVar(k)] == if name != "" then name else model)
  {
    hide Emitted, Strip, Stripped, EndsWith;
    model, name := "", "";
    WrittenRole(roles, k);
    if k in roles {
      model, name := Strip(roles[k].model), Strip(roles[k].name);
      StripSays(roles[k].model);
      StripSays(roles[k].name);
      SuffixSays(model);
    }
  }

  /** A role is read where its variable holds more than blanks and the suffix; the suffix is the switch. */
  lemma RolesSay(env: Env, k: RoleKey) returns (value: string)
    ensures ModelVar(k) in env ==> Stripped(env[ModelVar(k)], value)
    ensures var roles := ReadRoles(env, ROLES);
            && (k in roles <==> ModelVar(k) in env && value != "" && value != "[1M]")
            && (k in roles ==>
                  && (if roles[k].ctx1m then value == roles[k].model + "[1M]"
                      else value == roles[k].model && !exists m :: value == m + "[1M]")
                  && (if k in {Opus, Sonnet, Fable, Haiku} && NameVar(k) in env
                      then Stripped(env[NameVar(k)], roles[k].name) else roles[k].name == ""))
  {
    hide ReadRoles, Strip, Stripped;
    value := "";
    TableHas(env, k);
    if ModelVar(k) in env {
      value := Strip(env[ModelVar(k)]);
      StripSays(env[ModelVar(k)]);
      SuffixSays(value);
      if EndsWith(value, SUFFIX) { assert value == value[..|value| - 4] + "[1M]"; }
    }
    if NameVar(k) in env { StripSays(env[NameVar(k)]); }
  }
}
