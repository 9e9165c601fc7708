/** Stable server ids, and the migration of tunnels to servers with its proxy role. */
module ConfigIds {

  datatype Ssh = Ssh(user: string, host: string, port: int, auth: string, key: string, compression: bool)
  datatype Server = Server(id: string, name: string, ssh: Ssh)

  /** How an identity is written, and the id derived from it; both are left open. */
  datatype Naming = Naming(identity: Ssh -> string, stable: Ssh -> string)

  ghost predicate Names(n: Naming) { forall s :: n.stable(s) != "" }

  /** Whether an earlier row has this identity. */
  predicate SeenBefore(rows: seq<Server>, k: nat, n: Naming)
    requires k < |rows|
  {
    exists j :: 0 <= j < k && n.identity(rows[j].ssh) == n.identity(rows[k].ssh)
  }

  /** The id a row is to have: its own, or the derived one, marked when the identity came before. */
  function Intended(rows: seq<Server>, k: nat, n: Naming): string
    requires k < |rows|
  {
    if rows[k].id != "" then rows[k].id
    else n.stable(rows[k].ssh) + (if SeenBefore(rows, k, n) then "#2" else "")
  }

  ghost predicate Clashes(rows: seq<Server>, k: nat, n: Naming)
    requires k < |rows|
  {
    exists j :: 0 <= j < k && Intended(rows, j, n) == Intended(rows, k, n)
  }

  /** Rows before k carry their intended ids; the others are as they were. */
  ghost predicate AssignedUpTo(before: seq<Server>, after: seq<Server>, k: nat, n: Naming) {
    && |after| == |before|
    && forall j :: 0 <= j < |before| ==>
         after[j] == if j < k then before[j].(id := Intended(before, j, n)) else before[j]
  }

  function WithoutId(rows: seq<Server>): nat {
    if rows == [] then 0 else WithoutId(rows[..|rows| - 1]) + if rows[|rows| - 1].id == "" then 1 else 0
  }

  ghost function IdsUpTo(rows: seq<Server>, k: nat, n: Naming): set<string>
    requires k <= |rows|
  {
    if k == 0 then {} else IdsUpTo(rows, k - 1, n) + {Intended(rows, k - 1, n)}
  }

  ghost function IdentitiesUpTo(rows: seq<Server>, k: nat, n: Naming): set<string>
    requires k <= |rows|
  {
    if k == 0 then {} else IdentitiesUpTo(rows, k - 1, n) + {n.identity(rows[k - 1].ssh)}
  }

  lemma {:induction false} IdsUpToHave(rows: seq<Server>, k: nat, n: Naming, x: string)
    requires k <= |rows|
    ensures x in IdsUpTo(rows, k, n) <==> exists j :: 0 <= j < k && Intended(rows, j, n) == x
    ensures x in IdentitiesUpTo(rows, k, n) <==> exists j :: 0 <= j < k && n.identity(rows[j].ssh) == x
  {
    hide Intended;
    if k > 0 { IdsUpToHave(rows, k - 1, n, x); }
  }

  lemma SeenMeans(rows: seq<Server>, k: nat, n: Naming)
    requires k < |rows|
    ensures Intended(rows, k, n) in IdsUpTo(rows, k, n) <==> Clashes(rows, k, n)
    ensures n.identity(rows[k].ssh) in IdentitiesUpTo(rows, k, n) <==> SeenBefore(rows, k, n)
  {
    hide Intended;
    IdsUpToHave(rows, k, n, Intended(rows, k, n));
    IdsUpToHave(rows, k, n, n.identity(rows[k].ssh));
  }

  lemma IntendedIs(rows: seq<Server>, k: nat, n: Naming)
    requires k < |rows|
    ensures Intended(rows, k, n) ==
            if rows[k].id != "" then rows[k].id
            else n.stable(rows[k].ssh) + (if SeenBefore(rows, k, n) then "#2" else "")
  {
  }

  datatype Assigned = Assigned(migrated: nat) | DuplicateId(id: string)

  /**
   * `assign_stable_ids`, in place. It fails at the first row whose intended id was met before, and by
   * then that row and those before it have been given theirs.
   */
  method AssignStableIds(rows: array<Server>, n: Naming) returns (r: Assigned)
    modifies rows
    ensures r.Assigned? <==> forall k :: 0 <= k < rows.Length ==> !Clashes(old(rows[..]), k, n)
    ensures r.Assigned? ==>
            AssignedUpTo(old(rows[..]), rows[..], rows.Length, n)
            && r.migrated == WithoutId(old(rows[..]))
    ensures r.DuplicateId? ==> exists k :: 0 <= k < rows.Length && Clashes(old(rows[..]), k, n)
                                   && (forall j :: 0 <= j < k ==> !Clashes(old(rows[..]), j, n))
                                   && AssignedUpTo(old(rows[..]), rows[..], k + 1, n)
                                   && r.id == Intended(old(rows[..]), k, n)
  {
    hide Intended, Clashes, SeenBefore;
    ghost var was := rows[..];
    var seenIds: set<string>, seenIdentity: set<string>, migrated: nat := {}, {}, 0;
    var k := 0;
    while k < rows.Length
      invariant 0 <= k <= rows.Length && |was| == rows.Length
      invariant AssignedUpTo(was, rows[..], k, n)
      invariant migrated == WithoutId(was[..k])
      invariant seenIds == IdsUpTo(was, k, n) && seenIdentity == IdentitiesUpTo(was, k, n)
      invariant forall j :: 0 <= j < k ==> !Clashes(was, j, n)
    {
      var s := rows[k];
      assert s == was[k] && was[..k + 1][..k] == was[..k];
      var ident := n.identity(s.ssh);
      SeenMeans(was, k, n);
      var id := if s.id != "" then s.id else n.stable(s.ssh) + (if ident in seenIdentity then "#2" else "");
      assert id == Intended(was, k, n) by { IntendedIs(was, k, n); }
      rows[k] := s.(id := id);
      if id in seenIds {
        return DuplicateId(id);
      }
      seenIds, seenIdentity := seenIds + {id}, seenIdentity + {ident};
      if s.id == "" {
        migrated := migrated + 1;
      }
      k := k + 1;
    }
    assert was[..k] == was;
    return Assigned(migrated);
  }

  predicate DistinctIds(rows: seq<Server>) {
    forall i, j :: 0 <= i < j < |rows| ==> rows[i].id != rows[j].id
  }

  lemma {:induction false} NoneWithoutId(rows: seq<Server>)
    requires forall k :: 0 <= k < |rows| ==> rows[k].id != ""
    ensures WithoutId(rows) == 0
    decreases |rows|
  {
    if rows != [] { NoneWithoutId(rows[..|rows| - 1]); }
  }

  /**
   * After a success ids are there and distinct, given ones are kept; assigning again succeeds, counts
   * nothing and changes nothing.
   */
  lemma AssignmentSettles(before: seq<Server>, after: seq<Server>, n: Naming)
    requires Names(n) && AssignedUpTo(before, after, |before|, n)
    requires forall k :: 0 <= k < |before| ==> !Clashes(before, k, n)
    ensures DistinctIds(after) && forall k :: 0 <= k < |after| ==>
              after[k].id != "" && (before[k].id != "" ==> after[k] == before[k]) && after[k].ssh == before[k].ssh
    ensures forall k :: 0 <= k < |after| ==> !Clashes(after, k, n)
    ensures WithoutId(after) == 0
    ensures forall again :: AssignedUpTo(after, again, |after|, n) ==> again == after
  {
    forall i, j | 0 <= i < j < |after| ensures after[i].id != after[j].id {
      assert !Clashes(before, j, n);
      assert after[i].id == Intended(before, i, n) && after[j].id == Intended(before, j, n);
    }
    forall k | 0 <= k < |after| ensures after[k].id != "" {
      assert n.stable(before[k].ssh) != "";
    }
    NoneWithoutId(after);
  }

  /** A given id stays; the first row of an identity gets the derived id, and every later one the same one marked. */
  lemma IdsSay(rows: seq<Server>, k: nat, n: Naming)
    requires k < |rows|
    ensures rows[k].id != "" ==> Intended(rows, k, n) == rows[k].id
    ensures rows[k].id == "" && (forall j :: 0 <= j < k ==> n.identity(rows[j].ssh) != n.identity(rows[k].ssh)) ==>
              Intended(rows, k, n) == n.stable(rows[k].ssh)
    ensures forall j :: 0 <= j < k && rows[k].id == "" && n.identity(rows[j].ssh) == n.identity(rows[k].ssh) ==>
                          Intended(rows, k, n) == n.stable(rows[k].ssh) + "#2"
  {
    assert n.stable(rows[k].ssh) + "" == n.stable(rows[k].ssh);
  }

  /** Two rows of one identity get two ids; a third one never gets any. */
  lemma ThirdOfOneIdentityFails(rows: seq<Server>, a: nat, b: nat, c: nat, n: Naming)
    requires a < b < c < |rows| && rows[b].id == "" && rows[c].id == ""
    requires rows[b].ssh == rows[a].ssh && rows[c].ssh == rows[a].ssh
    ensures Clashes(rows, c, n)
  {
    assert SeenBefore(rows, b, n) && SeenBefore(rows, c, n);
    assert Intended(rows, b, n) == Intended(rows, c, n);
  }

  // ---- from tunnels to servers -----------------------------------------------------------------------

  datatype Tunnel = Tunnel(id: string, name: string, ssh: Ssh, password: string)

  function FirstWith(ids: seq<string>, id: string): (k: nat)
    ensures k <= |ids| && (k < |ids| <==> id in ids)
            && (k < |ids| ==> ids[k] == id)
            && forall j :: 0 <= j < k ==> ids[j] != id
  {
    if ids == [] || ids[0] == id then 0 else 1 + FirstWith(ids[1..], id)
  }

  /** The proxy of the old format: by id, else by index, else the first. */
  function OldRole(ids: seq<string>, id: string, index: int): nat {
    if id != "" && id in ids then FirstWith(ids, id) else if 0 <= index < |ids| then index else 0
  }

  /** The one role the migration writes. */
  function MigratedRole(ids: seq<string>, id: string, index: int): string {
    if id in ids then id else if 0 <= index < |ids| then ids[index] else if ids != [] then ids[0] else ""
  }

  /** `proxy_server`: by id, else the first. */
  function RoleIndex(ids: seq<string>, role: string): nat {
    if role != "" && role in ids then FirstWith(ids, role) else 0
  }

  function TunnelIds(tunnels: seq<Tunnel>): seq<string> {
    seq(|tunnels|, i requires 0 <= i < |tunnels| => tunnels[i].id)
  }

  function Passwords(tunnels: seq<Tunnel>): seq<(string, string)> {
    if tunnels == [] then []
    else
      var t := tunnels[|tunnels| - 1];
      var before := Passwords(tunnels[..|tunnels| - 1]);
      if t.password != "" then before + [(t.id, t.password)] else before
  }

  /** These pairs are, in order, the ids and passwords of the tunnels at these places. */
  ghost predicate FromAt(swept: seq<(string, string)>, tunnels: seq<Tunnel>, at: seq<nat>) {
    && |at| == |swept| && (forall i, j :: 0 <= i < j < |at| ==> at[i] < at[j])
    && forall k :: 0 <= k < |at| ==> at[k] < |tunnels| && swept[k] == (tunnels[at[k]].id, tunnels[at[k]].password)
  }

  lemma FromSnoc(swept: seq<(string, string)>, tunnels: seq<Tunnel>, at: seq<nat>, t: Tunnel)
    requires FromAt(swept, tunnels, at)
    ensures FromAt(swept, tunnels + [t], at)
    ensures FromAt(swept + [(t.id, t.password)], tunnels + [t], at + [|tunnels|])
  {
  }

  /** Swept are, in order, the non-empty passwords and nothing else, each with the id of its tunnel. */
  lemma {:induction false} SweptAre(tunnels: seq<Tunnel>) returns (at: seq<nat>)
    ensures FromAt(Passwords(tunnels), tunnels, at)
    ensures forall i: nat :: i in at <==> i < |tunnels| && tunnels[i].password != ""
    decreases |tunnels|
  {
    hide FromAt;
    if tunnels == [] {
      at := [];
      assert FromAt([], [], []) by { FromNothing(); }
    } else {
      var n: nat := |tunnels| - 1;
      var init := tunnels[..n];
      var before := SweptAre(init);
      FromSnoc(Passwords(init), init, before, tunnels[n]);
      assert tunnels == init + [tunnels[n]];
      at := if tunnels[n].password != "" then before + [n] else before;
      forall i: nat ensures i in at <==> i < |tunnels| && tunnels[i].password != "" {
        if i < n { assert init[i] == tunnels[i]; }
      }
    }
  }

  lemma FromNothing()
    ensures FromAt([], [], [])
  {
  }

  /** `_migrate_v1_to_v2`: what goes to the keychain is handed out in `swept`. */
  method Migrate(tunnels: seq<Tunnel>, currentId: string, currentIndex: int)
    returns (servers: seq<Server>, role: string, swept: seq<(string, string)>)
    ensures |servers| == |tunnels|
    ensures forall k :: 0 <= k < |tunnels| ==> servers[k] == Server(tunnels[k].id, tunnels[k].name, tunnels[k].ssh)
    ensures role == MigratedRole(TunnelIds(tunnels), currentId, currentIndex)
    ensures swept == Passwords(tunnels)
  {
    servers, swept := [], [];
    var known := false;
    for k := 0 to |tunnels|
      invariant |servers| == k
                && forall j :: 0 <= j < k ==> servers[j] == Server(tunnels[j].id, tunnels[j].name, tunnels[j].ssh)
      invariant swept == Passwords(tunnels[..k])
      invariant known <==> exists j :: 0 <= j < k && tunnels[j].id == currentId
    {
      var t := tunnels[k];
      assert tunnels[..k + 1][..k] == tunnels[..k];
      servers := servers + [Server(t.id, t.name, t.ssh)];
      if t.password != "" {
        swept := swept + [(t.id, t.password)];
      }
      known := known || t.id == currentId;
    }
    assert tunnels[..|tunnels|] == tunnels;
    ghost var ids := TunnelIds(tunnels);
    assert forall j :: 0 <= j < |tunnels| ==> ids[j] == tunnels[j].id;
    role := currentId;
    if !known {
      role :=
        if 0 <= currentIndex < |servers| then servers[currentIndex].id
        else if |servers| > 0 then servers[0].id
        else "";
    }
  }

  /** The role lands on the server it stood for. */
  ghost predicate RoleKept(ids: seq<string>, id: string, index: int) {
    RoleIndex(ids, MigratedRole(ids, id, index)) == OldRole(ids, id, index)
  }

  /**
   * Exactly then: the first server had the role; or it was held by id; or the server at the index has
   * an id that no earlier one has, and it is not the case that no id was given and some server has none.
   */
  lemma RoleKeptWhen(ids: seq<string>, id: string, index: int)
    requires ids != []
    ensures RoleKept(ids, id, index) <==>
            var i := OldRole(ids, id, index);
            || i == 0
            || (id != "" && id in ids)
            || (ids[i] != "" && ids[i] !in ids[..i] && !(id == "" && "" in ids))
  {
    var i := OldRole(ids, id, index);
    if ids[i] !in ids[..i] {
      assert forall j :: 0 <= j < i ==> ids[..i][j] == ids[j];
      assert FirstWith(ids, ids[i]) == i;
    } else {
      var j :| 0 <= j < i && ids[..i][j] == ids[i];
      assert ids[j] == ids[i];
    }
  }

  /** With ids present and distinct the role is always kept. */
  lemma DistinctIdsKeepRole(ids: seq<string>, id: string, index: int)
    requires ids != [] && forall i, j :: 0 <= i < j < |ids| ==> ids[i] != ids[j]
    requires forall k :: 0 <= k < |ids| ==> ids[k] != ""
    ensures RoleKept(ids, id, index)
  {
    RoleKeptWhen(ids, id, index);
    var i := OldRole(ids, id, index);
    assert forall j :: 0 <= j < i ==> ids[..i][j] == ids[j] != ids[i];
  }

  /**
   * Ids are assigned only after the migration: a file without ids keeps its role only if the first
   * server had it, whatever index it names and whatever ids are assigned then.
   */
  lemma NoIdsLoseRole(ids: seq<string>, id: string, index: int, later: seq<string>)
    requires ids != [] && (forall k :: 0 <= k < |ids| ==> ids[k] == "") && |later| == |ids|
    ensures RoleIndex(later, MigratedRole(ids, id, index)) == OldRole(ids, id, index) <==> index <= 0 || index >= |ids|
  {
    assert ids[0] == "";
  }
}
