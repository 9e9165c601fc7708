/** What a configuration file means, field by field: as it stands where it is well formed, by default where not. */
module ConfigReads {
  import opened Prelude
  import opened ByteLines
  import opened ConfigMerge

  // ---- single values --------------------------------------------------------------------------------

  /** The integer a value is taken for: itself, the number it writes, or a fraction cut off; truth counts as 1 and 0. */
  ghost predicate Reads(l: Lib, v: Value, n: int) {
    || v == VInt(n) || (v.VStr? && l.parse(v.s) == Some(n)) || (v.VFraction? && v.whole == n)
    || (v == VBool(true) && n == 1) || (v == VBool(false) && n == 0)
  }

  ghost predicate NoNumber(l: Lib, v: Value) { forall n :: !Reads(l, v, n) }

  lemma IntSays(l: Lib, v: Value)
    ensures forall n :: AsInt(l, v) == Some(n) <==> Reads(l, v, n)
    ensures AsInt(l, v) == None <==> NoNumber(l, v)
  {
    forall n ensures AsInt(l, v) == Some(n) <==> Reads(l, v, n) {}
    if AsInt(l, v).Some? { assert Reads(l, v, AsInt(l, v).value); }
  }

  /** A port is the number the value is taken for if that is one, else the fallback. */
  lemma PortSays(l: Lib, v: Value, fallback: int)
    ensures forall n :: Reads(l, v, n) && 1 <= n <= 65535 ==> CoercePort(l, v, fallback) == n
    ensures (forall n :: Reads(l, v, n) ==> !(1 <= n <= 65535)) ==> CoercePort(l, v, fallback) == fallback
  {
    hide AsInt, Reads;
    IntSays(l, v);
  }

  // ---- a server as it stands ------------------------------------------------------------------------

  /** Text that is written without blanks around it. */
  predicate Tight(s: string) { s == "" || (!IsSpace(s[0]) && !IsSpace(s[|s| - 1])) }

  predicate Port(n: int) { 1 <= n <= 65535 }

  lemma TightText(l: Lib, s: string)
    requires Tight(s)
    ensures Strip(AsText(l, VStr(s))) == s
  {
    CleanStays(s);
  }

  ghost predicate ForwardRows(rows: seq<Option<RawForward>>, fs: seq<Forward>) {
    |rows| == |fs| &&
    forall k :: 0 <= k < |fs| ==>
      rows[k] == Some(RawForward(VInt(fs[k].localPort), VStr(fs[k].host), VInt(fs[k].remotePort), VBool(fs[k].enabled)))
  }

  ghost predicate MountRows(rows: seq<Option<RawMount>>, ms: seq<Mount>) {
    |rows| == |ms| &&
    forall k :: 0 <= k < |ms| ==>
      rows[k] == Some(RawMount(VStr(ms[k].name), VStr(ms[k].remotePath), VStr(ms[k].localDir), VBool(ms[k].auto)))
  }

  predicate TidyForward(f: Forward) { Port(f.localPort) && Port(f.remotePort) && f.host != "" && Tight(f.host) }

  predicate TidyMount(m: Mount) { Tight(m.name) && Tight(m.remotePath) && Tight(m.localDir) }

  ghost predicate TidyServer(s: Server) {
    && Tight(s.name) && Tight(s.ssh.user) && Tight(s.ssh.host) && Tight(s.ssh.key) && Port(s.ssh.port)
    && (s.ssh.auth == "key" || s.ssh.auth == "password") && Port(s.nfs.port)
    && (forall k :: 0 <= k < |s.forwards| ==> TidyForward(s.forwards[k]))
    && forall k :: 0 <= k < |s.nfs.mounts| ==> TidyMount(s.nfs.mounts[k])
  }

  lemma {:induction false} ForwardsAsTheyStand(l: Lib, rows: seq<Option<RawForward>>, fs: seq<Forward>)
    requires ForwardRows(rows, fs) && forall k :: 0 <= k < |fs| ==> TidyForward(fs[k])
    ensures Forwards(l, rows) == fs
    decreases |fs|
  {
    hide TidyForward, NormalizeForward;
    if fs != [] {
      var n := |fs| - 1;
      ForwardsAsTheyStand(l, rows[..n], fs[..n]);
      OneForward(l, fs[n]);
    }
  }

  lemma OneForward(l: Lib, f: Forward)
    requires TidyForward(f)
    ensures NormalizeForward(l, RawForward(VInt(f.localPort), VStr(f.host), VInt(f.remotePort), VBool(f.enabled))) == f
  {
    hide Tight, Strip;
    TightText(l, f.host);
  }

  lemma {:induction false} MountsAsTheyStand(l: Lib, rows: seq<Option<RawMount>>, ms: seq<Mount>)
    requires MountRows(rows, ms) && forall k :: 0 <= k < |ms| ==> TidyMount(ms[k])
    ensures Mounts(l, rows) == ms
    decreases |ms|
  {
    hide Tight;
    if ms != [] {
      var n := |ms| - 1;
      MountsAsTheyStand(l, rows[..n], ms[..n]);
      assert TidyMount(ms[n]);
      TightText(l, ms[n].name);
      TightText(l, ms[n].remotePath);
      TightText(l, ms[n].localDir);
    }
  }

  /** A well-formed server is read field by field as it stands. */
  lemma ServerAsItStands(l: Lib, s: Server, forwards: seq<Option<RawForward>>, mounts: seq<Option<RawMount>>)
    requires TidyServer(s) && ForwardRows(forwards, s.forwards) && MountRows(mounts, s.nfs.mounts)
    ensures NormalizeServer(l, RawServer(
              VStr(s.id), VStr(s.name),
              RawSsh(VStr(s.ssh.user), VStr(s.ssh.host), VInt(s.ssh.port), VStr(s.ssh.auth), VStr(s.ssh.key),
                     VBool(s.ssh.compression)),
              Some(forwards), VBool(s.autostart),
              RawNfs(VBool(s.nfs.enabled), VInt(s.nfs.port), VBool(s.nfs.squash), Some(mounts)))) == s
  {
    hide Strip, Tight, Forwards, Mounts;
    ForwardsAsTheyStand(l, forwards, s.forwards);
    MountsAsTheyStand(l, mounts, s.nfs.mounts);
    TightText(l, s.name);
    TightText(l, s.ssh.user);
    TightText(l, s.ssh.host);
    TightText(l, s.ssh.key);
  }

  // ---- and as it does not ---------------------------------------------------------------------------

  /** Nothing at all reads as a server without a name that is switched off, with the usual ports. */
  lemma EmptyServer(l: Lib, lists: RawList<RawForward>, mounts: RawList<RawMount>)
    requires lists == None && mounts == None
    ensures NormalizeServer(l, RawServer(
              Missing, Missing, RawSsh(Missing, Missing, Missing, Missing, Missing, Missing), lists, Missing,
              RawNfs(Missing, Missing, Missing, mounts))) ==
            Server("", "", Ssh("", "", 22, "key", "", true), [], false, Nfs(false, 12049, false, []))
  {
    CleanStays("");
  }

  /** Switches that are on unless the value is false, and those that are off unless it is true. */
  lemma SwitchesSay(l: Lib, r: RawServer, f: RawForward, m: RawMount)
    ensures var s := NormalizeServer(l, r);
            && (s.ssh.compression <==> r.ssh.compression != VBool(false))
            && (s.autostart <==> r.autostart == VBool(true))
            && (s.nfs.enabled <==> r.nfs.enabled == VBool(true)) && (s.nfs.squash <==> r.nfs.squash == VBool(true))
            && (s.ssh.auth == "password" <==> r.ssh.auth == VStr("password"))
            && s.ssh.auth in {"key", "password"}
    ensures NormalizeForward(l, f).enabled <==> f.enabled != VBool(false)
    ensures NormalizeMount(l, m).auto <==> m.auto == VBool(true)
    ensures f.host in {Missing, VNull, VStr("")} ==> NormalizeForward(l, f).host == "127.0.0.1"
  {
    CleanStays("");
  }

  /** Texts are read without the blanks around them, but an id as it stands; a blank host means this machine. */
  lemma TextsSay(l: Lib, r: RawServer, f: RawForward, m: RawMount)
    ensures var s := NormalizeServer(l, r);
            && (r.id.VStr? ==> s.id == r.id.s) && (r.name.VStr? ==> Stripped(r.name.s, s.name))
            && (r.ssh.user.VStr? ==> Stripped(r.ssh.user.s, s.ssh.user))
            && (r.ssh.host.VStr? ==> Stripped(r.ssh.host.s, s.ssh.host))
            && (r.ssh.key.VStr? ==> Stripped(r.ssh.key.s, s.ssh.key))
    ensures f.host.VStr? ==>
              if AllBlank(f.host.s) then NormalizeForward(l, f).host == "127.0.0.1"
              else Stripped(f.host.s, NormalizeForward(l, f).host)
    ensures var n := NormalizeMount(l, m);
            && (m.name.VStr? ==> Stripped(m.name.s, n.name))
            && (m.remotePath.VStr? ==> Stripped(m.remotePath.s, n.remotePath))
            && (m.localDir.VStr? ==> Stripped(m.localDir.s, n.localDir))
  {
    hide Strip, Stripped, AllBlank, Forwards, Mounts;
    forall v: Value | v.VStr? ensures Stripped(v.s, Strip(AsText(l, v))) {
      StripSays(v.s);
    }
    if f.host.VStr? { BlankSays(f.host.s); }
  }

  /** The rows that are dictionaries, all of them, in order. */
  ghost predicate RowsAt<A(!new)>(rows: seq<Option<A>>, size: nat, at: seq<nat>) {
    && |at| == size && (forall i, j :: 0 <= i < j < |at| ==> at[i] < at[j])
    && (forall i: nat :: i in at <==> i < |rows| && rows[i].Some?)
    && (forall k :: 0 <= k < |at| ==> at[k] < |rows| && rows[at[k]].Some?)
  }

  lemma RowsAtSnoc<A(!new)>(rows: seq<Option<A>>, size: nat, at: seq<nat>, row: Option<A>)
    requires RowsAt(rows, size, at)
    ensures row == None ==> RowsAt(rows + [row], size, at)
    ensures row.Some? ==> RowsAt(rows + [row], size + 1, at + [|rows|])
  {
    var longer := at + [|rows|];
    assert forall i: nat :: i in longer <==> i in at || i == |rows|;
  }

  ghost predicate ForwardsAt(l: Lib, fs: seq<Forward>, rows: seq<Option<RawForward>>, at: seq<nat>) {
    RowsAt(rows, |fs|, at) && forall k :: 0 <= k < |fs| ==> fs[k] == NormalizeForward(l, rows[at[k]].value)
  }

  ghost predicate MountsAt(l: Lib, ms: seq<Mount>, rows: seq<Option<RawMount>>, at: seq<nat>) {
    RowsAt(rows, |ms|, at) && forall k :: 0 <= k < |ms| ==> ms[k] == NormalizeMount(l, rows[at[k]].value)
  }

  /** Of a list of forwards the rows that are dictionaries are read, in order. */
  lemma {:induction false} ForwardsInOrder(l: Lib, rows: seq<Option<RawForward>>) returns (at: seq<nat>)
    ensures ForwardsAt(l, Forwards(l, rows), rows, at)
    decreases |rows|
  {
    at := [];
    if rows != [] {
      var n: nat := |rows| - 1;
      var init := rows[..n];
      var before := ForwardsInOrder(l, init);
      RowsAtSnoc(init, |Forwards(l, init)|, before, rows[n]);
      assert rows == init + [rows[n]];
      at := if rows[n].Some? then before + [n] else before;
    }
  }

  /** So it is with mounts. */
  lemma {:induction false} MountsInOrder(l: Lib, rows: seq<Option<RawMount>>) returns (at: seq<nat>)
    ensures MountsAt(l, Mounts(l, rows), rows, at)
    decreases |rows|
  {
    at := [];
    if rows != [] {
      var n: nat := |rows| - 1;
      var init := rows[..n];
      var before := MountsInOrder(l, init);
      RowsAtSnoc(init, |Mounts(l, init)|, before, rows[n]);
      assert rows == init + [rows[n]];
      at := if rows[n].Some? then before + [n] else before;
    }
  }

  // ---- the file ---------------------------------------------------------------------------------------

  /** The settings of a file whose numbers and switches are well formed are read as they stand. */
  lemma FileAsItStands(l: Lib, r: Raw, socks: int, http: int, capture: int, config: int, days: nat)
    requires Port(socks) && Port(http) && Port(capture) && Port(config)
    requires r.socks == VInt(socks) && r.http == VInt(http) && r.capturePort == VInt(capture)
    requires r.configPort == VInt(config) && r.retention == VInt(days) && r.sleep.VBool? && r.login.VBool?
    requires r.captureDir.VStr? && r.captureDir.s != "" && Tight(r.captureDir.s)
    ensures var m := Merge(l, r);
            && m.socks == socks && m.http == http && m.capturePort == capture && m.configPort == config
            && m.retention == days && m.sleep == r.sleep.b && m.login == r.login.b
            && m.captureDir == l.path(r.captureDir.s)
  {
    hide Servers, RoleOf;
    CleanStays(r.captureDir.s);
  }

  /** An empty file means the defaults. */
  lemma EmptyFile(l: Lib)
    requires Port(l.capturePort)
    ensures Merge(l, Raw(None, Missing, Missing, Missing, Missing, Missing, Missing, Missing, Missing, Missing, [])) ==
            Merged(1080, 8888, l.capturePort, 9528, 7, "", false, false, l.path(l.captureDir), [])
  {
  }

  /** A number out of range, or none, means the default; a negative retention means none. */
  lemma WrongNumbers(l: Lib, r: Raw)
    ensures var m := Merge(l, r);
            && (r.socks != Missing && (forall n :: Reads(l, r.socks, n) ==> !Port(n)) ==> m.socks == 1080)
            && (r.configPort != Missing && (forall n :: Reads(l, r.configPort, n) ==> !Port(n)) ==>
                  m.configPort == 9528)
            && (r.http != Missing && (forall n :: Reads(l, r.http, n) ==> !Port(n)) ==> m.http == 8888)
            && (r.retention != Missing && NoNumber(l, r.retention) ==> m.retention == 7)
            && (forall n :: r.retention != Missing && Reads(l, r.retention, n) ==>
                  m.retention == if n < 0 then 0 else n)
  {
    hide AsInt, Reads, Servers, RoleOf, DirOf;
    IntSays(l, r.socks);
    IntSays(l, r.configPort);
    IntSays(l, r.http);
    IntSays(l, r.retention);
  }

  /** The old listen address counts only where there is no port of its own. */
  lemma OldListenAddress(l: Lib, r: Raw, port: int)
    requires r.listen == Some(port) && Port(port)
    ensures r.http == Missing ==> Merge(l, r).http == port
    ensures forall n :: r.http == VInt(n) && Port(n) ==> Merge(l, r).http == n
  {
    hide Servers, RoleOf, DirOf;
  }

  /** Servers keep their number and order. */
  lemma {:induction false} ServersInOrder(l: Lib, rows: seq<RawServer>)
    ensures |Servers(l, rows)| == |rows|
    ensures forall k :: 0 <= k < |rows| ==> Servers(l, rows)[k] == NormalizeServer(l, rows[k])
    decreases |rows|
  {
    hide NormalizeServer;
    if rows != [] { ServersInOrder(l, rows[..|rows| - 1]); }
  }
}
