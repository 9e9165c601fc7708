/** Reading a configuration: every server normalised, every number coerced, one proxy role. */
module ConfigMerge {
  import opened Prelude
  import opened ByteLines
  import ConfigIds

  /** A value as found in the file. `Other` stands for lists and dictionaries. */
  datatype Value =
    | Missing | VNull | VBool(b: bool) | VInt(n: int)
    | VFraction(whole: int, zero: bool) | VStr(s: string) | Other(truthy: bool)

  /** `int(s)`, `str(v)` of what is neither string nor absent, and the absolute path of a directory. */
  datatype Lib = Lib(parse: string -> Option<int>, show: Value -> string, path: string -> string,
                     captureDir: string, capturePort: int)

  /** Paths are absolute after one expansion, and a directory that is named stays named. */
  ghost predicate Sound(l: Lib) {
    && (forall s :: l.path(l.path(s)) == l.path(s))
    && (forall s :: Strip(s) != "" ==> Strip(l.path(s)) != "")
    && Strip(l.captureDir) != "" && 1 <= l.capturePort <= 65535
  }

  function AsInt(l: Lib, v: Value): Option<int> {
    match v
    case VInt(n) => Some(n)
    case VFraction(whole, _) => Some(whole)
    case VBool(b) => Some(if b then 1 else 0)
    case VStr(s) => l.parse(s)
    case _ => None
  }

  predicate Truth(v: Value) {
    match v
    case VBool(b) => b
    case VInt(n) => n != 0
    case VFraction(_, zero) => !zero
    case VStr(s) => s != ""
    case Other(t) => t
    case _ => false
  }

  /** `str(v or "")` */
  function AsText(l: Lib, v: Value): string {
    if !Truth(v) then "" else if v.VStr? then v.s else l.show(v)
  }

  /** `_coerce_port` */
  function CoercePort(l: Lib, v: Value, fallback: int): int {
    match AsInt(l, v)
    case Some(n) => if 1 <= n <= 65535 then n else fallback
    case None => fallback
  }

  datatype RawForward = RawForward(localPort: Value, host: Value, remotePort: Value, enabled: Value)
  datatype RawMount = RawMount(name: Value, remotePath: Value, localDir: Value, auto: Value)

  /** None for what is no list; inside, None for what is no dictionary. */
  type RawList<T> = Option<seq<Option<T>>>

  datatype RawSsh = RawSsh(user: Value, host: Value, port: Value, auth: Value, key: Value, compression: Value)
  datatype RawNfs = RawNfs(enabled: Value, port: Value, squash: Value, mounts: RawList<RawMount>)
  datatype RawServer = RawServer(
    id: Value, name: Value, ssh: RawSsh, forwards: RawList<RawForward>, autostart: Value, nfs: RawNfs)

  datatype Forward = Forward(localPort: int, host: string, remotePort: int, enabled: bool)
  datatype Mount = Mount(name: string, remotePath: string, localDir: string, auto: bool)
  datatype Ssh = Ssh(user: string, host: string, port: int, auth: string, key: string, compression: bool)
  datatype Nfs = Nfs(enabled: bool, port: int, squash: bool, mounts: seq<Mount>)
  datatype Server = Server(id: string, name: string, ssh: Ssh, forwards: seq<Forward>, autostart: bool, nfs: Nfs)

  function NormalizeForward(l: Lib, r: RawForward): Forward {
    var host := Strip(AsText(l, r.host));
    Forward(CoercePort(l, r.localPort, 0), if host == "" then "127.0.0.1" else host,
            CoercePort(l, r.remotePort, 0), r.enabled != VBool(false))
  }

  function NormalizeMount(l: Lib, r: RawMount): Mount {
    Mount(Strip(AsText(l, r.name)), Strip(AsText(l, r.remotePath)), Strip(AsText(l, r.localDir)), r.auto == VBool(true))
  }

  function Forwards(l: Lib, rows: seq<Option<RawForward>>): seq<Forward> {
    if rows == [] then []
    else
      var before := Forwards(l, rows[..|rows| - 1]);
      match rows[|rows| - 1]
      case Some(r) => before + [NormalizeForward(l, r)]
      case None => before
  }

  function Mounts(l: Lib, rows: seq<Option<RawMount>>): seq<Mount> {
    if rows == [] then []
    else
      var before := Mounts(l, rows[..|rows| - 1]);
      match rows[|rows| - 1]
      case Some(r) => before + [NormalizeMount(l, r)]
      case None => before
  }

  function NormalizeSsh(l: Lib, r: RawSsh): Ssh {
    Ssh(Strip(AsText(l, r.user)), Strip(AsText(l, r.host)), CoercePort(l, r.port, 22),
        if r.auth == VStr("password") then "password" else "key",
        Strip(AsText(l, r.key)), r.compression != VBool(false))
  }

  function NormalizeNfs(l: Lib, r: RawNfs): Nfs {
    Nfs(r.enabled == VBool(true), CoercePort(l, r.port, 12049), r.squash == VBool(true), Mounts(l, r.mounts.GetOr([])))
  }

  /** `_normalize_server`; the id is not stripped. */
  function NormalizeServer(l: Lib, r: RawServer): Server {
    Server(AsText(l, r.id), Strip(AsText(l, r.name)), NormalizeSsh(l, r.ssh),
           Forwards(l, r.forwards.GetOr([])), r.autostart == VBool(true), NormalizeNfs(l, r.nfs))
  }

  // ---- what was normalised, as it is found when read again --------------------------------------------

  function WriteForwards(fs: seq<Forward>): seq<Option<RawForward>> {
    if fs == [] then []
    else
      var f := fs[|fs| - 1];
      WriteForwards(fs[..|fs| - 1]) +
      [Some(RawForward(VInt(f.localPort), VStr(f.host), VInt(f.remotePort), VBool(f.enabled)))]
  }

  function WriteMounts(ms: seq<Mount>): seq<Option<RawMount>> {
    if ms == [] then []
    else
      var m := ms[|ms| - 1];
      WriteMounts(ms[..|ms| - 1]) + [Some(RawMount(VStr(m.name), VStr(m.remotePath), VStr(m.localDir), VBool(m.auto)))]
  }

  function WriteSsh(s: Ssh): RawSsh {
    RawSsh(VStr(s.user), VStr(s.host), VInt(s.port), VStr(s.auth), VStr(s.key), VBool(s.compression))
  }

  function WriteServer(s: Server): RawServer {
    RawServer(VStr(s.id), VStr(s.name), WriteSsh(s.ssh), Some(WriteForwards(s.forwards)), VBool(s.autostart),
              RawNfs(VBool(s.nfs.enabled), VInt(s.nfs.port), VBool(s.nfs.squash), Some(WriteMounts(s.nfs.mounts))))
  }

  lemma ForwardTwice(l: Lib, r: RawForward)
    ensures var f := NormalizeForward(l, r);
            NormalizeForward(l, RawForward(VInt(f.localPort), VStr(f.host), VInt(f.remotePort), VBool(f.enabled))) == f
  {
    hide Strip;
    StripTwice(AsText(l, r.host));
    LoopbackIsClean();
  }

  lemma LoopbackIsClean()
    ensures Strip("127.0.0.1") == "127.0.0.1"
  {
    CleanStays("127.0.0.1");
  }

  lemma MountTwice(l: Lib, r: RawMount)
    ensures var m := NormalizeMount(l, r);
            NormalizeMount(l, RawMount(VStr(m.name), VStr(m.remotePath), VStr(m.localDir), VBool(m.auto))) == m
  {
    hide Strip;
    StripTwice(AsText(l, r.name));
    StripTwice(AsText(l, r.remotePath));
    StripTwice(AsText(l, r.localDir));
  }

  lemma ForwardsSnoc(l: Lib, rows: seq<Option<RawForward>>, r: RawForward)
    ensures Forwards(l, rows + [Some(r)]) == Forwards(l, rows) + [NormalizeForward(l, r)]
  {
    assert (rows + [Some(r)])[..|rows|] == rows;
  }

  lemma MountsSnoc(l: Lib, rows: seq<Option<RawMount>>, r: RawMount)
    ensures Mounts(l, rows + [Some(r)]) == Mounts(l, rows) + [NormalizeMount(l, r)]
  {
    assert (rows + [Some(r)])[..|rows|] == rows;
  }

  lemma {:induction false} ForwardsTwice(l: Lib, rows: seq<Option<RawForward>>)
    ensures Forwards(l, WriteForwards(Forwards(l, rows))) == Forwards(l, rows)
    decreases |rows|
  {
    hide NormalizeForward;
    if rows != [] {
      var init, last := rows[..|rows| - 1], rows[|rows| - 1];
      ForwardsTwice(l, init);
      if last.Some? {
        var f := NormalizeForward(l, last.value);
        var fs := Forwards(l, init);
        assert (fs + [f])[..|fs|] == fs;
        ForwardsSnoc(l, WriteForwards(fs),
                     RawForward(VInt(f.localPort), VStr(f.host), VInt(f.remotePort), VBool(f.enabled)));
        ForwardTwice(l, last.value);
      }
    }
  }

  lemma {:induction false} MountsTwice(l: Lib, rows: seq<Option<RawMount>>)
    ensures Mounts(l, WriteMounts(Mounts(l, rows))) == Mounts(l, rows)
    decreases |rows|
  {
    hide NormalizeMount;
    if rows != [] {
      var init, last := rows[..|rows| - 1], rows[|rows| - 1];
      MountsTwice(l, init);
      if last.Some? {
        var m := NormalizeMount(l, last.value);
        var ms := Mounts(l, init);
        assert (ms + [m])[..|ms|] == ms;
        MountsSnoc(l, WriteMounts(ms), RawMount(VStr(m.name), VStr(m.remotePath), VStr(m.localDir), VBool(m.auto)));
        MountTwice(l, last.value);
      }
    }
  }

  /** A normalised server, written and read, is itself. */
  lemma ServerTwice(l: Lib, r: RawServer)
    ensures NormalizeServer(l, WriteServer(NormalizeServer(l, r))) == NormalizeServer(l, r)
  {
    hide Strip, Forwards, Mounts, WriteForwards, WriteMounts;
    ForwardsTwice(l, r.forwards.GetOr([]));
    MountsTwice(l, r.nfs.mounts.GetOr([]));
    StripTwice(AsText(l, r.name));
    StripTwice(AsText(l, r.ssh.user));
    StripTwice(AsText(l, r.ssh.host));
    StripTwice(AsText(l, r.ssh.key));
  }

  // ---- the whole configuration --------------------------------------------------------------------------

  /** The file. `listen` is the old "host:port", parsed: None if it is absent or does not parse. */
  datatype Raw = Raw(
    listen: Option<int>, socks: Value, http: Value, capturePort: Value, configPort: Value, retention: Value,
    role: Value, sleep: Value, login: Value, captureDir: Value, servers: seq<RawServer>)

  datatype Merged = Merged(
    socks: int, http: int, capturePort: int, configPort: int, retention: int,
    role: string, sleep: bool, login: bool, captureDir: string, servers: seq<Server>)

  function Servers(l: Lib, rows: seq<RawServer>): seq<Server> {
    if rows == [] then [] else Servers(l, rows[..|rows| - 1]) + [NormalizeServer(l, rows[|rows| - 1])]
  }

  function Ids(servers: seq<Server>): seq<string> { seq(|servers|, i requires 0 <= i < |servers| => servers[i].id) }

  /** The number under a key, or its default when it is missing, no number, or no port. */
  function PortOf(l: Lib, v: Value, default: int): int {
    match AsInt(l, if v == Missing then VInt(default) else v)
    case Some(n) => if 1 <= n <= 65535 then n else default
    case None => default
  }

  function RetentionOf(l: Lib, v: Value): int {
    match AsInt(l, if v == Missing then VInt(7) else v)
    case Some(n) => if n < 0 then 0 else n
    case None => 7
  }

  function RoleOf(v: Value, servers: seq<Server>): string {
    if servers == [] then "" else servers[ConfigIds.RoleIndex(Ids(servers), if v.VStr? then v.s else "")].id
  }

  function DirOf(l: Lib, v: Value): string {
    l.path(if v.VStr? && Strip(v.s) != "" then v.s else l.captureDir)
  }

  function Merge(l: Lib, r: Raw): Merged {
    var servers := Servers(l, r.servers);
    Merged(PortOf(l, r.socks, 1080),
           PortOf(l, if r.http == Missing && r.listen.Some? then VInt(r.listen.value) else r.http, 8888),
           PortOf(l, r.capturePort, l.capturePort), PortOf(l, r.configPort, 9528), RetentionOf(l, r.retention),
           RoleOf(r.role, servers), r.sleep == VBool(true), r.login == VBool(true), DirOf(l, r.captureDir), servers)
  }

  function WriteServers(ss: seq<Server>): seq<RawServer> {
    if ss == [] then [] else WriteServers(ss[..|ss| - 1]) + [WriteServer(ss[|ss| - 1])]
  }

  function Write(m: Merged): Raw {
    Raw(None, VInt(m.socks), VInt(m.http), VInt(m.capturePort), VInt(m.configPort), VInt(m.retention),
        VStr(m.role), VBool(m.sleep), VBool(m.login), VStr(m.captureDir), WriteServers(m.servers))
  }

  /** `merge_config`, key by key over a copy of the defaults. */
  method MergeConfig(l: Lib, r: Raw) returns (m: Merged)
    ensures m == Merge(l, r)
  {
    hide Servers, Strip, PortOf, RetentionOf, Ids, ConfigIds.RoleIndex;
    m := Merged(1080, 8888, l.capturePort, 9528, 7, "", false, false, l.captureDir, []);
    var http := r.http;
    if http == Missing && r.listen.Some? {
      http := VInt(r.listen.value);
    }
    var servers := MergeServers(l, r.servers);
    m := m.(servers := servers);
    var ports := MergePorts(l, [(r.socks, 1080), (r.capturePort, l.capturePort), (r.configPort, 9528), (http, 8888)]);
    m := m.(socks := ports[0], capturePort := ports[1], configPort := ports[2], http := ports[3]);
    var days := MergeRetention(l, r.retention);
    m := m.(retention := days);
    var wanted := if r.role.VStr? then r.role.s else "";
    if servers != [] {
      var k := FindRole(servers, wanted);
      m := m.(role := servers[k].id);
    }
    if r.sleep.VBool? {
      m := m.(sleep := r.sleep.b);
    }
    if r.login.VBool? {
      m := m.(login := r.login.b);
    }
    var dir := if r.captureDir.VStr? && Strip(r.captureDir.s) != "" then r.captureDir.s else l.captureDir;
    m := m.(captureDir := l.path(dir));
  }

  method MergeRetention(l: Lib, value: Value) returns (days: int)
    ensures days == RetentionOf(l, value)
  {
    days := 7;
    if value != Missing {
      var number := AsInt(l, value);
      if number.Some? {
        days := if number.value > 0 then number.value else 0;
      }
    }
  }

  /** The loop over the servers. */
  method MergeServers(l: Lib, rows: seq<RawServer>) returns (servers: seq<Server>)
    ensures servers == Servers(l, rows)
  {
    hide NormalizeServer;
    servers := [];
    for i := 0 to |rows|
      invariant servers == Servers(l, rows[..i])
    {
      assert rows[..i + 1][..i] == rows[..i];
      servers := servers + [NormalizeServer(l, rows[i])];
    }
    assert rows[..|rows|] == rows;
  }

  /** The loop over the four port keys. */
  method MergePorts(l: Lib, keys: seq<(Value, int)>) returns (ports: seq<int>)
    ensures |ports| == |keys| && forall j :: 0 <= j < |keys| ==> ports[j] == PortOf(l, keys[j].0, keys[j].1)
  {
    ports := [];
    for i := 0 to |keys|
      invariant |ports| == i && forall j :: 0 <= j < i ==> ports[j] == PortOf(l, keys[j].0, keys[j].1)
    {
      var (value, default) := keys[i];
      var n := default;
      if value != Missing {
        var number := AsInt(l, value);
        if number.Some? && 1 <= number.value <= 65535 {
          n := number.value;
        }
      }
      ports := ports + [n];
    }
  }

  /** `proxy_server`: the first with the id, else the first. */
  method FindRole(servers: seq<Server>, role: string) returns (k: nat)
    requires servers != []
    ensures k < |servers| && k == ConfigIds.RoleIndex(Ids(servers), role)
  {
    ghost var ids := Ids(servers);
    if role != "" {
      for i := 0 to |servers|
        invariant forall j :: 0 <= j < i ==> ids[j] != role
      {
        if servers[i].id == role {
          assert ids[i] == role;
          return i;
        }
      }
    }
    return 0;
  }

  lemma WriteServersSnoc(l: Lib, rows: seq<RawServer>, r: RawServer)
    ensures Servers(l, rows + [r]) == Servers(l, rows) + [NormalizeServer(l, r)]
  {
    assert (rows + [r])[..|rows|] == rows;
  }

  lemma {:induction false} ServersTwice(l: Lib, rows: seq<RawServer>)
    ensures Servers(l, WriteServers(Servers(l, rows))) == Servers(l, rows)
    decreases |rows|
  {
    hide NormalizeServer, WriteServer;
    if rows != [] {
      var init, last := rows[..|rows| - 1], rows[|rows| - 1];
      ServersTwice(l, init);
      var s := NormalizeServer(l, last);
      var ss := Servers(l, init);
      assert (ss + [s])[..|ss|] == ss;
      WriteServersSnoc(l, WriteServers(ss), WriteServer(s));
      ServerTwice(l, last);
    }
  }

  /** The role a merge writes is the id of a server it keeps, and asking for it finds that server again. */
  lemma RoleExists(l: Lib, r: Raw)
    requires r.servers != []
    ensures var m := Merge(l, r);
            var ids := Ids(m.servers);
            && |m.servers| == |r.servers|
            && m.role in ids
            && ConfigIds.RoleIndex(ids, m.role) < |ids| && ids[ConfigIds.RoleIndex(ids, m.role)] == m.role
            && RoleOf(VStr(m.role), m.servers) == m.role
  {
    hide NormalizeServer;
    ServersLength(l, r.servers);
    var ss := Servers(l, r.servers);
    var ids := Ids(ss);
    var k := ConfigIds.RoleIndex(ids, if r.role.VStr? then r.role.s else "");
    assert ids[k] == ss[k].id;
    var again := ConfigIds.RoleIndex(ids, ids[k]);
    assert ids[again] == ss[again].id;
  }

  lemma {:induction false} ServersLength(l: Lib, rows: seq<RawServer>)
    ensures |Servers(l, rows)| == |rows|
    decreases |rows|
  {
    hide NormalizeServer;
    if rows != [] { ServersLength(l, rows[..|rows| - 1]); }
  }

  /** Merging what was merged changes nothing. */
  lemma MergeTwice(l: Lib, r: Raw)
    requires Sound(l)
    ensures Merge(l, Write(Merge(l, r))) == Merge(l, r)
  {
    hide Servers, WriteServers, Strip, RoleOf;
    var m := Merge(l, r);
    ServersTwice(l, r.servers);
    RoleTwice(l, r);
    assert Strip(m.captureDir) != "";
  }

  lemma RoleTwice(l: Lib, r: Raw)
    ensures RoleOf(VStr(Merge(l, r).role), Merge(l, r).servers) == Merge(l, r).role
  {
    hide NormalizeServer;
    if r.servers != [] { RoleExists(l, r); }
  }
}
