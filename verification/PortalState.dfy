/**
 The state the portal keeps: the committed database tables, the two nftables
 address sets and the two tc class tables that SessionManager keeps in step
 with the session table.  Every change is an Effect, the smallest unit that
 either happens or does not: a database commit, or one nft or tc command.
 */
module PortalState {
  import opened Common

  type Octet = x: int | 0 <= x < 256

  /** A client address.  The nftables sets hold IPv4 addresses only. */
  datatype Ip = V4(a: Octet, b: Octet, c: Octet, d: Octet) | V6(text: string)

  type Mac = string
  type Connection = nat

  datatype Status = Active | Expired | Kicked

  datatype Session = Session(
    ip: Ip, mac: Option<Mac>, guest: Option<nat>, voucher: Option<nat>,
    connectedAt: int, expiresAt: int, upKbps: int,
    bytesUp: nat, bytesDown: nat, status: Status)

  datatype Guest = Guest(
    room: string, lastName: string, pmsId: string,
    checkIn: int, checkOut: int, maxDevices: int)

  datatype Voucher = Voucher(
    code: string, isData: bool, durationMinutes: Option<int>, dataLimitMb: Option<int>,
    expiresAt: Option<int>, usedCount: int, maxUses: int)

  /** The table rows are numbered; a row's number is its identity and never changes. */
  datatype State = State(
    now: int,
    sessions: seq<Session>,
    guests: seq<Guest>,
    vouchers: seq<Voucher>,
    lastSync: int,
    loaded: bool,               // the captive_portal table exists
    whitelist: set<Ip>,
    dnsBypass: set<Ip>,
    macBypass: set<Mac>,
    marked: set<Connection>,    // connections carrying ct mark 0x2
    wan: set<nat>,              // htb classes on the WAN interface
    ifb: set<nat>)              // htb classes on ifb0

  /** The class every unclassified packet falls into (htb default 999). */
  const DEFAULT_CLASS: nat := 999

  /** _ip_to_class_id: the minor number taken from the last two octets. */
  function ClassId(ip: Ip): (id: nat)
    requires ip.V4?
    ensures 0 <= id < 65536
  {
    ip.c * 256 + ip.d
  }

  /** One row change inside a database transaction. */
  datatype Write =
    | InsertSession(row: Session)
    | SetIp(id: nat, ip: Ip)
    | SetStatus(id: nat, status: Status)
    | SetBytes(id: nat, up: nat, down: nat)
    | AddGuest(guest: Guest)
    | UpdateGuest(id: nat, lastName: string, checkIn: int, checkOut: int)
    | SetUsed(id: nat, count: int)
    | SetLastSync(at: int)

  datatype Effect =
    | Commit(writes: seq<Write>)
    | AddWhitelist(ip: Ip) | DelWhitelist(ip: Ip)
    | AddDns(ip: Ip) | DelDns(ip: Ip)
    | AddWan(id: nat) | DelWan(id: nat) | ClearWan
    | AddIfb(id: nat) | DelIfb(id: nat) | ClearIfb
    | AddMac(mac: Mac) | DelMac(mac: Mac)
    | Mark(conn: Connection)
    | DropTable | LoadTable
    | SetClock(at: int)

  function ApplyWrite(s: State, w: Write): State {
    match w
    case InsertSession(row) => s.(sessions := s.sessions + [row])
    case SetIp(id, ip) =>
      if id < |s.sessions| then s.(sessions := s.sessions[id := s.sessions[id].(ip := ip)]) else s
    case SetStatus(id, status) =>
      if id < |s.sessions| then s.(sessions := s.sessions[id := s.sessions[id].(status := status)]) else s
    case SetBytes(id, up, down) =>
      if id < |s.sessions|
      then s.(sessions := s.sessions[id := s.sessions[id].(bytesUp := up, bytesDown := down)]) else s
    case AddGuest(g) => s.(guests := s.guests + [g])
    case UpdateGuest(id, lastName, checkIn, checkOut) =>
      if id < |s.guests|
      then s.(guests := s.guests[id := s.guests[id].(lastName := lastName, checkIn := checkIn, checkOut := checkOut)])
      else s
    case SetUsed(id, count) =>
      if id < |s.vouchers| then s.(vouchers := s.vouchers[id := s.vouchers[id].(usedCount := count)]) else s
    case SetLastSync(at) => s.(lastSync := at)
  }

  function ApplyWrites(s: State, ws: seq<Write>): State
    decreases |ws|
  {
    if ws == [] then s else ApplyWrites(ApplyWrite(s, ws[0]), ws[1..])
  }

  /** An nft add needs the table and an IPv4 address; a delete of nothing is ignored. */
  function Apply(s: State, e: Effect): State {
    match e
    case Commit(ws) => ApplyWrites(s, ws)
    case AddWhitelist(ip) => if s.loaded && ip.V4? then s.(whitelist := s.whitelist + {ip}) else s
    case DelWhitelist(ip) => s.(whitelist := s.whitelist - {ip})
    case AddDns(ip) => if s.loaded && ip.V4? then s.(dnsBypass := s.dnsBypass + {ip}) else s
    case DelDns(ip) => s.(dnsBypass := s.dnsBypass - {ip})
    case AddWan(id) => s.(wan := s.wan + {id})
    case DelWan(id) => s.(wan := s.wan - {id})
    case ClearWan => s.(wan := {})
    case AddIfb(id) => s.(ifb := s.ifb + {id})
    case DelIfb(id) => s.(ifb := s.ifb - {id})
    case ClearIfb => s.(ifb := {})
    case AddMac(mac) => if s.loaded then s.(macBypass := s.macBypass + {mac}) else s
    case DelMac(mac) => s.(macBypass := s.macBypass - {mac})
    case Mark(conn) => s.(marked := s.marked + {conn})
    case DropTable => s.(loaded := false, whitelist := {}, dnsBypass := {}, macBypass := {})
    case LoadTable => s.(loaded := true, whitelist := {}, dnsBypass := {}, macBypass := {})
    case SetClock(at) => s.(now := at)
  }

  function Replay(s: State, es: seq<Effect>): State
    decreases |es|
  {
    if es == [] then s else Replay(Apply(s, es[0]), es[1..])
  }

  lemma {:induction false} ReplayConcat(s: State, a: seq<Effect>, b: seq<Effect>)
    ensures Replay(s, a + b) == Replay(Replay(s, a), b)
    decreases |a|
  {
    if a == [] {
      assert a + b == b;
    } else {
      assert (a + b)[1..] == a[1..] + b;
      ReplayConcat(Apply(s, a[0]), a[1..], b);
    }
  }

  lemma {:induction false} ApplyWritesConcat(s: State, a: seq<Write>, b: seq<Write>)
    ensures ApplyWrites(s, a + b) == ApplyWrites(ApplyWrites(s, a), b)
    decreases |a|
  {
    if a == [] {
      assert a + b == b;
    } else {
      assert (a + b)[1..] == a[1..] + b;
      ApplyWritesConcat(ApplyWrite(s, a[0]), a[1..], b);
    }
  }
}
