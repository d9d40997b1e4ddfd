/**
 Every operation as the ordered list of effects it has, and whether it ends by
 raising.  An operation that is killed half way has had a prefix of that list.
 */
module Operations {
  import opened Common
  import opened PortalState
  import opened Invariants
  import Firewall
  import TrafficControl

  /** Which of the kernel commands that may fail succeed this time. */
  datatype Env = Env(whitelistOk: bool, dnsOk: bool, wanOk: bool, ifbOk: bool)

  datatype Trace = Trace(effects: seq<Effect>, raised: bool)

  const NOTHING := Trace([], false)
  const REFUSED := Trace([], true)

  /** Carry on with b unless a raised. */
  function Then(a: Trace, b: Trace): Trace {
    if a.raised then a else Trace(a.effects + b.effects, b.raised)
  }

  // ---- nftables.py and tc.py ----

  /** create_session_rules: each add raises unless nft takes it. */
  function RulesTrace(s: State, ip: Ip, env: Env): Trace {
    if !(env.whitelistOk && s.loaded && ip.V4?) then REFUSED
    else if !env.dnsOk then Trace([AddWhitelist(ip)], true)
    else Trace([AddWhitelist(ip), AddDns(ip)], false)
  }

  /** remove_session_rules: deletes never raise. */
  function UnruleTrace(ip: Ip): Trace {
    Trace([DelWhitelist(ip), DelDns(ip)], false)
  }

  /** apply_bandwidth_limit: the class id is computed only if there is a rate to apply. */
  function ShapeTrace(ip: Ip, up: int, down: int, env: Env): Trace {
    if up == 0 && down == 0 then NOTHING
    else if !ip.V4? then REFUSED
    else Trace((if down > 0 && env.wanOk then [AddWan(ClassId(ip))] else [])
               + (if up > 0 && env.ifbOk then [AddIfb(ClassId(ip))] else []), false)
  }

  /** remove_bandwidth_limit: the class id is always computed, and an IPv6 address has none. */
  function UnshapeTrace(ip: Ip, up: int): Trace {
    if !ip.V4? then REFUSED
    else Trace([DelWan(ClassId(ip))] + (if up > 0 then [DelIfb(ClassId(ip))] else []), false)
  }

  // ---- session_manager.py ----

  datatype Request = Request(
    ip: Ip, mac: Option<Mac>, expiresAt: int, up: int, down: int,
    guest: Option<nat>, voucher: Option<nat>)

  predicate LiveWith(s: State, i: nat, mac: Mac) {
    Live(s, i) && s.sessions[i].mac == Some(mac)
  }

  /** The most recently connected live session of the device among the first n rows. */
  function Newest(s: State, mac: Mac, n: nat): (best: Option<nat>)
    requires n <= |s.sessions|
    ensures best.Some? ==> best.value < n && LiveWith(s, best.value, mac)
    ensures best.Some? ==> forall i: nat :: i < n && LiveWith(s, i, mac)
                             ==> s.sessions[i].connectedAt <= s.sessions[best.value].connectedAt
    ensures best.None? ==> forall i: nat :: i < n ==> !LiveWith(s, i, mac)
  {
    if n == 0 then None
    else
      var best := Newest(s, mac, n - 1);
      if LiveWith(s, n - 1, mac)
         && (best.None? || s.sessions[best.value].connectedAt < s.sessions[n - 1].connectedAt)
      then Some(n - 1) else best
  }

  function Existing(s: State, mac: Option<Mac>): Option<nat> {
    if mac.None? then None else Newest(s, mac.value, |s.sessions|)
  }

  function NewRow(s: State, q: Request): Session {
    Session(q.ip, q.mac, q.guest, q.voucher, s.now, q.expiresAt, q.up, 0, 0, Active)
  }

  /** create_session; `pending` is what the caller's transaction holds when it is called. */
  function CreateTrace(s: State, q: Request, pending: seq<Write>, env: Env): Trace {
    match Existing(s, q.mac)
    case None =>
      Then(Trace([Commit(pending + [InsertSession(NewRow(s, q))])], false),
           Then(RulesTrace(s, q.ip, env), ShapeTrace(q.ip, q.up, q.down, env)))
    case Some(i) =>
      var row := s.sessions[i];
      var open := Then(RulesTrace(s, q.ip, env), ShapeTrace(q.ip, row.upKbps, 0, env));
      if row.ip == q.ip then open
      else
        Then(Then(UnruleTrace(row.ip), UnshapeTrace(row.ip, row.upKbps)),
             Then(Trace([Commit(pending + [SetIp(i, q.ip)])], false), open))
  }

  /** expire_session */
  function ExpireTrace(s: State, id: nat, status: Status, pending: seq<Write>): Trace {
    if id >= |s.sessions| then NOTHING
    else
      var row := s.sessions[id];
      Then(Then(UnruleTrace(row.ip), UnshapeTrace(row.ip, row.upKbps)),
           Trace([Commit(pending + [SetStatus(id, status)])], false))
  }

  /** The queries the sweeps start from, all over active rows. */
  datatype Filter = Overdue | InRoom(room: string) | OfDevice(mac: Mac) | AnyActive

  predicate Selected(s: State, f: Filter, i: nat) {
    i < |s.sessions| && s.sessions[i].status == Active
    && match f
       case Overdue => s.sessions[i].expiresAt <= s.now
       case InRoom(room) =>
         s.sessions[i].guest.Some? && s.sessions[i].guest.value < |s.guests|
         && s.guests[s.sessions[i].guest.value].room == room
       case OfDevice(mac) => s.sessions[i].mac == Some(mac)
       case AnyActive => true
  }

  function Select(s: State, f: Filter, n: nat): (ids: seq<nat>)
    ensures forall i: nat :: i in ids <==> i < n && Selected(s, f, i)
    ensures forall j :: 0 <= j < |ids| ==> ids[j] < n
    ensures forall j, k :: 0 <= j < k < |ids| ==> ids[j] < ids[k]
  {
    if n == 0 then []
    else if Selected(s, f, n - 1) then Select(s, f, n - 1) + [n - 1]
    else Select(s, f, n - 1)
  }

  function Rows(s: State, f: Filter): seq<nat> {
    Select(s, f, |s.sessions|)
  }

  /** Expire the listed sessions one after the other, stopping where one raises. */
  function SweepTrace(s: State, ids: seq<nat>, status: Status): Trace
    decreases |ids|
  {
    if ids == [] then NOTHING
    else
      var first := ExpireTrace(s, ids[0], status, []);
      Then(first, SweepTrace(Replay(s, first.effects), ids[1..], status))
  }

  // ---- portal/router.py ----

  datatype GuestInfo = GuestInfo(pmsId: string, room: string, lastName: string, checkIn: int, checkOut: int)
  datatype Policy = Policy(durationMin: int, up: int, down: int)

  const MINUTE := 60
  const DAY := 86400

  predicate GuestMatches(g: Guest, info: GuestInfo) {
    if info.pmsId != "" then g.pmsId == info.pmsId else g.room == info.room
  }

  function MatchingGuests(guests: seq<Guest>, info: GuestInfo, n: nat): (ids: seq<nat>)
    requires n <= |guests|
    ensures forall i: nat :: i in ids <==> i < n && GuestMatches(guests[i], info)
    ensures forall j :: 0 <= j < |ids| ==> ids[j] < n
  {
    if n == 0 then []
    else if GuestMatches(guests[n - 1], info) then MatchingGuests(guests, info, n - 1) + [n - 1]
    else MatchingGuests(guests, info, n - 1)
  }

  /** The stay's end, or the policy's duration from now if that is shorter. */
  function RoomExpiry(s: State, info: GuestInfo, policy: Option<Policy>): (at: int)
    ensures at <= info.checkOut
    ensures policy.Some? && policy.value.durationMin > 0 ==> at <= s.now + policy.value.durationMin * MINUTE
    ensures at < info.checkOut ==>
              policy.Some? && policy.value.durationMin > 0 && at == s.now + policy.value.durationMin * MINUTE
  {
    if policy.Some? && policy.value.durationMin > 0
       && s.now + policy.value.durationMin * MINUTE < info.checkOut
    then s.now + policy.value.durationMin * MINUTE else info.checkOut
  }

  /**
   What auth_room asks create_session for, with the guest row its transaction holds:
   nothing if the guest is unverified, ambiguous, or at the device limit.
   */
  function RoomRequest(s: State, ip: Ip, arp: Option<Mac>, info: Option<GuestInfo>,
                       policy: Option<Policy>): Option<(Request, seq<Write>)> {
    if info.None? then None
    else
      var i := info.value;
      var found := MatchingGuests(s.guests, i, |s.guests|);
      if |found| > 1 then None
      else
        var isNew := found == [];
        var id := if isNew then |s.guests| else found[0];
        var limit := if isNew then 3 else s.guests[id].maxDevices;
        var pending :=
          if isNew then [AddGuest(Guest(i.room, i.lastName, i.pmsId, i.checkIn, i.checkOut, 3))]
          else [UpdateGuest(id, i.lastName, i.checkIn, i.checkOut)];
        if DevicesOf(s.sessions, id) >= limit then None
        else
          var up := if policy.Some? then policy.value.up else 0;
          var down := if policy.Some? then policy.value.down else 0;
          Some((Request(ip, arp, RoomExpiry(s, i, policy), up, down, Some(id), None), pending))
  }

  /** auth_room, from the answer of the guest verification on. */
  function RoomLoginTrace(s: State, ip: Ip, arp: Option<Mac>, info: Option<GuestInfo>,
                          policy: Option<Policy>, env: Env): Trace {
    match RoomRequest(s, ip, arp, info, policy)
    case None => REFUSED
    case Some((q, pending)) => CreateTrace(s, q, pending, env)
  }

  datatype VoucherError = InvalidCode | VoucherExpired | NoUsesRemaining

  /** The voucher with this code; codes are unique. */
  function FindVoucher(vouchers: seq<Voucher>, code: string, n: nat): (v: Option<nat>)
    requires n <= |vouchers|
    ensures v.Some? ==> v.value < n && vouchers[v.value].code == code
    ensures v.None? ==> forall i :: 0 <= i < n ==> vouchers[i].code != code
  {
    if n == 0 then None
    else if vouchers[n - 1].code == code then Some(n - 1)
    else FindVoucher(vouchers, code, n - 1)
  }

  predicate Overdate(s: State, v: Voucher) {
    v.expiresAt.Some? && v.expiresAt.value < s.now
  }

  /** validate_voucher */
  function Validate(s: State, code: string): (r: Result<nat, VoucherError>)
    ensures r.Success? ==> r.value < |s.vouchers| && s.vouchers[r.value].code == code
                           && !Overdate(s, s.vouchers[r.value]) && s.vouchers[r.value].usedCount < s.vouchers[r.value].maxUses
    ensures r == Failure(InvalidCode) <==> forall i :: 0 <= i < |s.vouchers| ==> s.vouchers[i].code != code
    ensures r == Failure(VoucherExpired) ==>
              exists i :: 0 <= i < |s.vouchers| && s.vouchers[i].code == code && Overdate(s, s.vouchers[i])
    ensures r == Failure(NoUsesRemaining) ==>
              exists i :: 0 <= i < |s.vouchers| && s.vouchers[i].code == code && !Overdate(s, s.vouchers[i])
                          && s.vouchers[i].usedCount >= s.vouchers[i].maxUses
  {
    match FindVoucher(s.vouchers, code, |s.vouchers|)
    case None => Failure(InvalidCode)
    case Some(v) =>
      if Overdate(s, s.vouchers[v]) then Failure(VoucherExpired)
      else if s.vouchers[v].usedCount >= s.vouchers[v].maxUses then Failure(NoUsesRemaining)
      else Success(v)
  }

  function VoucherExpiry(s: State, v: Voucher): int {
    if v.durationMinutes.Some? && v.durationMinutes.value != 0
    then s.now + v.durationMinutes.value * MINUTE else s.now + DAY
  }

  /** auth_voucher: the use is counted after the session has been opened. */
  function VoucherLoginTrace(s: State, ip: Ip, arp: Option<Mac>, code: string, env: Env): Trace {
    match Validate(s, code)
    case Failure(_) => REFUSED
    case Success(v) =>
      Then(CreateTrace(s, Request(ip, arp, VoucherExpiry(s, s.vouchers[v]), 0, 0, None, Some(v)), [], env),
           Trace([Commit([SetUsed(v, s.vouchers[v].usedCount + 1)])], false))
  }

  predicate HexDigit(c: char) {
    '0' <= c <= '9' || 'a' <= c <= 'f' || 'A' <= c <= 'F'
  }

  function UpperChar(c: char): char {
    if 'a' <= c <= 'z' then c - 'a' + 'A' else c
  }

  function Upper(text: string): (up: string)
    ensures |up| == |text| && forall i :: 0 <= i < |text| ==> up[i] == UpperChar(text[i])
  {
    seq(|text|, i requires 0 <= i < |text| => UpperChar(text[i]))
  }

  /** _validate_mac: six colon-separated hex pairs, returned in upper case. */
  function ValidateMac(mac: Option<Mac>): Option<Mac> {
    if mac.Some? && |mac.value| == 17
       && (forall i :: 0 <= i < 17 ==> if i % 3 == 2 then mac.value[i] == ':' else HexDigit(mac.value[i]))
    then Some(Upper(mac.value)) else None
  }

  /** portal_login: an open session is shown, more than one raises, a bypassed device is let in. */
  function PortalPageTrace(s: State, ip: Ip, arp: Option<Mac>, bypassed: bool, env: Env): Trace {
    match ValidateMac(arp)
    case None => NOTHING
    case Some(mac) =>
      var own := Rows(s, OfDevice(mac));
      if |own| > 1 then REFUSED
      else if |own| == 1 || !bypassed then NOTHING
      else CreateTrace(s, Request(ip, arp, s.now + DAY, 0, 0, None, None), [], env)
  }

  /** disconnect */
  function DisconnectTrace(s: State, arp: Option<Mac>): Trace {
    match ValidateMac(arp)
    case None => NOTHING
    case Some(mac) => SweepTrace(s, Rows(s, OfDevice(mac)), Kicked)
  }

  // ---- scheduler.py ----

  /** The byte quota of a session's data voucher, if it has a positive one. */
  function Quota(s: State, row: Session): int {
    if row.voucher.Some? && row.voucher.value < |s.vouchers| && s.vouchers[row.voucher.value].isData
       && s.vouchers[row.voucher.value].dataLimitMb.Some?
    then s.vouchers[row.voucher.value].dataLimitMb.value * 1024 * 1024 else 0
  }

  predicate OverQuota(s: State, row: Session, down: nat) {
    Quota(s, row) > 0 && down >= Quota(s, row)
  }

  /** What tc prints, for the WAN and for ifb0, at the k-th sample. */
  type Listings = nat -> (string, string)

  /** The loop of _bytes_job: byte counts wait in the transaction until a commit. */
  function BytesTrace(s: State, ids: seq<nat>, pending: seq<Write>, show: Listings, k: nat): Trace
    decreases |ids|
  {
    if ids == [] then Trace([Commit(pending)], false)
    else if ids[0] >= |s.sessions| then NOTHING
    else
      var row := s.sessions[ids[0]];
      match TrafficControl.GetBytes(row.ip, show(k).0, show(k).1)
      case None => REFUSED
      case Some((up, down)) =>
        var more := pending + [SetBytes(ids[0], up, down)];
        if OverQuota(s, row, down) then
          var first := ExpireTrace(s, ids[0], Expired, more);
          Then(first, BytesTrace(Replay(s, first.effects), ids[1..], [], show, k + 1))
        else BytesTrace(s, ids[1..], more, show, k + 1)
  }

  function CheckoutTrace(s: State, room: string): Trace {
    SweepTrace(s, Rows(s, InRoom(room)), Expired)
  }

  function CheckoutsTrace(s: State, rooms: seq<string>): Trace
    decreases |rooms|
  {
    if rooms == [] then NOTHING
    else
      var first := CheckoutTrace(s, rooms[0]);
      Then(first, CheckoutsTrace(Replay(s, first.effects), rooms[1..]))
  }

  /** _poll_checkouts_job; `rooms` is None when the adapter is not polled or its call failed. */
  function PollTrace(s: State, rooms: Option<seq<string>>): Trace {
    match rooms
    case None => NOTHING
    case Some(list) => Then(CheckoutsTrace(s, list), Trace([Commit([SetLastSync(s.now)])], false))
  }

  // ---- scripts/setup-nftables.sh ----

  const RESTART := Trace(
    [DropTable, LoadTable, ClearWan, AddWan(DEFAULT_CLASS), ClearIfb, AddIfb(DEFAULT_CLASS)], false)

  // ---- Everything that can happen ----

  datatype Op =
    | RoomLogin(ip: Ip, arp: Option<Mac>, info: Option<GuestInfo>, policy: Option<Policy>, env: Env)
    | VoucherLogin(ip: Ip, arp: Option<Mac>, code: string, env: Env)
    | PortalPage(ip: Ip, arp: Option<Mac>, bypassed: bool, env: Env)
    | Disconnect(arp: Option<Mac>)
    | Kick(id: nat)
    | ExpireOverdue
    | Checkout(room: string)
    | PollCheckouts(rooms: Option<seq<string>>)
    | SampleBytes(show: Listings)
    | RestartFirewall
    | AllowMac(mac: Mac)
    | DenyMac(mac: Mac)
    | Arrive(packet: Firewall.Packet, portal: Ip, port: nat)
    | Tick(at: int)

  function OpTrace(s: State, op: Op): Trace {
    match op
    case RoomLogin(ip, arp, info, policy, env) => RoomLoginTrace(s, ip, arp, info, policy, env)
    case VoucherLogin(ip, arp, code, env) => VoucherLoginTrace(s, ip, arp, code, env)
    case PortalPage(ip, arp, bypassed, env) => PortalPageTrace(s, ip, arp, bypassed, env)
    case Disconnect(arp) => DisconnectTrace(s, arp)
    case Kick(id) => ExpireTrace(s, id, Kicked, [])
    case ExpireOverdue => SweepTrace(s, Rows(s, Overdue), Expired)
    case Checkout(room) => CheckoutTrace(s, room)
    case PollCheckouts(rooms) => PollTrace(s, rooms)
    case SampleBytes(show) => BytesTrace(s, Rows(s, AnyActive), [], show, 0)
    case RestartFirewall => RESTART
    case AllowMac(mac) => Trace([AddMac(mac)], false)
    case DenyMac(mac) => Trace([DelMac(mac)], false)
    case Arrive(p, portal, port) =>
      if p.conn in Firewall.MarkedBy(s, p, portal, port) && p.conn !in s.marked
      then Trace([Mark(p.conn)], false) else NOTHING
    case Tick(at) => if s.now <= at then Trace([SetClock(at)], false) else NOTHING
  }

  function Outcome(s: State, op: Op): State {
    Replay(s, OpTrace(s, op).effects)
  }
}
