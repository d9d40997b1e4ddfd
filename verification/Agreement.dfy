/**
 The whitelist is an index of the session table.  When an operation runs to its end
 without a failing command, the index is again exact if and only if no session that
 stays active shares its address with one the operation withdraws.
 */
module Agreement {
  import opened Common
  import opened PortalState
  import opened Invariants
  import opened Operations
  import opened OperationSafety
  import opened Sweeps

  ghost predicate Agree(s: State) {
    && (forall ip :: ip in s.whitelist <==> ActiveIp(s, ip))
    && (forall ip :: ip in s.dnsBypass <==> ActiveIp(s, ip))
  }

  /** Some session stays active at the address of a row that is being withdrawn. */
  ghost predicate Shared(s: State, gone: seq<nat>) {
    exists i: nat, j: nat :: SharesWith(s, gone, i, j)
  }

  ghost predicate SharesWith(s: State, gone: seq<nat>, i: nat, j: nat) {
    i in gone && i < |s.sessions| && j !in gone && HoldsIp(s, j, s.sessions[i].ip)
  }

  /** t has s's sets less the addresses of `gone`, and s's active rows less `gone`. */
  ghost predicate Withdraws(s: State, t: State, gone: seq<nat>) {
    && t.whitelist == s.whitelist - AddressesOf(s, gone)
    && t.dnsBypass == s.dnsBypass - AddressesOf(s, gone)
    && forall j: nat, ip :: HoldsIp(t, j, ip) <==> j !in gone && HoldsIp(s, j, ip)
  }

  lemma WithdrawAgreement(s: State, t: State, gone: seq<nat>)
    requires Agree(s) && Withdraws(s, t, gone)
    ensures Agree(t) <==> !Shared(s, gone)
  {
    if Shared(s, gone) {
      var i: nat, j: nat :| SharesWith(s, gone, i, j);
      var ip := s.sessions[i].ip;
      assert HoldsIp(t, j, ip) && ip in AddressesOf(s, gone);
      assert ActiveIp(t, ip) && ip !in t.whitelist;
    } else {
      forall ip ensures ActiveIp(t, ip) <==> ActiveIp(s, ip) && ip !in AddressesOf(s, gone) {
        if ActiveIp(t, ip) {
          var j: nat :| HoldsIp(t, j, ip);
          assert HoldsIp(s, j, ip);
          if ip in AddressesOf(s, gone) {
            var i :| i in gone && i < |s.sessions| && s.sessions[i].ip == ip;
            assert SharesWith(s, gone, i, j);
          }
        }
        if ActiveIp(s, ip) && ip !in AddressesOf(s, gone) {
          var j: nat :| HoldsIp(s, j, ip);
          assert HoldsIp(t, j, ip);
        }
      }
    }
  }

  lemma SweepWithdraws(s: State, ids: seq<nat>, status: Status)
    requires KnownIds(s, ids) && status != Active
    ensures Withdraws(s, Swept(s, ids, status), ids)
  {
  }

  // ---- Opening a session ----

  function Opened(s: State, ip: Ip, up: int, down: int, env: Env): State
    requires ip.V4?
  {
    s.(whitelist := s.whitelist + {ip}, dnsBypass := s.dnsBypass + {ip},
       wan := if down > 0 && env.wanOk then s.wan + {ClassId(ip)} else s.wan,
       ifb := if up > 0 && env.ifbOk then s.ifb + {ClassId(ip)} else s.ifb)
  }

  predicate Opens(s: State, ip: Ip, env: Env) {
    env.whitelistOk && env.dnsOk && s.loaded && ip.V4?
  }

  lemma OpenOutcome(s: State, ip: Ip, up: int, down: int, env: Env)
    ensures var t := Then(RulesTrace(s, ip, env), ShapeTrace(ip, up, down, env));
            && (t.raised <==> !Opens(s, ip, env))
            && (Opens(s, ip, env) ==> Replay(s, t.effects) == Opened(s, ip, up, down, env))
  {
    if Opens(s, ip, env) {
      var wan := if down > 0 && env.wanOk then [AddWan(ClassId(ip))] else [];
      var ifb := if up > 0 && env.ifbOk then [AddIfb(ClassId(ip))] else [];
      var rules := [AddWhitelist(ip), AddDns(ip)];
      assert Then(RulesTrace(s, ip, env), ShapeTrace(ip, up, down, env)).effects == rules + (wan + ifb);
      ReplayTwo(s, AddWhitelist(ip), AddDns(ip));
      var u := Replay(s, rules);
      ReplayOne(u, AddWan(ClassId(ip)));
      ReplayOne(Replay(u, wan), AddIfb(ClassId(ip)));
      ReplayConcat(u, wan, ifb);
      ReplayConcat(s, rules, wan + ifb);
    }
  }

  lemma {:induction false} WritesKeepKernel(s: State, ws: seq<Write>)
    ensures var t := ApplyWrites(s, ws);
            t.loaded == s.loaded && t.now == s.now && t.whitelist == s.whitelist && t.dnsBypass == s.dnsBypass
            && t.macBypass == s.macBypass && t.marked == s.marked && t.wan == s.wan && t.ifb == s.ifb
    decreases |ws|
  {
    if ws != [] {
      WritesKeepKernel(ApplyWrite(s, ws[0]), ws[1..]);
    }
  }

  /** The state create_session commits before it opens anything. */
  function Committed(s: State, q: Request, pending: seq<Write>): State {
    match Existing(s, q.mac)
    case None => ApplyWrite(ApplyWrites(s, pending), InsertSession(NewRow(s, q)))
    case Some(i) =>
      if s.sessions[i].ip == q.ip then s
      else ApplyWrite(ApplyWrites(Closed(s, [i]), pending), SetIp(i, q.ip))
  }

  predicate Moves(s: State, q: Request) {
    Existing(s, q.mac).Some? && s.sessions[Existing(s, q.mac).value].ip != q.ip
  }

  /** The rates create_session applies: a reused session keeps its upload rate only. */
  function Rates(s: State, q: Request): (int, int) {
    match Existing(s, q.mac)
    case None => (q.up, q.down)
    case Some(i) => (s.sessions[i].upKbps, 0)
  }

  /**
   When create_session raises, and its whole final state when it does not: the row is
   committed, its address is in both sets, its classes are made, nothing else differs.
   */
  lemma CreateOutcome(s: State, q: Request, pending: seq<Write>, env: Env)
    ensures var t := CreateTrace(s, q, pending, env);
            && (t.raised <==> || !Opens(s, q.ip, env)
                              || (Moves(s, q) && !s.sessions[Existing(s, q.mac).value].ip.V4?))
            && (!t.raised ==> Replay(s, t.effects) ==
                              Opened(Committed(s, q, pending), q.ip, Rates(s, q).0, Rates(s, q).1, env))
  {
    match Existing(s, q.mac)
    case None =>
      var w := InsertSession(NewRow(s, q));
      OpenAfterCommit(s, pending, w, q.ip, q.up, q.down, env);
    case Some(i) =>
      var row := s.sessions[i];
      if row.ip == q.ip {
        OpenOutcome(s, q.ip, row.upKbps, 0, env);
      } else {
        var withdraw := Then(UnruleTrace(row.ip), UnshapeTrace(row.ip, row.upKbps));
        WithdrawOutcome(s, i);
        if !withdraw.raised {
          var t := Replay(s, withdraw.effects);
          OpenAfterCommit(t, pending, SetIp(i, q.ip), q.ip, row.upKbps, 0, env);
          ReplayConcat(s, withdraw.effects,
            Then(Trace([Commit(pending + [SetIp(i, q.ip)])], false),
                 Then(RulesTrace(s, q.ip, env), ShapeTrace(q.ip, row.upKbps, 0, env))).effects);
        }
      }
  }

  lemma OpenAfterCommit(s: State, pending: seq<Write>, w: Write, ip: Ip, up: int, down: int, env: Env)
    ensures var open := Then(RulesTrace(s, ip, env), ShapeTrace(ip, up, down, env));
            var t := Then(Trace([Commit(pending + [w])], false), open);
            && (t.raised <==> !Opens(s, ip, env))
            && (Opens(s, ip, env) ==> Replay(s, t.effects) ==
                                      Opened(ApplyWrite(ApplyWrites(s, pending), w), ip, up, down, env))
  {
    var commit := Commit(pending + [w]);
    ReplayOne(s, commit);
    ApplyWritesConcat(s, pending, [w]);
    OneWrite(ApplyWrites(s, pending), w);
    WritesKeepKernel(s, pending + [w]);
    var u := Replay(s, [commit]);
    assert RulesTrace(u, ip, env) == RulesTrace(s, ip, env);
    OpenOutcome(u, ip, up, down, env);
    ReplayConcat(s, [commit], Then(RulesTrace(s, ip, env), ShapeTrace(ip, up, down, env)).effects);
  }

  /** Writes a login may have waiting: none that touches a session row. */
  ghost predicate GuestWrites(pending: seq<Write>) {
    forall w :: w in pending ==> w.AddGuest? || w.UpdateGuest?
  }

  lemma {:induction false} GuestWritesKeepRows(s: State, pending: seq<Write>)
    requires GuestWrites(pending)
    ensures ApplyWrites(s, pending).sessions == s.sessions && ApplyWrites(s, pending).vouchers == s.vouchers
    decreases |pending|
  {
    if pending != [] {
      assert pending[0].AddGuest? || pending[0].UpdateGuest?;
      GuestWritesKeepRows(ApplyWrite(s, pending[0]), pending[1..]);
    }
  }

  /** Effects on the kernel tables touch neither the database nor the clock. */
  predicate OnlyOpens(es: seq<Effect>) {
    forall i :: 0 <= i < |es| ==> es[i].AddWhitelist? || es[i].AddDns? || es[i].AddWan? || es[i].AddIfb?
  }

  lemma OpensOnly(s: State, ip: Ip, up: int, down: int, env: Env)
    ensures OnlyOpens(Then(RulesTrace(s, ip, env), ShapeTrace(ip, up, down, env)).effects)
  {
  }

  lemma {:induction false} KernelKeepsRows(s: State, es: seq<Effect>)
    requires OnlyOpens(es)
    ensures var t := Replay(s, es); t.sessions == s.sessions && t.vouchers == s.vouchers && t.now == s.now
    decreases |es|
  {
    if es != [] { KernelKeepsRows(Apply(s, es[0]), es[1..]); }
  }

  /** Whatever fails after the first commit, the new row stays as it was inserted. */
  lemma NewRowStays(s: State, q: Request, pending: seq<Write>, env: Env)
    requires GuestWrites(pending) && Existing(s, q.mac).None?
    ensures var t := Replay(s, CreateTrace(s, q, pending, env).effects);
            t.sessions == s.sessions + [NewRow(s, q)] && t.vouchers == s.vouchers && t.now == s.now
  {
    var w := InsertSession(NewRow(s, q));
    var insert := Commit(pending + [w]);
    var open := Then(RulesTrace(s, q.ip, env), ShapeTrace(q.ip, q.up, q.down, env)).effects;
    assert CreateTrace(s, q, pending, env).effects == [insert] + open;
    ReplayConcat(s, [insert], open);
    ReplayOne(s, insert);
    ApplyWritesConcat(s, pending, [w]);
    OneWrite(ApplyWrites(s, pending), w);
    GuestWritesKeepRows(s, pending);
    WritesKeepKernel(s, pending);
    OpensOnly(s, q.ip, q.up, q.down, env);
    KernelKeepsRows(Apply(s, insert), open);
  }

  /** The row a login takes the old address from. */
  function MovedRow(s: State, q: Request): seq<nat> {
    if Moves(s, q) then [Existing(s, q.mac).value] else []
  }

  lemma CreateAgreement(s: State, q: Request, pending: seq<Write>, env: Env)
    requires Agree(s) && GuestWrites(pending) && !CreateTrace(s, q, pending, env).raised
    ensures Agree(Replay(s, CreateTrace(s, q, pending, env).effects)) <==> !Shared(s, MovedRow(s, q))
  {
    CreateOutcome(s, q, pending, env);
    var t := Replay(s, CreateTrace(s, q, pending, env).effects);
    WritesKeepKernel(s, pending);
    GuestWritesKeepRows(s, pending);
    match Existing(s, q.mac)
    case None =>
      assert t.sessions == s.sessions + [NewRow(s, q)];
      AddRowAgreement(s, t, |s.sessions|, q.ip);
    case Some(i) =>
      if s.sessions[i].ip == q.ip {
        assert HoldsIp(s, i, q.ip);
        assert t.whitelist == s.whitelist && t.dnsBypass == s.dnsBypass;
        forall ip ensures ActiveIp(t, ip) <==> ActiveIp(s, ip) { SameActive(s, t, ip); }
      } else {
        var c := Closed(s, [i]).(sessions := s.sessions[i := s.sessions[i].(status := Kicked)]);
        WritesKeepKernel(Closed(s, [i]), pending);
        GuestWritesKeepRows(Closed(s, [i]), pending);
        WithdrawAgreement(s, c, [i]);
        MoveAgreement(s, c, t, i, q.ip);
      }
  }

  lemma SameActive(s: State, t: State, ip: Ip)
    requires s.sessions == t.sessions
    ensures ActiveIp(t, ip) <==> ActiveIp(s, ip)
  {
    if ActiveIp(s, ip) { var j: nat :| HoldsIp(s, j, ip); assert HoldsIp(t, j, ip); }
    if ActiveIp(t, ip) { var j: nat :| HoldsIp(t, j, ip); assert HoldsIp(s, j, ip); }
  }

  /** Row i of t is active at `ip`; every other row is as in s, where row i was not active. */
  ghost predicate AddsRow(s: State, t: State, i: nat, ip: Ip) {
    && t.whitelist == s.whitelist + {ip} && t.dnsBypass == s.dnsBypass + {ip}
    && HoldsIp(t, i, ip)
    && forall j: nat, x :: HoldsIp(t, j, x) <==> (j == i && x == ip) || HoldsIp(s, j, x)
  }

  lemma AddRowAgreement(s: State, t: State, i: nat, ip: Ip)
    requires Agree(s) && AddsRow(s, t, i, ip)
    ensures Agree(t)
  {
    forall x ensures ActiveIp(t, x) <==> x == ip || ActiveIp(s, x) {
      if ActiveIp(s, x) { var j: nat :| HoldsIp(s, j, x); assert HoldsIp(t, j, x); }
      if ActiveIp(t, x) && x != ip { var j: nat :| HoldsIp(t, j, x); assert HoldsIp(s, j, x); }
    }
  }

  /** From the withdrawn state c, adding the row at its new address restores agreement only if c had it. */
  lemma MoveAgreement(s: State, c: State, t: State, i: nat, ip: Ip)
    requires Agree(s) && Withdraws(s, c, [i]) && i < |s.sessions| && HoldsIp(s, i, s.sessions[i].ip)
    requires s.sessions[i].ip != ip && AddsRow(c, t, i, ip)
    requires Agree(c) <==> !Shared(s, [i])
    ensures Agree(t) <==> !Shared(s, [i])
  {
    if Shared(s, [i]) {
      var k: nat, j: nat :| SharesWith(s, [i], k, j);
      assert HoldsIp(c, j, s.sessions[i].ip) && HoldsIp(t, j, s.sessions[i].ip);
      assert s.sessions[i].ip in AddressesOf(s, [i]);
      assert ActiveIp(t, s.sessions[i].ip) && s.sessions[i].ip !in t.whitelist;
    } else {
      AddRowAgreement(c, t, i, ip);
    }
  }

  // ---- The looping operations ----

  lemma {:induction false} OverIdsExact(s: State, ids: seq<nat>, show: Listings, k: nat, j: nat)
    requires KnownIds(s, ids) && AllIpv4(s, ids) && Distinct(ids) && j < |ids|
    ensures ids[j] in OverIds(s, ids, show, k)
            <==> OverQuota(s, s.sessions[ids[j]], Reading(s, ids[j], show, k + j).1)
    decreases |ids|
  {
    var rest := ids[1..];
    assert forall m :: 0 <= m < |rest| ==> rest[m] == ids[m + 1];
    OverIdsCons(s, ids, show, k, ids[j]);
    if j > 0 { OverIdsExact(s, rest, show, k + 1, j - 1); }
  }

  lemma OverIdsCons(s: State, ids: seq<nat>, show: Listings, k: nat, id: nat)
    requires KnownIds(s, ids) && AllIpv4(s, ids) && Distinct(ids) && id in ids
    ensures KnownIds(s, ids[1..]) && AllIpv4(s, ids[1..])
    ensures id in OverIds(s, ids, show, k)
            <==> if id == ids[0] then OverQuota(s, s.sessions[id], Reading(s, id, show, k).1)
                 else id in OverIds(s, ids[1..], show, k + 1)
  {
    if id == ids[0] && id in OverIds(s, ids[1..], show, k + 1) { OverIdsListed(s, ids[1..], show, k + 1, id); }
  }

  /** A sampled row stays active at its address exactly when its quota is not used up. */
  lemma ListedHolds(s: State, t: State, ids: seq<nat>, show: Listings, m: nat, ip: Ip)
    requires KnownIds(s, ids) && AllIpv4(s, ids) && Distinct(ids) && SampledAll(s, t, ids, show, 0)
    requires m < |ids| && s.sessions[ids[m]].status == Active
    ensures HoldsIp(t, ids[m], ip) <==> ids[m] !in OverIds(s, ids, show, 0) && HoldsIp(s, ids[m], ip)
  {
    OverIdsExact(s, ids, show, 0, m);
    assert t.sessions[ids[m]] == Sampled(s, ids[m], show, m);
  }

  lemma UnlistedHolds(s: State, t: State, ids: seq<nat>, show: Listings, j: nat, ip: Ip)
    requires KnownIds(s, ids) && AllIpv4(s, ids) && OthersAs(s, t, ids) && j !in ids
    ensures HoldsIp(t, j, ip) <==> j !in OverIds(s, ids, show, 0) && HoldsIp(s, j, ip)
  {
    if j in OverIds(s, ids, show, 0) { OverIdsListed(s, ids, show, 0, j); }
  }

  lemma SampledHolds(s: State, t: State, show: Listings, j: nat, ip: Ip)
    requires KnownIds(s, Rows(s, AnyActive)) && AllIpv4(s, Rows(s, AnyActive)) && Distinct(Rows(s, AnyActive))
    requires SampledAll(s, t, Rows(s, AnyActive), show, 0) && OthersAs(s, t, Rows(s, AnyActive))
    ensures HoldsIp(t, j, ip) <==> j !in OverIds(s, Rows(s, AnyActive), show, 0) && HoldsIp(s, j, ip)
  {
    var ids := Rows(s, AnyActive);
    if j in ids {
      var m :| 0 <= m < |ids| && ids[m] == j;
      assert Selected(s, AnyActive, j);
      ListedHolds(s, t, ids, show, m, ip);
    } else {
      UnlistedHolds(s, t, ids, show, j, ip);
    }
  }

  lemma BytesWithdraw(s: State, show: Listings)
    requires !OpTrace(s, SampleBytes(show)).raised
    ensures var ids := Rows(s, AnyActive);
            KnownIds(s, ids) && AllIpv4(s, ids) && Withdraws(s, Outcome(s, SampleBytes(show)), OverIds(s, ids, show, 0))
  {
    var ids := Rows(s, AnyActive);
    BytesCompleted(s, show);
    BytesTables(s, ids, [], show, 0);
    forall j: nat, ip
      ensures HoldsIp(Outcome(s, SampleBytes(show)), j, ip) <==> j !in OverIds(s, ids, show, 0) && HoldsIp(s, j, ip)
    {
      SampledHolds(s, Outcome(s, SampleBytes(show)), show, j, ip);
    }
  }

  /** The rows a list of room checkouts withdraws, room after room. */
  function CheckoutIds(s: State, rooms: seq<string>): seq<nat>
    decreases |rooms|
  {
    if rooms == [] then []
    else Rows(s, InRoom(rooms[0])) + CheckoutIds(Replay(s, CheckoutTrace(s, rooms[0]).effects), rooms[1..])
  }

  lemma {:induction false} CheckoutsOutcome(s: State, rooms: seq<string>)
    requires !CheckoutsTrace(s, rooms).raised
    ensures var ids := CheckoutIds(s, rooms);
            KnownIds(s, ids) && Replay(s, CheckoutsTrace(s, rooms).effects) == Swept(s, ids, Expired)
    decreases |rooms|
  {
    if rooms == [] {
      assert WithStatus(s.sessions, [], Expired) == s.sessions;
    } else {
      var ids := Rows(s, InRoom(rooms[0]));
      var first := CheckoutTrace(s, rooms[0]);
      SweepOutcome(s, ids, Expired);
      var t := Replay(s, first.effects);
      CheckoutsOutcome(t, rooms[1..]);
      ReplayConcat(s, first.effects, CheckoutsTrace(t, rooms[1..]).effects);
      SweptTwice(s, ids, CheckoutIds(t, rooms[1..]), Expired);
    }
  }

  // ---- Every operation ----

  /** The request a login passes to create_session, if it gets that far. */
  function RequestOf(s: State, op: Op): Option<(Request, seq<Write>, Env)> {
    match op
    case RoomLogin(ip, arp, info, policy, env) =>
      (match RoomRequest(s, ip, arp, info, policy)
       case None => None
       case Some((q, pending)) => Some((q, pending, env)))
    case VoucherLogin(ip, arp, code, env) =>
      (match Validate(s, code)
       case Failure(_) => None
       case Success(v) => Some((Request(ip, arp, VoucherExpiry(s, s.vouchers[v]), 0, 0, None, Some(v)), [], env)))
    case PortalPage(ip, arp, bypassed, env) =>
      if ValidateMac(arp).Some? && bypassed && Rows(s, OfDevice(ValidateMac(arp).value)) == []
      then Some((Request(ip, arp, s.now + DAY, 0, 0, None, None), [], env)) else None
    case _ => None
  }

  /** The rows whose address the operation takes out of the sets. */
  function Released(s: State, op: Op): seq<nat> {
    match op
    case RoomLogin(_, _, _, _, _) => if RequestOf(s, op).Some? then MovedRow(s, RequestOf(s, op).value.0) else []
    case VoucherLogin(_, _, _, _) => if RequestOf(s, op).Some? then MovedRow(s, RequestOf(s, op).value.0) else []
    case PortalPage(_, _, _, _) => if RequestOf(s, op).Some? then MovedRow(s, RequestOf(s, op).value.0) else []
    case Disconnect(arp) => if ValidateMac(arp).Some? then Rows(s, OfDevice(ValidateMac(arp).value)) else []
    case Kick(id) => if id < |s.sessions| then [id] else []
    case ExpireOverdue => Rows(s, Overdue)
    case Checkout(room) => Rows(s, InRoom(room))
    case PollCheckouts(rooms) => if rooms.Some? then CheckoutIds(s, rooms.value) else []
    case SampleBytes(show) =>
      var ids := Rows(s, AnyActive);
      if forall j :: 0 <= j < |ids| ==> s.sessions[ids[j]].ip.V4? then OverIds(s, ids, show, 0) else []
    case _ => []
  }

  /** Where create_session has got once it is done with the login's request. */
  function Created(s: State, op: Op): State
    requires RequestOf(s, op).Some?
  {
    var (q, pending, env) := RequestOf(s, op).value;
    Replay(s, CreateTrace(s, q, pending, env).effects)
  }

  /** A login that runs to its end is its create_session, followed for a voucher by the count of its use. */
  lemma LoginOutcome(s: State, op: Op)
    requires RequestOf(s, op).Some? && !OpTrace(s, op).raised
    ensures var (q, pending, env) := RequestOf(s, op).value;
            && !CreateTrace(s, q, pending, env).raised
            && Outcome(s, op) ==
               if op.VoucherLogin?
               then Replay(Created(s, op), [Commit([SetUsed(q.voucher.value, s.vouchers[q.voucher.value].usedCount + 1)])])
               else Created(s, op)
  {
    var (q, pending, env) := RequestOf(s, op).value;
    if op.VoucherLogin? {
      ReplayConcat(s, CreateTrace(s, q, pending, env).effects,
                   [Commit([SetUsed(q.voucher.value, s.vouchers[q.voucher.value].usedCount + 1)])]);
    }
  }

  lemma LoginAgreement(s: State, op: Op)
    requires Agree(s) && RequestOf(s, op).Some? && !OpTrace(s, op).raised
    ensures Agree(Outcome(s, op)) <==> !Shared(s, Released(s, op))
  {
    var (q, pending, env) := RequestOf(s, op).value;
    LoginOutcome(s, op);
    CreateAgreement(s, q, pending, env);
    if op.VoucherLogin? {
      QuietWriteAgreement(Created(s, op), SetUsed(q.voucher.value, s.vouchers[q.voucher.value].usedCount + 1));
    }
  }

  /** Counting a use or moving the sync time leaves the index as good as it was. */
  lemma QuietWriteAgreement(t: State, w: Write)
    requires w.SetUsed? || w.SetLastSync?
    ensures Agree(Replay(t, [Commit([w])])) <==> Agree(t)
  {
    ReplayOne(t, Commit([w]));
    OneWrite(t, w);
    var u := ApplyWrite(t, w);
    forall ip ensures ActiveIp(u, ip) <==> ActiveIp(t, ip) { SameActive(t, u, ip); }
  }

  lemma QuietAgreement(s: State, t: State)
    requires Agree(s) && t.sessions == s.sessions && t.whitelist == s.whitelist && t.dnsBypass == s.dnsBypass
    ensures Agree(t)
  {
    forall ip ensures ActiveIp(t, ip) <==> ActiveIp(s, ip) { SameActive(s, t, ip); }
  }

  /**
   From an exact index, any operation other than a firewall restart that runs to its
   end leaves an exact index if and only if it withdraws no address that another
   session stays active at.
   */
  lemma IndexStaysExact(s: State, op: Op)
    requires Agree(s) && !OpTrace(s, op).raised && !op.RestartFirewall?
    ensures Agree(Outcome(s, op)) <==> !Shared(s, Released(s, op))
  {
    var t := Outcome(s, op);
    match op
    case RoomLogin(_, _, _, _, _) => LoginAgreement(s, op);
    case VoucherLogin(_, _, _, _) => LoginAgreement(s, op);
    case PortalPage(_, _, _, _) => if RequestOf(s, op).Some? { LoginAgreement(s, op); }
    case Disconnect(arp) =>
      if ValidateMac(arp).Some? {
        SweptAgreement(s, Rows(s, OfDevice(ValidateMac(arp).value)), Kicked);
      }
    case Kick(id) =>
      if id < |s.sessions| {
        SweepOne(s, id, Kicked);
        SweptAgreement(s, [id], Kicked);
      }
    case ExpireOverdue => SweptAgreement(s, Rows(s, Overdue), Expired);
    case Checkout(room) => SweptAgreement(s, Rows(s, InRoom(room)), Expired);
    case PollCheckouts(rooms) => if rooms.Some? { PollAgreement(s, rooms.value); }
    case SampleBytes(show) =>
      BytesWithdraw(s, show);
      WithdrawAgreement(s, t, Released(s, op));
    case _ =>
      QuietOps(s, op);
      QuietAgreement(s, t);
  }

  /** Operations that touch neither the session table nor the two sets. */
  predicate Quiet(op: Op) {
    op.AllowMac? || op.DenyMac? || op.Arrive? || op.Tick?
  }

  lemma QuietOps(s: State, op: Op)
    requires Quiet(op)
    ensures var t := Outcome(s, op);
            t.sessions == s.sessions && t.whitelist == s.whitelist && t.dnsBypass == s.dnsBypass
  {
    match op
    case AllowMac(mac) => ReplayOne(s, AddMac(mac));
    case DenyMac(mac) => ReplayOne(s, DelMac(mac));
    case Arrive(p, _, _) => ReplayOne(s, Mark(p.conn));
    case Tick(at) => ReplayOne(s, SetClock(at));
  }

  lemma SweptAgreement(s: State, ids: seq<nat>, status: Status)
    requires Agree(s) && KnownIds(s, ids) && status != Active && !SweepTrace(s, ids, status).raised
    ensures Agree(Replay(s, SweepTrace(s, ids, status).effects)) <==> !Shared(s, ids)
  {
    SweepOutcome(s, ids, status);
    SweepWithdraws(s, ids, status);
    WithdrawAgreement(s, Swept(s, ids, status), ids);
  }

  lemma PollAgreement(s: State, rooms: seq<string>)
    requires Agree(s) && !PollTrace(s, Some(rooms)).raised
    ensures Agree(Replay(s, PollTrace(s, Some(rooms)).effects)) <==> !Shared(s, CheckoutIds(s, rooms))
  {
    var ids := CheckoutIds(s, rooms);
    CheckoutsOutcome(s, rooms);
    SweepWithdraws(s, ids, Expired);
    WithdrawAgreement(s, Swept(s, ids, Expired), ids);
    QuietWriteAgreement(Swept(s, ids, Expired), SetLastSync(s.now));
    ReplayConcat(s, CheckoutsTrace(s, rooms).effects, [Commit([SetLastSync(s.now)])]);
  }

  /** A restart empties the index, so it is exact afterwards only if nobody was active. */
  lemma RestartAgreement(s: State)
    ensures Agree(Outcome(s, RestartFirewall)) <==> forall i: nat :: i < |s.sessions| ==> s.sessions[i].status != Active
  {
    var t := Outcome(s, RestartFirewall);
    assert t.whitelist == {} && t.dnsBypass == {} && t.sessions == s.sessions by { RestartOutcome(s); }
    if i: nat :| i < |s.sessions| && s.sessions[i].status == Active {
      assert HoldsIp(t, i, s.sessions[i].ip);
      assert ActiveIp(t, s.sessions[i].ip);
    }
  }

  lemma RestartOutcome(s: State)
    ensures Outcome(s, RestartFirewall) ==
            s.(loaded := true, whitelist := {}, dnsBypass := {}, macBypass := {}, wan := {DEFAULT_CLASS}, ifb := {DEFAULT_CLASS})
  {
    var head, middle, tail := [DropTable, LoadTable], [ClearWan, AddWan(DEFAULT_CLASS)], [ClearIfb, AddIfb(DEFAULT_CLASS)];
    TableReloaded(s);
    var t := Replay(s, head);
    WanReset(t);
    IfbReset(Replay(t, middle));
    ReplayConcat(t, middle, tail);
    ReplayConcat(s, head, middle + tail);
    assert RESTART.effects == head + (middle + tail);
  }

  lemma TableReloaded(s: State)
    ensures Replay(s, [DropTable, LoadTable]) == s.(loaded := true, whitelist := {}, dnsBypass := {}, macBypass := {})
  {
    ReplayTwo(s, DropTable, LoadTable);
  }

  lemma WanReset(s: State)
    ensures Replay(s, [ClearWan, AddWan(DEFAULT_CLASS)]) == s.(wan := {DEFAULT_CLASS})
  {
    ReplayTwo(s, ClearWan, AddWan(DEFAULT_CLASS));
  }

  lemma IfbReset(s: State)
    ensures Replay(s, [ClearIfb, AddIfb(DEFAULT_CLASS)]) == s.(ifb := {DEFAULT_CLASS})
  {
    ReplayTwo(s, ClearIfb, AddIfb(DEFAULT_CLASS));
  }
}
