/** Every operation keeps the discipline, from any state that satisfies the invariant. */
module OperationSafety {
  import opened Common
  import opened PortalState
  import opened Invariants
  import opened Operations

  lemma ThenDisciplined(s: State, a: Trace, b: Trace)
    requires Disciplined(s, a.effects)
    requires !a.raised ==> Disciplined(Replay(s, a.effects), b.effects)
    ensures Disciplined(s, Then(a, b).effects)
  {
    if !a.raised {
      DisciplinedConcat(s, a.effects, b.effects);
    }
  }

  lemma ReplayOne(s: State, a: Effect)
    ensures Replay(s, [a]) == Apply(s, a)
    ensures Disciplined(s, [a]) <==> Allowed(s, a)
  {
    assert [a][1..] == [];
  }

  lemma ReplayTwo(s: State, a: Effect, b: Effect)
    ensures Replay(s, [a, b]) == Apply(Apply(s, a), b)
    ensures Disciplined(s, [a, b]) <==> Allowed(s, a) && Allowed(Apply(s, a), b)
  {
    assert [a, b][1..] == [b];
    ReplayOne(Apply(s, a), b);
  }

  lemma OpenDisciplined(s: State, i: nat, up: int, down: int, env: Env)
    requires i < |s.sessions| && s.sessions[i].status == Active
    requires up == s.sessions[i].upKbps
    ensures var ip := s.sessions[i].ip;
            Disciplined(s, Then(RulesTrace(s, ip, env), ShapeTrace(ip, up, down, env)).effects)
  {
    var ip := s.sessions[i].ip;
    var rules, shape := RulesTrace(s, ip, env), ShapeTrace(ip, up, down, env);
    assert HoldsIp(s, i, ip);
    assert HoldsIp(Apply(s, AddWhitelist(ip)), i, ip);
    ReplayOne(s, AddWhitelist(ip));
    ReplayTwo(s, AddWhitelist(ip), AddDns(ip));
    if !rules.raised {
      ShapeDisciplined(Replay(s, rules.effects), i, down, env);
    }
    ThenDisciplined(s, rules, shape);
  }

  lemma ShapeDisciplined(s: State, i: nat, down: int, env: Env)
    requires i < |s.sessions| && s.sessions[i].status == Active && s.sessions[i].ip.V4?
    ensures Disciplined(s, ShapeTrace(s.sessions[i].ip, s.sessions[i].upKbps, down, env).effects)
  {
    var c := ClassId(s.sessions[i].ip);
    var up := s.sessions[i].upKbps;
    var wan := if down > 0 && env.wanOk then [AddWan(c)] else [];
    var ifb := if up > 0 && env.ifbOk then [AddIfb(c)] else [];
    assert UsesClass(s, i, c);
    assert UsesClass(Apply(s, AddWan(c)), i, c);
    ReplayOne(s, AddWan(c));
    ReplayOne(s, AddIfb(c));
    ReplayOne(Apply(s, AddWan(c)), AddIfb(c));
    DisciplinedConcat(s, wan, ifb);
  }

  /** Taking a row's address out of both sets and both class tables. */
  lemma WithdrawDisciplined(s: State, id: nat)
    requires id < |s.sessions|
    ensures var row := s.sessions[id];
            var t := Then(UnruleTrace(row.ip), UnshapeTrace(row.ip, row.upKbps));
            var s' := Replay(s, t.effects);
            && Disciplined(s, t.effects)
            && (t.raised <==> !row.ip.V4?)
            && s' == s.(whitelist := s.whitelist - {row.ip}, dnsBypass := s.dnsBypass - {row.ip}, wan := s'.wan, ifb := s'.ifb)
            && s'.wan <= s.wan && s'.ifb <= s.ifb
            && (!t.raised ==> Withdrawn(s', id))
  {
    var row := s.sessions[id];
    var unrule, unshape := UnruleTrace(row.ip), UnshapeTrace(row.ip, row.upKbps);
    ReplayTwo(s, DelWhitelist(row.ip), DelDns(row.ip));
    var s1 := Replay(s, unrule.effects);
    UnshapeDisciplined(s1, row.ip, row.upKbps);
    ThenDisciplined(s, unrule, unshape);
    ReplayConcat(s, unrule.effects, unshape.effects);
  }

  lemma UnshapeDisciplined(s: State, ip: Ip, up: int)
    ensures var t := UnshapeTrace(ip, up);
            && Disciplined(s, t.effects)
            && Replay(s, t.effects) ==
               if ip.V4?
               then s.(wan := s.wan - {ClassId(ip)}, ifb := if up > 0 then s.ifb - {ClassId(ip)} else s.ifb)
               else s
  {
    if ip.V4? {
      var c := ClassId(ip);
      ReplayOne(s, DelWan(c));
      ReplayTwo(s, DelWan(c), DelIfb(c));
      assert UnshapeTrace(ip, up).effects == if up > 0 then [DelWan(c), DelIfb(c)] else [DelWan(c)];
    }
  }

  /** Writes that touch nothing the discipline speaks about. */
  predicate Harmless(w: Write) {
    w.SetBytes? || w.UpdateGuest? || w.SetUsed? || w.SetLastSync?
  }

  predicate SameRow(a: Session, b: Session) {
    a == b.(bytesUp := a.bytesUp, bytesDown := a.bytesDown)
  }

  ghost predicate SameButBytes(s: State, t: State) {
    && |t.sessions| == |s.sessions|
    && (forall i :: 0 <= i < |s.sessions| ==> SameRow(s.sessions[i], t.sessions[i]))
    && |t.guests| == |s.guests|
    && (forall g :: 0 <= g < |s.guests| ==> t.guests[g].maxDevices == s.guests[g].maxDevices && t.guests[g].room == s.guests[g].room)
    && t.whitelist == s.whitelist && t.dnsBypass == s.dnsBypass && t.wan == s.wan && t.ifb == s.ifb
    && t.now == s.now && t.loaded == s.loaded && t.macBypass == s.macBypass && t.marked == s.marked
  }

  lemma {:induction false} HarmlessWrites(s: State, ws: seq<Write>)
    requires forall w :: w in ws ==> Harmless(w)
    ensures AllowedWrites(s, ws) && SameButBytes(s, ApplyWrites(s, ws))
    decreases |ws|
  {
    if ws != [] {
      assert Harmless(ws[0]);
      HarmlessWrites(ApplyWrite(s, ws[0]), ws[1..]);
    }
  }

  lemma {:induction false} AllowedWritesConcat(s: State, a: seq<Write>, b: seq<Write>)
    requires AllowedWrites(s, a) && AllowedWrites(ApplyWrites(s, a), b)
    ensures AllowedWrites(s, a + b)
    decreases |a|
  {
    if a == [] {
      assert a + b == b;
    } else {
      assert (a + b)[0] == a[0] && (a + b)[1..] == a[1..] + b;
      AllowedWritesConcat(ApplyWrite(s, a[0]), a[1..], b);
    }
  }

  /** What a transaction may already hold when it is committed together with one more write. */
  ghost predicate AllowedBefore(s: State, pending: seq<Write>, w: Write) {
    AllowedWrites(s, pending) && AllowedWrite(ApplyWrites(s, pending), w)
  }

  lemma CommitWith(s: State, pending: seq<Write>, w: Write)
    requires AllowedBefore(s, pending, w)
    ensures Disciplined(s, [Commit(pending + [w])])
    ensures Replay(s, [Commit(pending + [w])]) == ApplyWrite(ApplyWrites(s, pending), w)
  {
    var t := ApplyWrites(s, pending);
    assert [w][1..] == [];
    AllowedWritesConcat(s, pending, [w]);
    ApplyWritesConcat(s, pending, [w]);
    assert ApplyWrites(t, [w]) == ApplyWrite(t, w);
  }

  // ---- session_manager.py ----

  /** The pending writes leave every row's address, device, rate, guest and status alone. */
  ghost predicate RowsSettled(s: State, pending: seq<Write>) {
    var t := ApplyWrites(s, pending);
    && |t.sessions| == |s.sessions|
    && (forall i :: 0 <= i < |s.sessions| ==> SameRow(s.sessions[i], t.sessions[i]))
    && t.whitelist == s.whitelist && t.dnsBypass == s.dnsBypass && t.wan == s.wan && t.ifb == s.ifb
    && t.now == s.now && t.loaded == s.loaded
  }

  /** A device without a live session, and a guest below the cap, may have a new row. */
  lemma InsertAllowed(s: State, q: Request, pending: seq<Write>)
    requires Existing(s, q.mac).None? && AllowedWrites(s, pending) && RowsSettled(s, pending)
    requires q.guest.Some? ==>
               var guests := ApplyWrites(s, pending).guests;
               q.guest.value < |guests| && DevicesOf(s.sessions, q.guest.value) < guests[q.guest.value].maxDevices
    ensures AllowedBefore(s, pending, InsertSession(NewRow(s, q)))
  {
    var t := ApplyWrites(s, pending);
    if q.mac.Some? {
      forall i: nat | Live(t, i) ensures t.sessions[i].mac != q.mac {
        assert SameRow(s.sessions[i], t.sessions[i]);
        assert !LiveWith(s, i, q.mac.value);
      }
    }
    if q.guest.Some? {
      SameRowsSameDevices(s.sessions, t.sessions, q.guest.value);
    }
  }

  lemma {:induction false} SameRowsSameDevices(a: seq<Session>, b: seq<Session>, g: nat)
    requires |a| == |b| && forall i :: 0 <= i < |a| ==> SameRow(a[i], b[i])
    ensures DevicesOf(a, g) == DevicesOf(b, g)
    decreases |a|
  {
    if a != [] {
      SameRowsSameDevices(a[..|a| - 1], b[..|a| - 1], g);
    }
  }

  lemma InsertDisciplined(s: State, q: Request, pending: seq<Write>, env: Env)
    requires AllowedBefore(s, pending, InsertSession(NewRow(s, q))) && RowsSettled(s, pending)
    requires Existing(s, q.mac).None?
    ensures Disciplined(s, CreateTrace(s, q, pending, env).effects)
  {
    var commit := Trace([Commit(pending + [InsertSession(NewRow(s, q))])], false);
    CommitWith(s, pending, InsertSession(NewRow(s, q)));
    var t := Replay(s, commit.effects);
    OpenDisciplined(t, |s.sessions|, q.up, q.down, env);
    assert RulesTrace(t, q.ip, env) == RulesTrace(s, q.ip, env);
    ThenDisciplined(s, commit, Then(RulesTrace(s, q.ip, env), ShapeTrace(q.ip, q.up, q.down, env)));
  }

  lemma MoveDisciplined(s: State, i: nat, ip: Ip, pending: seq<Write>, env: Env)
    requires i < |s.sessions| && s.sessions[i].status == Active
    requires forall t: State :: t.sessions == s.sessions && t.guests == s.guests ==> AllowedWrites(t, pending) && RowsSettled(t, pending)
    ensures var row := s.sessions[i];
            Disciplined(s,
              Then(Then(UnruleTrace(row.ip), UnshapeTrace(row.ip, row.upKbps)),
                   Then(Trace([Commit(pending + [SetIp(i, ip)])], false),
                        Then(RulesTrace(s, ip, env), ShapeTrace(ip, row.upKbps, 0, env)))).effects)
  {
    var row := s.sessions[i];
    var withdraw := Then(UnruleTrace(row.ip), UnshapeTrace(row.ip, row.upKbps));
    var commit := Trace([Commit(pending + [SetIp(i, ip)])], false);
    var open := Then(RulesTrace(s, ip, env), ShapeTrace(ip, row.upKbps, 0, env));
    WithdrawDisciplined(s, i);
    if !withdraw.raised {
      var t := Replay(s, withdraw.effects);
      assert AllowedWrites(t, pending) && RowsSettled(t, pending);
      CommitWith(t, pending, SetIp(i, ip));
      var u := Replay(t, commit.effects);
      OpenDisciplined(u, i, row.upKbps, 0, env);
      assert RulesTrace(u, ip, env) == RulesTrace(s, ip, env);
      ThenDisciplined(t, commit, open);
    }
    ThenDisciplined(s, withdraw, Then(commit, open));
  }

  lemma CreateDisciplined(s: State, q: Request, pending: seq<Write>, env: Env)
    requires q.guest.Some? ==>
               var guests := ApplyWrites(s, pending).guests;
               q.guest.value < |guests| && DevicesOf(s.sessions, q.guest.value) < guests[q.guest.value].maxDevices
    requires forall t: State :: t.sessions == s.sessions && t.guests == s.guests ==> AllowedWrites(t, pending) && RowsSettled(t, pending)
    ensures Disciplined(s, CreateTrace(s, q, pending, env).effects)
  {
    match Existing(s, q.mac)
    case None =>
      InsertAllowed(s, q, pending);
      InsertDisciplined(s, q, pending, env);
    case Some(i) =>
      if s.sessions[i].ip == q.ip {
        OpenDisciplined(s, i, s.sessions[i].upKbps, 0, env);
      } else {
        MoveDisciplined(s, i, q.ip, pending, env);
      }
  }

  lemma ExpireDisciplined(s: State, id: nat, status: Status, pending: seq<Write>)
    requires status != Active && forall w :: w in pending ==> Harmless(w)
    ensures Disciplined(s, ExpireTrace(s, id, status, pending).effects)
  {
    if id < |s.sessions| {
      var row := s.sessions[id];
      var withdraw := Then(UnruleTrace(row.ip), UnshapeTrace(row.ip, row.upKbps));
      WithdrawDisciplined(s, id);
      var t := Replay(s, withdraw.effects);
      if !withdraw.raised {
        HarmlessWrites(t, pending);
        CommitWith(t, pending, SetStatus(id, status));
      }
      ThenDisciplined(s, withdraw, Trace([Commit(pending + [SetStatus(id, status)])], false));
    }
  }

  lemma {:induction false} SweepDisciplined(s: State, ids: seq<nat>, status: Status)
    requires status != Active
    ensures Disciplined(s, SweepTrace(s, ids, status).effects)
    decreases |ids|
  {
    if ids != [] {
      var first := ExpireTrace(s, ids[0], status, []);
      ExpireDisciplined(s, ids[0], status, []);
      SweepDisciplined(Replay(s, first.effects), ids[1..], status);
      ThenDisciplined(s, first, SweepTrace(Replay(s, first.effects), ids[1..], status));
    }
  }

  // ---- portal/router.py and scheduler.py ----

  lemma RoomLoginDisciplined(s: State, ip: Ip, arp: Option<Mac>, info: Option<GuestInfo>, policy: Option<Policy>, env: Env)
    requires Inv(s)
    ensures Disciplined(s, RoomLoginTrace(s, ip, arp, info, policy, env).effects)
  {
    match RoomRequest(s, ip, arp, info, policy)
    case None =>
    case Some((q, pending)) =>
      OneWrite(s, pending[0]);
      assert pending == [pending[0]];
      GuestRowAllowed(s, pending[0]);
      CreateDisciplined(s, q, pending, env);
  }

  lemma GuestRowAllowed(s: State, w: Write)
    requires w.AddGuest? || w.UpdateGuest?
    requires AllowedWrite(s, w)
    ensures forall t: State :: t.sessions == s.sessions && t.guests == s.guests ==> AllowedWrites(t, [w]) && RowsSettled(t, [w])
  {
    forall t: State | t.sessions == s.sessions && t.guests == s.guests
      ensures AllowedWrites(t, [w]) && RowsSettled(t, [w])
    {
      OneWrite(t, w);
    }
  }

  lemma OneWrite(t: State, w: Write)
    ensures AllowedWrites(t, [w]) == AllowedWrite(t, w) && ApplyWrites(t, [w]) == ApplyWrite(t, w)
  {
    assert [w][1..] == [];
  }

  lemma VoucherLoginDisciplined(s: State, ip: Ip, arp: Option<Mac>, code: string, env: Env)
    requires Inv(s)
    ensures Disciplined(s, VoucherLoginTrace(s, ip, arp, code, env).effects)
  {
    match Validate(s, code)
    case Failure(_) =>
    case Success(v) =>
      var q := Request(ip, arp, VoucherExpiry(s, s.vouchers[v]), 0, 0, None, Some(v));
      CreateDisciplined(s, q, [], env);
      var count := SetUsed(v, s.vouchers[v].usedCount + 1);
      var create := CreateTrace(s, q, [], env);
      OneWrite(Replay(s, create.effects), count);
      ThenDisciplined(s, create, Trace([Commit([count])], false));
  }

  lemma {:induction false} BytesDisciplined(s: State, ids: seq<nat>, pending: seq<Write>, show: Listings, k: nat)
    requires forall w :: w in pending ==> Harmless(w)
    ensures Disciplined(s, BytesTrace(s, ids, pending, show, k).effects)
    decreases |ids|
  {
    if ids == [] {
      HarmlessWrites(s, pending);
    } else if ids[0] < |s.sessions| {
      var row := s.sessions[ids[0]];
      match TrafficControl.GetBytes(row.ip, show(k).0, show(k).1)
      case None =>
      case Some((up, down)) =>
        var more := pending + [SetBytes(ids[0], up, down)];
        if OverQuota(s, row, down) {
          var first := ExpireTrace(s, ids[0], Expired, more);
          ExpireDisciplined(s, ids[0], Expired, more);
          BytesDisciplined(Replay(s, first.effects), ids[1..], [], show, k + 1);
          ThenDisciplined(s, first, BytesTrace(Replay(s, first.effects), ids[1..], [], show, k + 1));
        } else {
          BytesDisciplined(s, ids[1..], more, show, k + 1);
        }
    }
  }

  lemma {:induction false} CheckoutsDisciplined(s: State, rooms: seq<string>)
    ensures Disciplined(s, CheckoutsTrace(s, rooms).effects)
    decreases |rooms|
  {
    if rooms != [] {
      var first := CheckoutTrace(s, rooms[0]);
      SweepDisciplined(s, Rows(s, InRoom(rooms[0])), Expired);
      CheckoutsDisciplined(Replay(s, first.effects), rooms[1..]);
      ThenDisciplined(s, first, CheckoutsTrace(Replay(s, first.effects), rooms[1..]));
    }
  }

  lemma PollDisciplined(s: State, rooms: seq<string>)
    ensures Disciplined(s, PollTrace(s, Some(rooms)).effects)
  {
    CheckoutsDisciplined(s, rooms);
    ThenDisciplined(s, CheckoutsTrace(s, rooms), Trace([Commit([SetLastSync(s.now)])], false));
  }

  lemma PortalPageDisciplined(s: State, ip: Ip, arp: Option<Mac>, bypassed: bool, env: Env)
    requires Inv(s)
    ensures Disciplined(s, PortalPageTrace(s, ip, arp, bypassed, env).effects)
  {
    CreateDisciplined(s, Request(ip, arp, s.now + DAY, 0, 0, None, None), [], env);
  }

  lemma RestartDisciplined(s: State)
    ensures Disciplined(s, RESTART.effects)
  {
    var tail := [ClearIfb, AddIfb(DEFAULT_CLASS)];
    var middle := [ClearWan, AddWan(DEFAULT_CLASS)];
    assert RESTART.effects == [DropTable, LoadTable] + (middle + tail);
    ReplayTwo(s, DropTable, LoadTable);
    var t := Replay(s, [DropTable, LoadTable]);
    ReplayTwo(t, ClearWan, AddWan(DEFAULT_CLASS));
    ReplayTwo(Replay(t, middle), ClearIfb, AddIfb(DEFAULT_CLASS));
    DisciplinedConcat(t, middle, tail);
    DisciplinedConcat(s, [DropTable, LoadTable], middle + tail);
  }

  /** Every operation, on every input and with every combination of failing adds, keeps the discipline. */
  lemma OperationDisciplined(s: State, op: Op)
    requires Inv(s)
    ensures Disciplined(s, OpTrace(s, op).effects)
  {
    match op
    case RoomLogin(ip, arp, info, policy, env) => RoomLoginDisciplined(s, ip, arp, info, policy, env);
    case VoucherLogin(ip, arp, code, env) => VoucherLoginDisciplined(s, ip, arp, code, env);
    case PortalPage(ip, arp, bypassed, env) => PortalPageDisciplined(s, ip, arp, bypassed, env);
    case Disconnect(arp) =>
      if ValidateMac(arp).Some? { SweepDisciplined(s, Rows(s, OfDevice(ValidateMac(arp).value)), Kicked); }
    case Kick(id) => ExpireDisciplined(s, id, Kicked, []);
    case ExpireOverdue => SweepDisciplined(s, Rows(s, Overdue), Expired);
    case Checkout(room) => SweepDisciplined(s, Rows(s, InRoom(room)), Expired);
    case PollCheckouts(rooms) => if rooms.Some? { PollDisciplined(s, rooms.value); }
    case SampleBytes(show) => BytesDisciplined(s, Rows(s, AnyActive), [], show, 0);
    case RestartFirewall => RestartDisciplined(s);
    case AllowMac(_) =>
    case DenyMac(_) =>
    case Arrive(_, _, _) =>
    case Tick(_) =>
  }
}
