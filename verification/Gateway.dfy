/**
 The running portal: the tables as mutable fields, changed one effect at a time by
 the nft, tc and database calls, and the classes that call them in order.
 The ghost log keeps every effect, so a method's contract fixes not only the state
 it ends in but every state on the way there.
 */
module Gateway {
  import opened Common
  import opened PortalState
  import opened Invariants
  import opened Operations
  import opened OperationSafety
  import opened Sweeps
  import opened Agreement

  datatype Fault = NftFailed | NoClassId | Refused

  class World {
    var now: int
    var sessions: seq<Session>
    var guests: seq<Guest>
    var vouchers: seq<Voucher>
    var lastSync: int
    var loaded: bool
    var whitelist: set<Ip>
    var dnsBypass: set<Ip>
    var macBypass: set<Mac>
    var marked: set<Connection>
    var wan: set<nat>
    var ifb: set<nat>

    ghost const origin: State
    ghost var log: seq<Effect>

    function Snapshot(): State
      reads this
    {
      State(now, sessions, guests, vouchers, lastSync, loaded, whitelist, dnsBypass, macBypass, marked, wan, ifb)
    }

    /** Everything that ever happened kept the discipline, from a good state on. */
    ghost predicate Valid()
      reads this
    {
      Inv(origin) && Disciplined(origin, log) && Snapshot() == Replay(origin, log)
    }

    constructor (s: State)
      requires Inv(s)
      ensures Valid() && Snapshot() == s && log == [] && origin == s
    {
      now, sessions, guests, vouchers, lastSync := s.now, s.sessions, s.guests, s.vouchers, s.lastSync;
      loaded, whitelist, dnsBypass, macBypass, marked := s.loaded, s.whitelist, s.dnsBypass, s.macBypass, s.marked;
      wan, ifb := s.wan, s.ifb;
      origin, log := s, [];
    }

    /** Every state the world has been in since it was made satisfies the invariant. */
    lemma AlwaysSafe(k: nat)
      requires Valid() && k <= |log|
      ensures Inv(Replay(origin, log[..k]))
    {
      EveryCutIsSafe(origin, log, k);
    }

    // ---- One database commit ----

    method Commit(writes: seq<Write>)
      modifies this
      ensures Snapshot() == Apply(old(Snapshot()), Effect.Commit(writes))
      ensures log == old(log) + [Effect.Commit(writes)]
    {
      var k := 0;
      ghost var before := Snapshot();
      log := log + [Effect.Commit(writes)];
      while k < |writes|
        invariant 0 <= k <= |writes|
        invariant ApplyWrites(before, writes) == ApplyWrites(Snapshot(), writes[k..])
        invariant log == old(log) + [Effect.Commit(writes)]
      {
        ghost var rest := writes[k..];
        assert rest[0] == writes[k] && rest[1..] == writes[k + 1..];
        Store(writes[k]);
        k := k + 1;
      }
    }

    method Store(w: Write)
      modifies this
      ensures Snapshot() == ApplyWrite(old(Snapshot()), w) && log == old(log)
    {
      match w
      case InsertSession(row) => sessions := sessions + [row];
      case SetIp(id, ip) => if id < |sessions| { sessions := sessions[id := sessions[id].(ip := ip)]; }
      case SetStatus(id, status) => if id < |sessions| { sessions := sessions[id := sessions[id].(status := status)]; }
      case SetBytes(id, up, down) =>
        if id < |sessions| { sessions := sessions[id := sessions[id].(bytesUp := up, bytesDown := down)]; }
      case AddGuest(g) => guests := guests + [g];
      case UpdateGuest(id, lastName, checkIn, checkOut) =>
        if id < |guests| {
          guests := guests[id := guests[id].(lastName := lastName, checkIn := checkIn, checkOut := checkOut)];
        }
      case SetUsed(id, count) => if id < |vouchers| { vouchers := vouchers[id := vouchers[id].(usedCount := count)]; }
      case SetLastSync(at) => lastSync := at;
    }

    // ---- nftables.py: the adds raise when nft fails, the deletes never do ----

    method AddToWhitelist(ip: Ip, nftOk: bool) returns (ok: bool)
      modifies this
      ensures ok <==> nftOk && old(loaded) && ip.V4?
      ensures ok ==> Snapshot() == Apply(old(Snapshot()), AddWhitelist(ip)) && log == old(log) + [AddWhitelist(ip)]
      ensures !ok ==> Snapshot() == old(Snapshot()) && log == old(log)
    {
      ok := nftOk && loaded && ip.V4?;
      if ok {
        whitelist := whitelist + {ip};
        log := log + [AddWhitelist(ip)];
      }
    }

    method RemoveFromWhitelist(ip: Ip)
      modifies this
      ensures Snapshot() == Apply(old(Snapshot()), DelWhitelist(ip)) && log == old(log) + [DelWhitelist(ip)]
    {
      whitelist := whitelist - {ip};
      log := log + [DelWhitelist(ip)];
    }

    method AddDnsBypass(ip: Ip, nftOk: bool) returns (ok: bool)
      modifies this
      ensures ok <==> nftOk && old(loaded) && ip.V4?
      ensures ok ==> Snapshot() == Apply(old(Snapshot()), AddDns(ip)) && log == old(log) + [AddDns(ip)]
      ensures !ok ==> Snapshot() == old(Snapshot()) && log == old(log)
    {
      ok := nftOk && loaded && ip.V4?;
      if ok {
        dnsBypass := dnsBypass + {ip};
        log := log + [AddDns(ip)];
      }
    }

    method RemoveDnsBypass(ip: Ip)
      modifies this
      ensures Snapshot() == Apply(old(Snapshot()), DelDns(ip)) && log == old(log) + [DelDns(ip)]
    {
      dnsBypass := dnsBypass - {ip};
      log := log + [DelDns(ip)];
    }

    /** create_session_rules: whitelist first; a failure leaves what was added. */
    method CreateSessionRules(ip: Ip, env: Env) returns (ok: bool)
      modifies this
      ensures var t := RulesTrace(old(Snapshot()), ip, env);
              ok == !t.raised && Snapshot() == Replay(old(Snapshot()), t.effects) && log == old(log) + t.effects
    {
      ghost var s := Snapshot();
      ReplayOne(s, AddWhitelist(ip));
      ReplayTwo(s, AddWhitelist(ip), AddDns(ip));
      ok := AddToWhitelist(ip, env.whitelistOk);
      if ok {
        ok := AddDnsBypass(ip, env.dnsOk);
      }
    }

    /** remove_session_rules */
    method RemoveSessionRules(ip: Ip)
      modifies this
      ensures Snapshot() == Replay(old(Snapshot()), UnruleTrace(ip).effects) && log == old(log) + UnruleTrace(ip).effects
    {
      ReplayTwo(Snapshot(), DelWhitelist(ip), DelDns(ip));
      RemoveFromWhitelist(ip);
      RemoveDnsBypass(ip);
    }

    // ---- tc.py: failures of the commands are ignored ----

    /** apply_bandwidth_limit */
    method ApplyBandwidthLimit(ip: Ip, up: int, down: int, env: Env) returns (ok: bool)
      modifies this
      ensures var t := ShapeTrace(ip, up, down, env);
              ok == !t.raised && Snapshot() == Replay(old(Snapshot()), t.effects) && log == old(log) + t.effects
    {
      if up == 0 && down == 0 { return true; }
      if !ip.V4? { return false; }
      var id := ClassId(ip);
      ghost var s := Snapshot();
      ReplayOne(s, AddWan(id));
      ReplayOne(s, AddIfb(id));
      ReplayTwo(s, AddWan(id), AddIfb(id));
      assert [AddWan(id)] + [AddIfb(id)] == [AddWan(id), AddIfb(id)];
      if down > 0 && env.wanOk {
        wan := wan + {id};
        log := log + [AddWan(id)];
      }
      if up > 0 && env.ifbOk {
        ifb := ifb + {id};
        log := log + [AddIfb(id)];
      }
      ok := true;
    }

    /** remove_bandwidth_limit */
    method RemoveBandwidthLimit(ip: Ip, up: int) returns (ok: bool)
      modifies this
      ensures var t := UnshapeTrace(ip, up);
              ok == !t.raised && Snapshot() == Replay(old(Snapshot()), t.effects) && log == old(log) + t.effects
    {
      if !ip.V4? { return false; }
      var id := ClassId(ip);
      ghost var s := Snapshot();
      ReplayOne(s, DelWan(id));
      ReplayTwo(s, DelWan(id), DelIfb(id));
      assert [DelWan(id)] + [DelIfb(id)] == [DelWan(id), DelIfb(id)];
      wan := wan - {id};
      log := log + [DelWan(id)];
      if up > 0 {
        ifb := ifb - {id};
        log := log + [DelIfb(id)];
      }
      ok := true;
    }

    /** The kernel state the set-up script recreates, step after step. */
    method RestartFirewall()
      requires Valid()
      modifies this
      ensures Valid() && log == old(log) + RESTART.effects
      ensures Snapshot() == old(Snapshot()).(loaded := true, whitelist := {}, dnsBypass := {}, macBypass := {},
                                             wan := {DEFAULT_CLASS}, ifb := {DEFAULT_CLASS})
    {
      ghost var s := Snapshot();
      RestartSteps();
      RestartOutcome(s);
      Extend(s, old(log), Operations.RestartFirewall);
    }

    method RestartSteps()
      modifies this
      ensures log == old(log) + RESTART.effects
      ensures Snapshot() == old(Snapshot()).(loaded := true, whitelist := {}, dnsBypass := {}, macBypass := {},
                                             wan := {DEFAULT_CLASS}, ifb := {DEFAULT_CLASS})
    {
      RecreateTable();
      RecreateWan();
      RecreateIfb();
      assert RESTART.effects ==
             [DropTable, LoadTable] + [ClearWan, AddWan(DEFAULT_CLASS)] + [ClearIfb, AddIfb(DEFAULT_CLASS)];
    }

    method RecreateTable()
      modifies this
      ensures log == old(log) + [DropTable, LoadTable]
      ensures Snapshot() == old(Snapshot()).(loaded := true, whitelist := {}, dnsBypass := {}, macBypass := {})
    {
      loaded, whitelist, dnsBypass, macBypass := false, {}, {}, {};
      log := log + [DropTable];
      loaded := true;
      log := log + [LoadTable];
    }

    method RecreateWan()
      modifies this
      ensures log == old(log) + [ClearWan, AddWan(DEFAULT_CLASS)]
      ensures Snapshot() == old(Snapshot()).(wan := {DEFAULT_CLASS})
    {
      wan := {};
      log := log + [ClearWan];
      wan := wan + {DEFAULT_CLASS};
      log := log + [AddWan(DEFAULT_CLASS)];
    }

    method RecreateIfb()
      modifies this
      ensures log == old(log) + [ClearIfb, AddIfb(DEFAULT_CLASS)]
      ensures Snapshot() == old(Snapshot()).(ifb := {DEFAULT_CLASS})
    {
      ifb := {};
      log := log + [ClearIfb];
      ifb := ifb + {DEFAULT_CLASS};
      log := log + [AddIfb(DEFAULT_CLASS)];
    }

    /** Appending the effects of a whole operation, or the first of them, keeps the world valid. */
    lemma Extend(s: State, before: seq<Effect>, op: Op)
      requires Inv(origin) && Disciplined(origin, before) && s == Replay(origin, before)
      requires log == before + OpTrace(s, op).effects && Snapshot() == Replay(s, OpTrace(s, op).effects)
      ensures Valid()
    {
      EveryCutIsSafe(origin, before, |before|);
      assert before[..|before|] == before;
      OperationDisciplined(s, op);
      DisciplinedConcat(origin, before, OpTrace(s, op).effects);
      ReplayConcat(origin, before, OpTrace(s, op).effects);
    }
  }

  /** The database session of one request or job: writes wait until they are committed together. */
  class Transaction {
    const world: World
    var pending: seq<Write>

    constructor (world: World)
      ensures this.world == world && pending == []
    {
      this.world, pending := world, [];
    }

    method Stage(w: Write)
      modifies this
      ensures pending == old(pending) + [w]
    {
      pending := pending + [w];
    }

    method Commit()
      modifies this, world
      ensures world.Snapshot() == Apply(old(world.Snapshot()), Effect.Commit(old(pending)))
      ensures world.log == old(world.log) + [Effect.Commit(old(pending))]
      ensures pending == []
    {
      world.Commit(pending);
      pending := [];
    }

    /** One more write, committed on its own. */
    method CommitOne(w: Write)
      requires pending == []
      modifies this, world
      ensures world.Snapshot() == Replay(old(world.Snapshot()), [Effect.Commit([w])])
      ensures world.log == old(world.log) + [Effect.Commit([w])]
      ensures pending == []
    {
      ghost var s := world.Snapshot();
      Stage(w);
      assert pending == [w];
      Commit();
      ReplayOne(s, Effect.Commit([w]));
    }
  }

  lemma Chain(s: State, log: seq<Effect>, a: seq<Effect>, b: seq<Effect>)
    ensures (log + a) + b == log + (a + b)
    ensures Replay(Replay(s, a), b) == Replay(s, a + b)
  {
    ReplayConcat(s, a, b);
  }

  /** Unrolling the sweep by the session at position k. */
  lemma SweepNext(done: seq<Effect>, t: State, ids: seq<nat>, k: nat, status: Status)
    requires k < |ids|
    ensures var first := ExpireTrace(t, ids[k], status, []);
            Then(Trace(done, false), SweepTrace(t, ids[k..], status)) ==
            if first.raised then Trace(done + first.effects, true)
            else Then(Trace(done + first.effects, false), SweepTrace(Replay(t, first.effects), ids[k + 1..], status))
  {
    var first := ExpireTrace(t, ids[k], status, []);
    var rest := SweepTrace(Replay(t, first.effects), ids[k + 1..], status);
    assert ids[k..][0] == ids[k] && ids[k..][1..] == ids[k + 1..];
    assert done + (first.effects + rest.effects) == (done + first.effects) + rest.effects;
  }

  class SessionManager {
    const world: World

    constructor (world: World)
      ensures this.world == world
    {
      this.world := world;
    }

    /**
     create_session: a live session of the same device is reused, moved if its address
     changed; otherwise a new row is committed.  Only then are the address and the
     classes opened.
     */
    method CreateSession(db: Transaction, q: Request, env: Env) returns (r: Result<nat, Fault>)
      requires db.world == world
      modifies world, db
      ensures var t := CreateTrace(old(world.Snapshot()), q, old(db.pending), env);
              && (r.Failure? <==> t.raised)
              && world.Snapshot() == Replay(old(world.Snapshot()), t.effects)
              && world.log == old(world.log) + t.effects
      ensures r.Success? && GuestWrites(old(db.pending)) ==>
                && HoldsIp(world.Snapshot(), r.value, q.ip)
                && world.sessions[r.value].mac == q.mac
                && q.ip in world.whitelist && q.ip in world.dnsBypass
      ensures r.Success? ==> db.pending == [] || db.pending == old(db.pending)
    {
      CreatedRow(world.Snapshot(), q, db.pending, env);
      var existing := Existing(world.Snapshot(), q.mac);
      if existing.Some? {
        var row := world.sessions[existing.value];
        var ok := true;
        if row.ip != q.ip {
          r := MoveSession(db, existing.value, q.ip, env);
        } else {
          ok := Open(q.ip, row.upKbps, 0, env);
          r := if ok then Success(existing.value) else Failure(NftFailed);
        }
      } else {
        r := NewSession(db, q, env);
      }
    }

    /** The device is back under another address: close the old one, commit the new one, open it. */
    method MoveSession(db: Transaction, id: nat, ip: Ip, env: Env) returns (r: Result<nat, Fault>)
      requires db.world == world && id < |world.sessions|
      modifies world, db
      ensures var row := old(world.sessions)[id];
              var t := Then(Then(UnruleTrace(row.ip), UnshapeTrace(row.ip, row.upKbps)),
                            Then(Trace([Effect.Commit(old(db.pending) + [SetIp(id, ip)])], false),
                                 Then(RulesTrace(old(world.Snapshot()), ip, env), ShapeTrace(ip, row.upKbps, 0, env))));
              && (r.Failure? <==> t.raised)
              && world.Snapshot() == Replay(old(world.Snapshot()), t.effects)
              && world.log == old(world.log) + t.effects
      ensures r.Success? ==> r.value == id && db.pending == []
    {
      ghost var s, log, pending := world.Snapshot(), world.log, db.pending;
      var row := world.sessions[id];
      WithdrawOutcome(s, id);
      ghost var unrule, unshape := UnruleTrace(row.ip), UnshapeTrace(row.ip, row.upKbps);
      ghost var rest := Then(Trace([Effect.Commit(pending + [SetIp(id, ip)])], false),
                             Then(RulesTrace(s, ip, env), ShapeTrace(ip, row.upKbps, 0, env)));
      world.RemoveSessionRules(row.ip);
      var ok := world.RemoveBandwidthLimit(row.ip, row.upKbps);
      Chain(s, log, unrule.effects, unshape.effects);
      if !ok { return Failure(NoClassId); }
      ghost var t := world.Snapshot();
      db.Stage(SetIp(id, ip));
      ok := CommitAndOpen(db, ip, row.upKbps, 0, env);
      assert RulesTrace(t, ip, env) == RulesTrace(s, ip, env);
      Chain(s, log, Then(unrule, unshape).effects, rest.effects);
      r := if ok then Success(id) else Failure(NftFailed);
    }

    method NewSession(db: Transaction, q: Request, env: Env) returns (r: Result<nat, Fault>)
      requires db.world == world
      modifies world, db
      ensures var t := Then(Trace([Effect.Commit(old(db.pending) + [InsertSession(NewRow(old(world.Snapshot()), q))])], false),
                            Then(RulesTrace(old(world.Snapshot()), q.ip, env), ShapeTrace(q.ip, q.up, q.down, env)));
              && (r.Failure? <==> t.raised)
              && world.Snapshot() == Replay(old(world.Snapshot()), t.effects)
              && world.log == old(world.log) + t.effects
      ensures r.Success? ==> r.value == |old(world.sessions)| && db.pending == []
    {
      var id := |world.sessions|;
      db.Stage(InsertSession(NewRow(world.Snapshot(), q)));
      var ok := CommitAndOpen(db, q.ip, q.up, q.down, env);
      r := if ok then Success(id) else Failure(NftFailed);
    }

    method CommitAndOpen(db: Transaction, ip: Ip, up: int, down: int, env: Env) returns (ok: bool)
      requires db.world == world
      modifies world, db
      ensures var t := Then(Trace([Effect.Commit(old(db.pending))], false),
                            Then(RulesTrace(old(world.Snapshot()), ip, env), ShapeTrace(ip, up, down, env)));
              && ok == !t.raised
              && world.Snapshot() == Replay(old(world.Snapshot()), t.effects)
              && world.log == old(world.log) + t.effects
      ensures db.pending == []
    {
      ghost var s, log, pending := world.Snapshot(), world.log, db.pending;
      db.Commit();
      ReplayOne(s, Effect.Commit(pending));
      WritesKeepKernel(s, pending);
      ghost var u := world.Snapshot();
      assert RulesTrace(u, ip, env) == RulesTrace(s, ip, env);
      ok := Open(ip, up, down, env);
      Chain(s, log, [Effect.Commit(pending)], Then(RulesTrace(s, ip, env), ShapeTrace(ip, up, down, env)).effects);
    }

    /** The common last part: the set elements, then the classes. */
    method Open(ip: Ip, up: int, down: int, env: Env) returns (ok: bool)
      modifies world
      ensures var t := Then(RulesTrace(old(world.Snapshot()), ip, env), ShapeTrace(ip, up, down, env));
              && ok == !t.raised
              && world.Snapshot() == Replay(old(world.Snapshot()), t.effects)
              && world.log == old(world.log) + t.effects
    {
      ghost var s, log := world.Snapshot(), world.log;
      ok := world.CreateSessionRules(ip, env);
      Chain(s, log, RulesTrace(s, ip, env).effects, ShapeTrace(ip, up, down, env).effects);
      if ok {
        ok := world.ApplyBandwidthLimit(ip, up, down, env);
      }
    }

    /** expire_session: close first, then commit the status with whatever was waiting. */
    method ExpireSession(db: Transaction, id: nat, status: Status) returns (r: Result<(), Fault>)
      requires db.world == world && id < |world.sessions|
      modifies world, db
      ensures var t := ExpireTrace(old(world.Snapshot()), id, status, old(db.pending));
              && (r.Failure? <==> t.raised)
              && world.Snapshot() == Replay(old(world.Snapshot()), t.effects)
              && world.log == old(world.log) + t.effects
      ensures r.Success? ==> db.pending == []
      ensures old(db.pending) == [] ==> |world.sessions| == |old(world.sessions)|
      ensures r.Failure? <==> !old(world.sessions)[id].ip.V4?
      ensures r.Failure? ==> db.pending == old(db.pending)
    {
      ghost var s, log, pending := world.Snapshot(), world.log, db.pending;
      ExpireOutcome(s, id, status, pending);
      WithdrawDisciplined(s, id);
      var row := world.sessions[id];
      world.RemoveSessionRules(row.ip);
      var ok := world.RemoveBandwidthLimit(row.ip, row.upKbps);
      ghost var unrule, unshape := UnruleTrace(row.ip).effects, UnshapeTrace(row.ip, row.upKbps).effects;
      Chain(s, log, unrule, unshape);
      if !ok { return Failure(NoClassId); }
      ghost var t := world.Snapshot();
      db.Stage(SetStatus(id, status));
      db.Commit();
      ghost var last := [Effect.Commit(pending + [SetStatus(id, status)])];
      ReplayOne(t, last[0]);
      Chain(s, log, unrule + unshape, last);
      r := Success(());
    }

    /** The loop the sweeps share; the exception of one expiry ends it. */
    method ExpireEach(db: Transaction, ids: seq<nat>, status: Status) returns (r: Result<nat, Fault>)
      requires db.world == world && db.pending == [] && KnownIds(world.Snapshot(), ids)
      modifies world, db
      ensures var t := SweepTrace(old(world.Snapshot()), ids, status);
              && (r.Failure? <==> t.raised)
              && world.Snapshot() == Replay(old(world.Snapshot()), t.effects)
              && world.log == old(world.log) + t.effects
      ensures r.Success? ==> r.value == |ids| && db.pending == []
    {
      ghost var s, log := world.Snapshot(), world.log;
      ghost var done: seq<Effect> := [];
      ghost var all := SweepTrace(s, ids, status);
      var k := 0;
      assert ids[0..] == ids && Then(Trace([], false), all) == all;
      while k < |ids|
        invariant 0 <= k <= |ids| && db.pending == []
        invariant world.Snapshot() == Replay(s, done) && world.log == log + done
        invariant KnownIds(world.Snapshot(), ids)
        invariant all == Then(Trace(done, false), SweepTrace(world.Snapshot(), ids[k..], status))
      {
        ghost var first := ExpireTrace(world.Snapshot(), ids[k], status, []);
        SweepNext(done, world.Snapshot(), ids, k, status);
        Chain(s, log, done, first.effects);
        var one := ExpireSession(db, ids[k], status);
        if one.Failure? { return Failure(one.error); }
        done := done + first.effects;
        k := k + 1;
      }
      assert ids[|ids|..] == [];
      assert done + [] == done;
      r := Success(|ids|);
    }

    /** A sweep, and what it comes to. */
    method ExpireAll(db: Transaction, ids: seq<nat>, status: Status) returns (r: Result<nat, Fault>)
      requires db.world == world && db.pending == [] && KnownIds(world.Snapshot(), ids)
      modifies world, db
      ensures var t := SweepTrace(old(world.Snapshot()), ids, status);
              && (r.Failure? <==> t.raised)
              && world.Snapshot() == Replay(old(world.Snapshot()), t.effects)
              && world.log == old(world.log) + t.effects
      ensures r.Success? ==> r.value == |ids| && db.pending == []
                             && world.Snapshot() == Swept(old(world.Snapshot()), ids, status)
      ensures r.Failure? <==> !AllIpv4(old(world.Snapshot()), ids)
    {
      SweepOutcome(world.Snapshot(), ids, status);
      r := ExpireEach(db, ids, status);
    }

    /** expire_sessions_for_room */
    method ExpireSessionsForRoom(db: Transaction, room: string) returns (r: Result<nat, Fault>)
      requires db.world == world && db.pending == []
      modifies world, db
      ensures var t := CheckoutTrace(old(world.Snapshot()), room);
              && (r.Failure? <==> t.raised)
              && world.Snapshot() == Replay(old(world.Snapshot()), t.effects)
              && world.log == old(world.log) + t.effects
      ensures r.Success? ==> NobodyIn(world.Snapshot(), room) && db.pending == []
    {
      ghost var s := world.Snapshot();
      var ids := Rows(world.Snapshot(), InRoom(room));
      r := ExpireAll(db, ids, Expired);
      if r.Success? { CheckoutEmpties(s, room); }
    }

    /** expire_overdue_sessions */
    method ExpireOverdueSessions(db: Transaction) returns (r: Result<nat, Fault>)
      requires db.world == world && db.pending == []
      modifies world, db
      ensures var t := SweepTrace(old(world.Snapshot()), Rows(old(world.Snapshot()), Overdue), Expired);
              && (r.Failure? <==> t.raised)
              && world.Snapshot() == Replay(old(world.Snapshot()), t.effects)
              && world.log == old(world.log) + t.effects
      ensures r.Success? ==> forall i: nat :: !Selected(world.Snapshot(), Overdue, i)
    {
      ghost var s := world.Snapshot();
      var ids := Rows(world.Snapshot(), Overdue);
      r := ExpireAll(db, ids, Expired);
      if r.Success? {
        forall i: nat ensures !Selected(world.Snapshot(), Overdue, i) {
          if i < |s.sessions| && i !in ids { assert !Selected(s, Overdue, i); }
        }
      }
    }
  }

  /** The row create_session returns holds the client's address and device. */
  lemma CreatedRow(s: State, q: Request, pending: seq<Write>, env: Env)
    ensures var t := CreateTrace(s, q, pending, env);
            var u := Replay(s, t.effects);
            var id := if Existing(s, q.mac).Some? then Existing(s, q.mac).value else |s.sessions|;
            !t.raised && GuestWrites(pending) ==>
              HoldsIp(u, id, q.ip) && u.sessions[id].mac == q.mac && q.ip in u.whitelist && q.ip in u.dnsBypass
  {
    CreateOutcome(s, q, pending, env);
    if GuestWrites(pending) {
      GuestWritesKeepRows(s, pending);
      if Moves(s, q) { GuestWritesKeepRows(Closed(s, [Existing(s, q.mac).value]), pending); }
    }
  }
}
