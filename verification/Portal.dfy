/**
 The callers of the session manager: portal requests, the admin's kick and the
 scheduler's jobs.  Each is proved to have exactly the effects of its operation, so
 the world stays valid through it; what it achieves for its caller is stated beside.
 */
module Portal {
  import opened Common
  import opened PortalState
  import opened Invariants
  import opened Operations
  import opened OperationSafety
  import opened Sweeps
  import opened Agreement
  import opened Gateway

  /** What portal_login shows. */
  datatype Page = LoginPage | DisconnectPage(expiresAt: int) | SuccessPage(session: nat)

  class Router {
    const world: World
    const manager: SessionManager

    constructor (world: World)
      ensures this.world == world && manager.world == world
    {
      this.world := world;
      manager := new SessionManager(world);
    }

    /** auth_room, after the guest has been looked up at the PMS. */
    method AuthRoom(ip: Ip, arp: Option<Mac>, info: Option<GuestInfo>, policy: Option<Policy>, env: Env)
      returns (r: Result<nat, Fault>)
      requires manager.world == world && world.Valid()
      modifies world
      ensures world.Valid()
      ensures var t := RoomLoginTrace(old(world.Snapshot()), ip, arp, info, policy, env);
              && (r.Failure? <==> t.raised)
              && world.Snapshot() == Replay(old(world.Snapshot()), t.effects)
              && world.log == old(world.log) + t.effects
      ensures r.Success? ==> HoldsIp(world.Snapshot(), r.value, ip) && ip in world.whitelist && ip in world.dnsBypass
    {
      ghost var s, log := world.Snapshot(), world.log;
      ghost var op := RoomLogin(ip, arp, info, policy, env);
      if info.None? { world.Extend(s, log, op); return Failure(Refused); }
      var found := MatchingGuests(world.guests, info.value, |world.guests|);
      if |found| > 1 { world.Extend(s, log, op); return Failure(Refused); }
      var expiresAt := RoomExpiry(world.Snapshot(), info.value, policy);
      var up, down := 0, 0;
      if policy.Some? { up, down := policy.value.up, policy.value.down; }
      var db := new Transaction(world);
      var id, limit := |world.guests|, 3;
      var i := info.value;
      var row := AddGuest(Guest(i.room, i.lastName, i.pmsId, i.checkIn, i.checkOut, 3));
      if found != [] {
        id := found[0];
        limit := world.guests[id].maxDevices;
        row := UpdateGuest(id, i.lastName, i.checkIn, i.checkOut);
      }
      db.Stage(row);
      assert db.pending == [row];
      if DevicesOf(world.sessions, id) >= limit { world.Extend(s, log, op); return Failure(Refused); }
      assert GuestWrites(db.pending);
      ghost var q := Request(ip, arp, expiresAt, up, down, Some(id), None);
      assert RoomRequest(s, ip, arp, info, policy) == Some((q, db.pending));
      r := manager.CreateSession(db, Request(ip, arp, expiresAt, up, down, Some(id), None), env);
      world.Extend(s, log, op);
    }

    /** auth_voucher */
    method AuthVoucher(ip: Ip, arp: Option<Mac>, code: string, env: Env) returns (r: Result<nat, Fault>)
      requires manager.world == world && world.Valid()
      modifies world
      ensures world.Valid()
      ensures var t := VoucherLoginTrace(old(world.Snapshot()), ip, arp, code, env);
              && (r.Failure? <==> t.raised)
              && world.Snapshot() == Replay(old(world.Snapshot()), t.effects)
              && world.log == old(world.log) + t.effects
      ensures r.Success? ==> HoldsIp(world.Snapshot(), r.value, ip) && ip in world.whitelist && ip in world.dnsBypass
    {
      ghost var s, log := world.Snapshot(), world.log;
      ghost var op := VoucherLogin(ip, arp, code, env);
      var valid := Validate(world.Snapshot(), code);
      if valid.Failure? { world.Extend(s, log, op); return Failure(Refused); }
      var v := valid.value;
      r := OpenAndCount(v, ip, arp, env);
      world.Extend(s, log, op);
    }

    /** The session first, the use after it. */
    method OpenAndCount(v: nat, ip: Ip, arp: Option<Mac>, env: Env) returns (r: Result<nat, Fault>)
      requires manager.world == world && v < |world.vouchers|
      modifies world
      ensures var s := old(world.Snapshot());
              var q := Request(ip, arp, VoucherExpiry(s, s.vouchers[v]), 0, 0, None, Some(v));
              var t := Then(CreateTrace(s, q, [], env), Trace([Effect.Commit([SetUsed(v, s.vouchers[v].usedCount + 1)])], false));
              && (r.Failure? <==> t.raised)
              && world.Snapshot() == Replay(s, t.effects)
              && world.log == old(world.log) + t.effects
      ensures r.Success? ==> HoldsIp(world.Snapshot(), r.value, ip) && ip in world.whitelist && ip in world.dnsBypass
    {
      ghost var s, log := world.Snapshot(), world.log;
      var voucher := world.vouchers[v];
      var q := Request(ip, arp, VoucherExpiry(world.Snapshot(), voucher), 0, 0, None, Some(v));
      var db := new Transaction(world);
      r := manager.CreateSession(db, q, env);
      ghost var create := CreateTrace(s, q, [], env);
      var use := SetUsed(v, voucher.usedCount + 1);
      Chain(s, log, create.effects, [Effect.Commit([use])]);
      if r.Success? {
        db.CommitOne(use);
        CountKeepsRows(Replay(s, create.effects), use);
      }
    }

    /** portal_login, with the answer of the bypass lookup. */
    method PortalLogin(ip: Ip, arp: Option<Mac>, bypassed: bool, env: Env) returns (r: Result<Page, Fault>)
      requires manager.world == world && world.Valid()
      modifies world
      ensures world.Valid()
      ensures var t := PortalPageTrace(old(world.Snapshot()), ip, arp, bypassed, env);
              && (r.Failure? <==> t.raised)
              && world.Snapshot() == Replay(old(world.Snapshot()), t.effects)
              && world.log == old(world.log) + t.effects
      ensures r.Success? ==> PageFits(old(world.Snapshot()), arp, bypassed, r.value)
      ensures r.Success? && r.value.SuccessPage? ==>
                HoldsIp(world.Snapshot(), r.value.session, ip) && ip in world.whitelist && ip in world.dnsBypass
    {
      ghost var s, log := world.Snapshot(), world.log;
      ghost var op := PortalPage(ip, arp, bypassed, env);
      r := Success(LoginPage);
      var mac := ValidateMac(arp);
      if mac.Some? {
        var own := Rows(world.Snapshot(), OfDevice(mac.value));
        if |own| > 1 {
          r := Failure(Refused);
        } else if |own| == 1 {
          OnlyRow(s, OfDevice(mac.value), own[0]);
          r := Success(DisconnectPage(world.sessions[own[0]].expiresAt));
        } else if bypassed {
          NoRow(s, OfDevice(mac.value));
          var db := new Transaction(world);
          var q := Request(ip, arp, world.now + DAY, 0, 0, None, None);
          var created := manager.CreateSession(db, q, env);
          r := match created case Success(id) => Success(SuccessPage(id)) case Failure(e) => Failure(e);
        } else {
          NoRow(s, OfDevice(mac.value));
        }
      }
      world.Extend(s, log, op);
    }

    /** disconnect: every active session found under the validated MAC is kicked. */
    method DisconnectDevice(arp: Option<Mac>) returns (r: Result<nat, Fault>)
      requires manager.world == world && world.Valid()
      modifies world
      ensures world.Valid()
      ensures var t := DisconnectTrace(old(world.Snapshot()), arp);
              && (r.Failure? <==> t.raised)
              && world.Snapshot() == Replay(old(world.Snapshot()), t.effects)
              && world.log == old(world.log) + t.effects
    {
      ghost var s, log := world.Snapshot(), world.log;
      var mac := ValidateMac(arp);
      r := Success(0);
      if mac.Some? {
        var ids := Rows(world.Snapshot(), OfDevice(mac.value));
        var db := new Transaction(world);
        r := manager.ExpireAll(db, ids, Kicked);
      }
      world.Extend(s, log, Disconnect(arp));
    }

    /** kick_session: any session that exists, whatever its status; otherwise not found. */
    method KickSession(id: nat) returns (r: Result<bool, Fault>)
      requires manager.world == world && world.Valid()
      modifies world
      ensures world.Valid()
      ensures var t := ExpireTrace(old(world.Snapshot()), id, Kicked, []);
              && (r.Failure? <==> t.raised)
              && world.Snapshot() == Replay(old(world.Snapshot()), t.effects)
              && world.log == old(world.log) + t.effects
      ensures r.Success? ==> r.value == (id < |old(world.sessions)|)
    {
      ghost var s, log := world.Snapshot(), world.log;
      r := Success(false);
      if id < |world.sessions| {
        var db := new Transaction(world);
        var done := manager.ExpireSession(db, id, Kicked);
        r := match done case Success(_) => Success(true) case Failure(e) => Failure(e);
      }
      world.Extend(s, log, Kick(id));
    }
  }

  /** Who is shown which page: the device's one open session, the auto-login of a bypassed device, or the form. */
  ghost predicate PageFits(s: State, arp: Option<Mac>, bypassed: bool, page: Page) {
    match ValidateMac(arp)
    case None => page == LoginPage
    case Some(mac) =>
      match page
      case DisconnectPage(end) =>
        exists i: nat :: Selected(s, OfDevice(mac), i) && s.sessions[i].expiresAt == end
                         && forall j: nat :: Selected(s, OfDevice(mac), j) ==> j == i
      case SuccessPage(_) => bypassed && NoneOf(s, mac)
      case LoginPage => !bypassed && NoneOf(s, mac)
  }

  lemma OnlyRow(s: State, f: Filter, i: nat)
    requires Rows(s, f) == [i]
    ensures Selected(s, f, i) && forall j: nat :: Selected(s, f, j) ==> j == i
  {
    RowsKnown(s, f);
    assert i in [i];
    forall j: nat | Selected(s, f, j) ensures j == i { assert j in Rows(s, f); }
  }

  lemma NoRow(s: State, f: Filter)
    requires Rows(s, f) == []
    ensures forall i: nat :: !Selected(s, f, i)
  {
    RowsKnown(s, f);
    forall i: nat ensures !Selected(s, f, i) { assert i !in Rows(s, f); }
  }

  lemma CountKeepsRows(t: State, w: Write)
    requires w.SetUsed?
    ensures var u := Replay(t, [Effect.Commit([w])]);
            u.sessions == t.sessions && u.whitelist == t.whitelist && u.dnsBypass == t.dnsBypass
  {
    ReplayOne(t, Effect.Commit([w]));
    OneWrite(t, w);
  }

  /** Unrolling the room checkouts by the room at position k. */
  lemma CheckoutsNext(done: seq<Effect>, t: State, rooms: seq<string>, k: nat)
    requires k < |rooms|
    ensures var first := CheckoutTrace(t, rooms[k]);
            Then(Trace(done, false), CheckoutsTrace(t, rooms[k..])) ==
            if first.raised then Trace(done + first.effects, true)
            else Then(Trace(done + first.effects, false), CheckoutsTrace(Replay(t, first.effects), rooms[k + 1..]))
  {
    var first := CheckoutTrace(t, rooms[k]);
    var rest := CheckoutsTrace(Replay(t, first.effects), rooms[k + 1..]);
    assert rooms[k..][0] == rooms[k] && rooms[k..][1..] == rooms[k + 1..];
    assert done + (first.effects + rest.effects) == (done + first.effects) + rest.effects;
  }

  lemma CheckoutsKeepClock(s: State, rooms: seq<string>)
    requires !CheckoutsTrace(s, rooms).raised
    ensures Replay(s, CheckoutsTrace(s, rooms).effects).now == s.now
  {
    CheckoutsOutcome(s, rooms);
  }

  /** Unrolling the byte sampling by the session at position k. */
  lemma BytesNext(done: seq<Effect>, t: State, ids: seq<nat>, k: nat, pending: seq<Write>, show: Listings)
    requires k < |ids| && ids[k] < |t.sessions| && t.sessions[ids[k]].ip.V4?
    ensures var (up, down) := Reading(t, ids[k], show, k);
            var more := pending + [SetBytes(ids[k], up, down)];
            var first := ExpireTrace(t, ids[k], Expired, more);
            Then(Trace(done, false), BytesTrace(t, ids[k..], pending, show, k)) ==
            if OverQuota(t, t.sessions[ids[k]], down)
            then Then(Trace(done + first.effects, false), BytesTrace(Replay(t, first.effects), ids[k + 1..], [], show, k + 1))
            else Then(Trace(done, false), BytesTrace(t, ids[k + 1..], more, show, k + 1))
  {
    var (up, down) := Reading(t, ids[k], show, k);
    var more := pending + [SetBytes(ids[k], up, down)];
    assert ids[k..][0] == ids[k] && ids[k..][1..] == ids[k + 1..];
    if OverQuota(t, t.sessions[ids[k]], down) {
      var first := ExpireTrace(t, ids[k], Expired, more);
      ExpireOutcome(t, ids[k], Expired, more);
      var rest := BytesTrace(Replay(t, first.effects), ids[k + 1..], [], show, k + 1);
      assert done + (first.effects + rest.effects) == (done + first.effects) + rest.effects;
    }
  }

  class Scheduler {
    const world: World
    const manager: SessionManager

    constructor (world: World)
      ensures this.world == world && manager.world == world
    {
      this.world := world;
      manager := new SessionManager(world);
    }

    /** _expire_job */
    method ExpireJob() returns (r: Result<nat, Fault>)
      requires manager.world == world && world.Valid()
      modifies world
      ensures world.Valid()
      ensures var t := OpTrace(old(world.Snapshot()), ExpireOverdue);
              && (r.Failure? <==> t.raised)
              && world.Snapshot() == Replay(old(world.Snapshot()), t.effects)
              && world.log == old(world.log) + t.effects
      ensures r.Success? ==> forall i: nat :: !Selected(world.Snapshot(), Overdue, i)
    {
      ghost var s, log := world.Snapshot(), world.log;
      var db := new Transaction(world);
      r := manager.ExpireOverdueSessions(db);
      world.Extend(s, log, ExpireOverdue);
    }

    /** The webhook's checkout of one room. */
    method CheckoutRoom(room: string) returns (r: Result<nat, Fault>)
      requires manager.world == world && world.Valid()
      modifies world
      ensures world.Valid()
      ensures var t := CheckoutTrace(old(world.Snapshot()), room);
              && (r.Failure? <==> t.raised)
              && world.Snapshot() == Replay(old(world.Snapshot()), t.effects)
              && world.log == old(world.log) + t.effects
      ensures r.Success? ==> NobodyIn(world.Snapshot(), room)
    {
      ghost var s, log := world.Snapshot(), world.log;
      var db := new Transaction(world);
      r := manager.ExpireSessionsForRoom(db, room);
      world.Extend(s, log, Checkout(room));
    }

    /** _poll_checkouts_job: the sync time is moved only after the last room. */
    method PollCheckoutsJob(rooms: Option<seq<string>>) returns (r: Result<(), Fault>)
      requires manager.world == world && world.Valid()
      modifies world
      ensures world.Valid()
      ensures var t := PollTrace(old(world.Snapshot()), rooms);
              && (r.Failure? <==> t.raised)
              && world.Snapshot() == Replay(old(world.Snapshot()), t.effects)
              && world.log == old(world.log) + t.effects
    {
      ghost var s, log := world.Snapshot(), world.log;
      r := Success(());
      if rooms.Some? { r := CheckoutAndSync(rooms.value); }
      world.Extend(s, log, PollCheckouts(rooms));
    }

    method CheckoutAndSync(rooms: seq<string>) returns (r: Result<(), Fault>)
      requires manager.world == world
      modifies world
      ensures var t := PollTrace(old(world.Snapshot()), Some(rooms));
              && (r.Failure? <==> t.raised)
              && world.Snapshot() == Replay(old(world.Snapshot()), t.effects)
              && world.log == old(world.log) + t.effects
    {
      ghost var s, log := world.Snapshot(), world.log;
      var db := new Transaction(world);
      r := CheckoutRooms(db, rooms);
      if r.Success? {
        CheckoutsKeepClock(s, rooms);
        db.CommitOne(SetLastSync(world.now));
        Chain(s, log, CheckoutsTrace(s, rooms).effects, [Effect.Commit([SetLastSync(s.now)])]);
      }
    }

    method CheckoutRooms(db: Transaction, rooms: seq<string>) returns (r: Result<(), Fault>)
      requires manager.world == world && db.world == world && db.pending == []
      modifies world, db
      ensures var t := CheckoutsTrace(old(world.Snapshot()), rooms);
              && (r.Failure? <==> t.raised)
              && world.Snapshot() == Replay(old(world.Snapshot()), t.effects)
              && world.log == old(world.log) + t.effects
      ensures r.Success? ==> db.pending == []
    {
      ghost var s, log := world.Snapshot(), world.log;
      ghost var done: seq<Effect> := [];
      ghost var all := CheckoutsTrace(s, rooms);
      var k := 0;
      assert rooms[0..] == rooms && Then(Trace([], false), all) == all;
      while k < |rooms|
        invariant 0 <= k <= |rooms| && db.pending == []
        invariant world.Snapshot() == Replay(s, done) && world.log == log + done
        invariant all == Then(Trace(done, false), CheckoutsTrace(world.Snapshot(), rooms[k..]))
      {
        ghost var first := CheckoutTrace(world.Snapshot(), rooms[k]);
        CheckoutsNext(done, world.Snapshot(), rooms, k);
        Chain(s, log, done, first.effects);
        var one := manager.ExpireSessionsForRoom(db, rooms[k]);
        if one.Failure? { return Failure(one.error); }
        done := done + first.effects;
        k := k + 1;
      }
      assert rooms[|rooms|..] == [] && done + [] == done;
      r := Success(());
    }

    /** _bytes_job: counts are staged, a session over its quota is expired, the rest is committed at the end. */
    method BytesJob(show: Listings) returns (r: Result<(), Fault>)
      requires manager.world == world && world.Valid()
      modifies world
      ensures world.Valid()
      ensures var t := OpTrace(old(world.Snapshot()), SampleBytes(show));
              && (r.Failure? <==> t.raised)
              && world.Snapshot() == Replay(old(world.Snapshot()), t.effects)
              && world.log == old(world.log) + t.effects
    {
      ghost var s, log := world.Snapshot(), world.log;
      var ids := Rows(world.Snapshot(), AnyActive);
      r := SampleEach(ids, show);
      world.Extend(s, log, SampleBytes(show));
    }

    method SampleEach(ids: seq<nat>, show: Listings) returns (r: Result<(), Fault>)
      requires manager.world == world && KnownIds(world.Snapshot(), ids)
      modifies world
      ensures var t := BytesTrace(old(world.Snapshot()), ids, [], show, 0);
              && (r.Failure? <==> t.raised)
              && world.Snapshot() == Replay(old(world.Snapshot()), t.effects)
              && world.log == old(world.log) + t.effects
    {
      ghost var s, log := world.Snapshot(), world.log;
      ghost var done: seq<Effect> := [];
      ghost var all := BytesTrace(s, ids, [], show, 0);
      var db := new Transaction(world);
      var k := 0;
      assert ids[0..] == ids && Then(Trace([], false), all) == all;
      while k < |ids|
        invariant 0 <= k <= |ids|
        invariant world.Snapshot() == Replay(s, done) && world.log == log + done
        invariant KnownIds(world.Snapshot(), ids)
        invariant forall w :: w in db.pending ==> IsByteWrite(w)
        invariant all == Then(Trace(done, false), BytesTrace(world.Snapshot(), ids[k..], db.pending, show, k))
      {
        var row := world.sessions[ids[k]];
        var read := TrafficControl.GetBytes(row.ip, show(k).0, show(k).1);
        if read.None? {
          assert ids[k..][0] == ids[k];
          assert all == Trace(done + [], true) && done + [] == done;
          return Failure(NoClassId);
        }
        var (up, down) := read.value;
        BytesNext(done, world.Snapshot(), ids, k, db.pending, show);
        ghost var t, pending := world.Snapshot(), db.pending;
        db.Stage(SetBytes(ids[k], up, down));
        if OverQuota(world.Snapshot(), row, down) {
          ghost var first := ExpireTrace(t, ids[k], Expired, db.pending);
          Chain(s, log, done, first.effects);
          OverQuotaStep(t, ids[k], pending, up, down);
          var one := manager.ExpireSession(db, ids[k], Expired);
          done := done + first.effects;
        }
        k := k + 1;
      }
      ghost var t, last := world.Snapshot(), [Effect.Commit(db.pending)];
      assert ids[|ids|..] == [];
      db.Commit();
      ReplayOne(t, last[0]);
      Chain(s, log, done, last);
      r := Success(());
    }
  }
}
