/**
 What the looping operations come to when they run to their end: closed forms
 of the whole final state, and exactly when the end is reached.
 */
module Sweeps {
  import opened Common
  import opened PortalState
  import opened Invariants
  import opened Operations
  import opened OperationSafety

  ghost predicate KnownIds(s: State, ids: seq<nat>) {
    forall j :: 0 <= j < |ids| ==> ids[j] < |s.sessions|
  }

  ghost predicate AllIpv4(s: State, ids: seq<nat>)
    requires KnownIds(s, ids)
  {
    forall j :: 0 <= j < |ids| ==> s.sessions[ids[j]].ip.V4?
  }

  function AddressesOf(s: State, ids: seq<nat>): set<Ip> {
    set id | id in ids && id < |s.sessions| :: s.sessions[id].ip
  }

  function ClassesOf(s: State, ids: seq<nat>): set<nat> {
    set id | id in ids && id < |s.sessions| && s.sessions[id].ip.V4? :: ClassId(s.sessions[id].ip)
  }

  function UpClassesOf(s: State, ids: seq<nat>): set<nat> {
    set id | id in ids && id < |s.sessions| && s.sessions[id].ip.V4? && s.sessions[id].upKbps > 0
      :: ClassId(s.sessions[id].ip)
  }

  /** The kernel tables with everything of the listed rows taken out. */
  function Closed(s: State, ids: seq<nat>): State {
    s.(whitelist := s.whitelist - AddressesOf(s, ids),
       dnsBypass := s.dnsBypass - AddressesOf(s, ids),
       wan := s.wan - ClassesOf(s, ids),
       ifb := s.ifb - UpClassesOf(s, ids))
  }

  function WithStatus(rows: seq<Session>, ids: seq<nat>, status: Status): (r: seq<Session>)
    ensures |r| == |rows|
    ensures forall i :: 0 <= i < |rows| ==> r[i] == if i in ids then rows[i].(status := status) else rows[i]
  {
    seq(|rows|, i requires 0 <= i < |rows| => if i in ids then rows[i].(status := status) else rows[i])
  }

  function Swept(s: State, ids: seq<nat>, status: Status): State {
    Closed(s, ids).(sessions := WithStatus(s.sessions, ids, status))
  }

  lemma ClosedOne(s: State, id: nat)
    requires id < |s.sessions|
    ensures AddressesOf(s, [id]) == {s.sessions[id].ip}
    ensures s.sessions[id].ip.V4? ==>
              var c := ClassId(s.sessions[id].ip);
              ClassesOf(s, [id]) == {c} && UpClassesOf(s, [id]) == if s.sessions[id].upKbps > 0 then {c} else {}
  {
  }

  /** Taking one row's address and classes out of the kernel tables. */
  lemma WithdrawOutcome(s: State, id: nat)
    requires id < |s.sessions|
    ensures var row := s.sessions[id];
            var t := Then(UnruleTrace(row.ip), UnshapeTrace(row.ip, row.upKbps));
            (t.raised <==> !row.ip.V4?) && (row.ip.V4? ==> Replay(s, t.effects) == Closed(s, [id]))
  {
    var row := s.sessions[id];
    var unrule, unshape := UnruleTrace(row.ip), UnshapeTrace(row.ip, row.upKbps);
    ReplayTwo(s, DelWhitelist(row.ip), DelDns(row.ip));
    UnshapeDisciplined(Replay(s, unrule.effects), row.ip, row.upKbps);
    ReplayConcat(s, unrule.effects, unshape.effects);
    ClosedOne(s, id);
  }

  lemma ExpireOutcome(s: State, id: nat, status: Status, pending: seq<Write>)
    requires id < |s.sessions|
    ensures var t := ExpireTrace(s, id, status, pending);
            && (t.raised <==> !s.sessions[id].ip.V4?)
            && (!t.raised ==> Replay(s, t.effects) ==
                              ApplyWrite(ApplyWrites(Closed(s, [id]), pending), SetStatus(id, status)))
  {
    var row := s.sessions[id];
    var withdraw := Then(UnruleTrace(row.ip), UnshapeTrace(row.ip, row.upKbps));
    var last := [Commit(pending + [SetStatus(id, status)])];
    WithdrawOutcome(s, id);
    ReplayConcat(s, withdraw.effects, last);
    if row.ip.V4? {
      var c := Closed(s, [id]);
      ReplayOne(c, last[0]);
      ApplyWritesConcat(c, pending, [SetStatus(id, status)]);
      OneWrite(ApplyWrites(c, pending), SetStatus(id, status));
    }
  }

  lemma SplitIds(s: State, t: State, a: seq<nat>, b: seq<nat>)
    requires |t.sessions| == |s.sessions|
    requires forall i :: 0 <= i < |s.sessions| ==> t.sessions[i].ip == s.sessions[i].ip && t.sessions[i].upKbps == s.sessions[i].upKbps
    ensures AddressesOf(s, a + b) == AddressesOf(s, a) + AddressesOf(t, b)
    ensures ClassesOf(s, a + b) == ClassesOf(s, a) + ClassesOf(t, b)
    ensures UpClassesOf(s, a + b) == UpClassesOf(s, a) + UpClassesOf(t, b)
  {
  }

  lemma SweptTwice(s: State, a: seq<nat>, b: seq<nat>, status: Status)
    ensures Swept(Swept(s, a, status), b, status) == Swept(s, a + b, status)
  {
    var t := Swept(s, a, status);
    SplitIds(s, t, a, b);
    var u, v := Swept(t, b, status), Swept(s, a + b, status);
    assert u.sessions == v.sessions;
    assert u.whitelist == v.whitelist && u.dnsBypass == v.dnsBypass;
    assert u.wan == v.wan && u.ifb == v.ifb;
  }

  lemma SweptOne(s: State, id: nat, status: Status)
    requires id < |s.sessions|
    ensures ApplyWrite(Closed(s, [id]), SetStatus(id, status)) == Swept(s, [id], status)
  {
    assert s.sessions[id := s.sessions[id].(status := status)] == WithStatus(s.sessions, [id], status);
  }

  /**
   A sweep reaches its end exactly when no listed session has an IPv6 address, and
   then every listed session has the new status, its address and classes are gone
   from the kernel tables, and nothing else has changed.
   */
  lemma {:induction false} SweepOutcome(s: State, ids: seq<nat>, status: Status)
    requires KnownIds(s, ids)
    ensures SweepTrace(s, ids, status).raised <==> !AllIpv4(s, ids)
    ensures AllIpv4(s, ids) ==> Replay(s, SweepTrace(s, ids, status).effects) == Swept(s, ids, status)
    decreases |ids|
  {
    if ids == [] {
      assert WithStatus(s.sessions, [], status) == s.sessions;
    } else {
      var id, rest := ids[0], ids[1..];
      var first := ExpireTrace(s, id, status, []);
      ExpireOutcome(s, id, status, []);
      assert ids == [id] + rest;
      if !first.raised {
        var t := Replay(s, first.effects);
        SweptOne(s, id, status);
        SweepOutcome(t, rest, status);
        ReplayConcat(s, first.effects, SweepTrace(t, rest, status).effects);
        SweptTwice(s, [id], rest, status);
      }
    }
  }

  lemma SweepOne(s: State, id: nat, status: Status)
    ensures SweepTrace(s, [id], status) == ExpireTrace(s, id, status, [])
  {
    var first := ExpireTrace(s, id, status, []);
    assert [id][1..] == [] && first.effects + [] == first.effects;
  }

  lemma RowsKnown(s: State, f: Filter)
    ensures KnownIds(s, Rows(s, f))
    ensures forall i: nat :: i in Rows(s, f) <==> Selected(s, f, i)
  {
  }

  lemma SweptRows(s: State, f: Filter, status: Status)
    requires !SweepTrace(s, Rows(s, f), status).raised
    ensures var t := Replay(s, SweepTrace(s, Rows(s, f), status).effects);
            && |t.sessions| == |s.sessions|
            && forall i: nat :: i < |s.sessions| ==>
                 t.sessions[i] == if Selected(s, f, i) then s.sessions[i].(status := status) else s.sessions[i]
  {
    RowsKnown(s, f);
    SweepOutcome(s, Rows(s, f), status);
  }

  lemma SweepRaises(s: State, f: Filter, status: Status)
    ensures SweepTrace(s, Rows(s, f), status).raised <==> exists i: nat :: Selected(s, f, i) && !s.sessions[i].ip.V4?
  {
    var ids := Rows(s, f);
    RowsKnown(s, f);
    SweepOutcome(s, ids, status);
    if AllIpv4(s, ids) {
      forall i: nat | Selected(s, f, i) ensures s.sessions[i].ip.V4? {
        assert i in ids;
      }
    } else {
      var j :| 0 <= j < |ids| && !s.sessions[ids[j]].ip.V4?;
      assert ids[j] in ids;
    }
  }

  /** The expiry sweep ends exactly the overdue sessions, if it reaches its end at all. */
  lemma ExpiryIsExact(s: State)
    ensures OpTrace(s, ExpireOverdue).raised
            <==> exists i: nat :: Selected(s, Overdue, i) && !s.sessions[i].ip.V4?
    ensures !OpTrace(s, ExpireOverdue).raised ==>
              var t := Outcome(s, ExpireOverdue);
              && |t.sessions| == |s.sessions|
              && forall i: nat :: i < |s.sessions| ==>
                   t.sessions[i] == if s.sessions[i].status == Active && s.sessions[i].expiresAt <= s.now
                                    then s.sessions[i].(status := Expired) else s.sessions[i]
  {
    SweepRaises(s, Overdue, Expired);
    if !OpTrace(s, ExpireOverdue).raised { SweptRows(s, Overdue, Expired); }
  }

  /** Right after a completed expiry sweep no device has two active sessions, whatever their age. */
  lemma OneActiveAfterExpiry(s: State, i: nat, j: nat)
    requires Inv(s) && !OpTrace(s, ExpireOverdue).raised
    ensures var t := Outcome(s, ExpireOverdue);
            (i < j < |t.sessions| && t.sessions[i].status == Active && t.sessions[j].status == Active
             && t.sessions[i].mac.Some?)
            ==> t.sessions[i].mac != t.sessions[j].mac
  {
    ExpiryIsExact(s);
    var t := Outcome(s, ExpireOverdue);
    if i < j < |t.sessions| && t.sessions[i].status == Active && t.sessions[j].status == Active {
      assert Live(s, i) && Live(s, j);
    }
  }

  // ---- What closing sessions consists of ----

  /** No mark, and no write but of statuses and byte counts. */
  predicate Closing(e: Effect) {
    !e.Mark? && (e.Commit? ==> forall w :: w in e.writes ==> w.SetStatus? || w.SetBytes?)
  }

  predicate AllClosing(es: seq<Effect>) {
    forall e :: e in es ==> Closing(e)
  }

  lemma ExpireCloses(s: State, id: nat, status: Status, pending: seq<Write>)
    requires forall w :: w in pending ==> IsByteWrite(w)
    ensures AllClosing(ExpireTrace(s, id, status, pending).effects)
  {
    var last := Commit(pending + [SetStatus(id, status)]);
    assert Closing(last);
  }

  lemma {:induction false} SweepCloses(s: State, ids: seq<nat>, status: Status)
    ensures AllClosing(SweepTrace(s, ids, status).effects)
    decreases |ids|
  {
    if ids != [] {
      ExpireCloses(s, ids[0], status, []);
      SweepCloses(Replay(s, ExpireTrace(s, ids[0], status, []).effects), ids[1..], status);
    }
  }

  lemma {:induction false} CheckoutsClose(s: State, rooms: seq<string>)
    ensures AllClosing(CheckoutsTrace(s, rooms).effects)
    decreases |rooms|
  {
    if rooms != [] {
      SweepCloses(s, Rows(s, InRoom(rooms[0])), Expired);
      CheckoutsClose(Replay(s, CheckoutTrace(s, rooms[0]).effects), rooms[1..]);
    }
  }

  lemma {:induction false} BytesClose(s: State, ids: seq<nat>, pending: seq<Write>, show: Listings, k: nat)
    requires forall w :: w in pending ==> IsByteWrite(w)
    ensures AllClosing(BytesTrace(s, ids, pending, show, k).effects)
    decreases |ids|
  {
    if ids != [] && ids[0] < |s.sessions| {
      match TrafficControl.GetBytes(s.sessions[ids[0]].ip, show(k).0, show(k).1)
      case None =>
      case Some((up, down)) =>
        var more := pending + [SetBytes(ids[0], up, down)];
        ExpireCloses(s, ids[0], Expired, more);
        BytesClose(Replay(s, ExpireTrace(s, ids[0], Expired, more).effects), ids[1..], [], show, k + 1);
        BytesClose(s, ids[1..], more, show, k + 1);
    }
  }

  // ---- Checkouts ----

  ghost predicate NobodyIn(s: State, room: string) {
    forall i: nat :: !Selected(s, InRoom(room), i)
  }

  lemma CheckoutEmpties(s: State, room: string)
    requires !CheckoutTrace(s, room).raised
    ensures var t := Replay(s, CheckoutTrace(s, room).effects);
            && NobodyIn(t, room)
            && t.guests == s.guests && t.lastSync == s.lastSync
            && (forall other: string :: NobodyIn(s, other) ==> NobodyIn(t, other))
  {
    var ids := Rows(s, InRoom(room));
    SweepOutcome(s, ids, Expired);
    var t := Replay(s, CheckoutTrace(s, room).effects);
    forall i: nat ensures !Selected(t, InRoom(room), i) {
      if i < |s.sessions| && i !in ids { assert !Selected(s, InRoom(room), i); }
    }
    forall other: string | NobodyIn(s, other) ensures NobodyIn(t, other) {
      forall i: nat ensures !Selected(t, InRoom(other), i) {
        assert !Selected(s, InRoom(other), i);
      }
    }
  }

  lemma {:induction false} CheckoutsEmpty(s: State, rooms: seq<string>)
    requires !CheckoutsTrace(s, rooms).raised
    ensures var t := Replay(s, CheckoutsTrace(s, rooms).effects);
            && (forall room :: room in rooms ==> NobodyIn(t, room))
            && (forall other: string :: NobodyIn(s, other) ==> NobodyIn(t, other))
            && t.guests == s.guests
    decreases |rooms|
  {
    if rooms != [] {
      var first := CheckoutTrace(s, rooms[0]);
      CheckoutEmpties(s, rooms[0]);
      var t := Replay(s, first.effects);
      CheckoutsEmpty(t, rooms[1..]);
      ReplayConcat(s, first.effects, CheckoutsTrace(t, rooms[1..]).effects);
    }
  }

  lemma {:induction false} SyncUntouched(s: State, es: seq<Effect>)
    requires forall e :: e in es && e.Commit? ==> forall w :: w in e.writes ==> !w.SetLastSync?
    ensures Replay(s, es).lastSync == s.lastSync
    decreases |es|
  {
    if es != [] {
      if es[0].Commit? { WritesLeaveSync(s, es[0].writes); }
      SyncUntouched(Apply(s, es[0]), es[1..]);
    }
  }

  lemma {:induction false} WritesLeaveSync(s: State, ws: seq<Write>)
    requires forall w :: w in ws ==> !w.SetLastSync?
    ensures ApplyWrites(s, ws).lastSync == s.lastSync
    decreases |ws|
  {
    if ws != [] {
      assert !ws[0].SetLastSync?;
      WritesLeaveSync(ApplyWrite(s, ws[0]), ws[1..]);
    }
  }

  /**
   No checkout is lost: wherever the poll is cut off, the sync time it will ask from
   next has moved only if nobody is left active in any of the reported rooms.
   */
  lemma SyncMovesOnlyWhenDone(s: State, rooms: seq<string>, k: nat)
    requires k <= |PollTrace(s, Some(rooms)).effects|
    ensures var t := Replay(s, PollTrace(s, Some(rooms)).effects[..k]);
            t.lastSync == s.lastSync || forall room :: room in rooms ==> NobodyIn(t, room)
  {
    var sweep := CheckoutsTrace(s, rooms);
    var all := PollTrace(s, Some(rooms)).effects;
    if k < |all| || sweep.raised {
      CheckoutsClose(s, rooms);
      assert forall e :: e in all[..k] ==> e in sweep.effects && Closing(e);
      SyncUntouched(s, all[..k]);
    } else {
      assert all[..k] == all;
      PolledRoomsEmpty(s, rooms);
    }
  }

  lemma PolledRoomsEmpty(s: State, rooms: seq<string>)
    requires !CheckoutsTrace(s, rooms).raised
    ensures forall room :: room in rooms ==> NobodyIn(Replay(s, PollTrace(s, Some(rooms)).effects), room)
  {
    var u := Replay(s, CheckoutsTrace(s, rooms).effects);
    var sync := Commit([SetLastSync(s.now)]);
    CheckoutsEmpty(s, rooms);
    ReplayConcat(s, CheckoutsTrace(s, rooms).effects, [sync]);
    ReplayOne(u, sync);
    OneWrite(u, SetLastSync(s.now));
    forall room | room in rooms ensures NobodyIn(ApplyWrite(u, SetLastSync(s.now)), room) {
      SyncKeepsRooms(u, s.now, room);
    }
  }

  lemma SyncKeepsRooms(u: State, at: int, room: string)
    requires NobodyIn(u, room)
    ensures NobodyIn(ApplyWrite(u, SetLastSync(at)), room)
  {
    forall i: nat ensures !Selected(ApplyWrite(u, SetLastSync(at)), InRoom(room), i) {
      assert !Selected(u, InRoom(room), i);
    }
  }

  // ---- Self-disconnect ----

  ghost predicate NoneOf(s: State, mac: Mac) {
    forall i: nat :: !Selected(s, OfDevice(mac), i)
  }

  /**
   Sessions are stored under the ARP text but looked up under its upper-case form,
   so pressing disconnect ends the device's sessions exactly when the two agree or
   there was nothing to end.
   */
  lemma DisconnectEnds(s: State, mac: Mac)
    requires ValidateMac(Some(mac)).Some? && !OpTrace(s, Disconnect(Some(mac))).raised
    ensures NoneOf(Outcome(s, Disconnect(Some(mac))), Upper(mac))
    ensures NoneOf(Outcome(s, Disconnect(Some(mac))), mac) <==> mac == Upper(mac) || NoneOf(s, mac)
  {
    var up := Upper(mac);
    var ids := Rows(s, OfDevice(up));
    SweepOutcome(s, ids, Kicked);
    var t := Outcome(s, Disconnect(Some(mac)));
    forall i: nat ensures !Selected(t, OfDevice(up), i) {
      if i < |s.sessions| && i !in ids { assert !Selected(s, OfDevice(up), i); }
    }
    if mac != up {
      forall i: nat ensures Selected(t, OfDevice(mac), i) == Selected(s, OfDevice(mac), i) {
        if i in ids { assert Selected(s, OfDevice(up), i); }
      }
      if NoneOf(t, mac) {
        forall i: nat ensures !Selected(s, OfDevice(mac), i) { assert !Selected(t, OfDevice(mac), i); }
      }
    }
  }

  /** For one, a device whose MAC the ARP table gives in lower case keeps its sessions when it disconnects. */
  lemma LowerCaseStays(s: State, i: nat)
    requires var mac := "aa:bb:cc:dd:ee:ff";
             Selected(s, OfDevice(mac), i) && !OpTrace(s, Disconnect(Some(mac))).raised
    ensures var mac := "aa:bb:cc:dd:ee:ff"; !NoneOf(Outcome(s, Disconnect(Some(mac))), mac)
  {
    var mac := "aa:bb:cc:dd:ee:ff";
    LowerCaseMac(mac);
    DisconnectEnds(s, mac);
    assert Selected(s, OfDevice(mac), i);
  }

  lemma LowerCaseMac(mac: Mac)
    requires mac == "aa:bb:cc:dd:ee:ff"
    ensures ValidateMac(Some(mac)).Some? && Upper(mac) != mac
  {
    assert |mac| == 17;
    assert forall i :: 0 <= i < 17 ==> if i % 3 == 2 then mac[i] == ':' else HexDigit(mac[i]);
    assert Upper(mac)[0] == 'A' && mac[0] == 'a';
  }

  // ---- The quota sweep ----

  function Reading(s: State, id: nat, show: Listings, k: nat): (nat, nat)
    requires id < |s.sessions| && s.sessions[id].ip.V4?
  {
    TrafficControl.GetBytes(s.sessions[id].ip, show(k).0, show(k).1).value
  }

  /** The row as the job leaves it, from the counters read for it. */
  function Sampled(s: State, id: nat, show: Listings, k: nat): Session
    requires id < |s.sessions| && s.sessions[id].ip.V4?
  {
    var (up, down) := Reading(s, id, show, k);
    var row := s.sessions[id].(bytesUp := up, bytesDown := down);
    if OverQuota(s, s.sessions[id], down) then row.(status := Expired) else row
  }

  ghost predicate Distinct(ids: seq<nat>) {
    forall j, k :: 0 <= j < k < |ids| ==> ids[j] != ids[k]
  }

  predicate IsByteWrite(w: Write) {
    w.SetBytes?
  }

  lemma {:induction false} ByteWrites(s: State, ws: seq<Write>)
    requires forall w :: w in ws ==> IsByteWrite(w)
    ensures var t := ApplyWrites(s, ws);
            t == s.(sessions := t.sessions) && |t.sessions| == |s.sessions|
            && forall i :: 0 <= i < |s.sessions| ==> SameRow(s.sessions[i], t.sessions[i])
    decreases |ws|
  {
    if ws != [] {
      assert IsByteWrite(ws[0]);
      ByteWrites(ApplyWrite(s, ws[0]), ws[1..]);
    }
  }

  lemma {:induction false} ByteWritesAnywhere(s: State, t: State, ws: seq<Write>)
    requires forall w :: w in ws ==> IsByteWrite(w)
    requires s.sessions == t.sessions
    ensures ApplyWrites(s, ws).sessions == ApplyWrites(t, ws).sessions
    decreases |ws|
  {
    if ws != [] {
      assert IsByteWrite(ws[0]);
      ByteWritesAnywhere(ApplyWrite(s, ws[0]), ApplyWrite(t, ws[0]), ws[1..]);
    }
  }

  /** Row `id` sampled and expired, everything that was waiting committed with it. */
  lemma OverQuotaStep(s: State, id: nat, pending: seq<Write>, up: nat, down: nat)
    requires id < |s.sessions| && s.sessions[id].ip.V4?
    requires forall w :: w in pending ==> IsByteWrite(w)
    ensures var trace := ExpireTrace(s, id, Expired, pending + [SetBytes(id, up, down)]);
            var u := Replay(s, trace.effects);
            var p := ApplyWrites(s, pending);
            && !trace.raised && |u.sessions| == |s.sessions| == |p.sessions| && u.vouchers == s.vouchers
            && u.sessions[id] == s.sessions[id].(bytesUp := up, bytesDown := down, status := Expired)
            && (forall i :: 0 <= i < |s.sessions| && i != id ==> u.sessions[i] == p.sessions[i])
  {
    var more := pending + [SetBytes(id, up, down)];
    var c := Closed(s, [id]);
    ExpireOutcome(s, id, Expired, more);
    ApplyWritesConcat(c, pending, [SetBytes(id, up, down)]);
    OneWrite(ApplyWrites(c, pending), SetBytes(id, up, down));
    ByteWrites(s, pending);
    ByteWrites(c, pending);
    ByteWritesAnywhere(s, c, pending);
  }

  ghost predicate SampledAll(s: State, t: State, ids: seq<nat>, show: Listings, k: nat)
    requires KnownIds(s, ids) && AllIpv4(s, ids)
  {
    && |t.sessions| == |s.sessions| && t.vouchers == s.vouchers
    && forall j :: 0 <= j < |ids| ==> t.sessions[ids[j]] == Sampled(s, ids[j], show, k + j)
  }

  ghost predicate OthersAs(p: State, t: State, ids: seq<nat>) {
    |t.sessions| == |p.sessions|
    && forall i :: 0 <= i < |p.sessions| && i !in ids ==> t.sessions[i] == p.sessions[i]
  }

  lemma SampledCons(s: State, u: State, t: State, ids: seq<nat>, show: Listings, k: nat)
    requires ids != [] && KnownIds(s, ids) && AllIpv4(s, ids) && Distinct(ids)
    requires |u.sessions| == |s.sessions| && u.vouchers == s.vouchers
    requires forall i :: 0 <= i < |s.sessions| && i != ids[0] ==> SameRow(s.sessions[i], u.sessions[i])
    requires KnownIds(u, ids[1..]) && AllIpv4(u, ids[1..]) && SampledAll(u, t, ids[1..], show, k + 1)
    requires t.sessions[ids[0]] == Sampled(s, ids[0], show, k)
    ensures SampledAll(s, t, ids, show, k)
  {
    forall j | 0 <= j < |ids| ensures t.sessions[ids[j]] == Sampled(s, ids[j], show, k + j) {
      if j > 0 {
        assert ids[1..][j - 1] == ids[j] && ids[j] != ids[0];
        assert t.sessions[ids[j]] == Sampled(u, ids[j], show, k + j);
      }
    }
  }

  lemma RestUntouched(s: State, u: State, ids: seq<nat>)
    requires ids != [] && KnownIds(s, ids) && AllIpv4(s, ids) && Distinct(ids) && |u.sessions| == |s.sessions|
    requires forall i :: 0 <= i < |s.sessions| && i != ids[0] ==> SameRow(s.sessions[i], u.sessions[i])
    ensures KnownIds(u, ids[1..]) && AllIpv4(u, ids[1..]) && Distinct(ids[1..]) && ids[0] !in ids[1..]
  {
    var rest := ids[1..];
    assert forall j :: 0 <= j < |rest| ==> rest[j] == ids[j + 1] && rest[j] != ids[0];
  }

  /**
   The loop of _bytes_job from any point: the rows still to come end up sampled (and
   expired when over quota), the rows already dealt with get their waiting counts.
   */
  lemma {:induction false} BytesOutcome(s: State, ids: seq<nat>, pending: seq<Write>, show: Listings, k: nat)
    requires KnownIds(s, ids) && Distinct(ids) && AllIpv4(s, ids)
    requires forall w :: w in pending ==> IsByteWrite(w)
    ensures var trace := BytesTrace(s, ids, pending, show, k);
            var t := Replay(s, trace.effects);
            !trace.raised && SampledAll(s, t, ids, show, k) && OthersAs(ApplyWrites(s, pending), t, ids)
    decreases |ids|
  {
    ByteWrites(s, pending);
    if ids == [] {
      ReplayOne(s, Commit(pending));
    } else {
      var id, rest := ids[0], ids[1..];
      RestUntouched(s, s, ids);
      var (up, down) := Reading(s, id, show, k);
      var more := pending + [SetBytes(id, up, down)];
      var t := Replay(s, BytesTrace(s, ids, pending, show, k).effects);
      if OverQuota(s, s.sessions[id], down) {
        OverQuotaStep(s, id, pending, up, down);
        var first := ExpireTrace(s, id, Expired, more);
        var u := Replay(s, first.effects);
        RestUntouched(s, u, ids);
        BytesOutcome(u, rest, [], show, k + 1);
        ReplayConcat(s, first.effects, BytesTrace(u, rest, [], show, k + 1).effects);
        SampledCons(s, u, t, ids, show, k);
      } else {
        ApplyWritesConcat(s, pending, [SetBytes(id, up, down)]);
        OneWrite(ApplyWrites(s, pending), SetBytes(id, up, down));
        BytesOutcome(s, rest, more, show, k + 1);
        SampledCons(s, s, t, ids, show, k);
      }
    }
  }

  /** The rows whose quota is found used up. */
  function OverIds(s: State, ids: seq<nat>, show: Listings, k: nat): seq<nat>
    requires KnownIds(s, ids) && AllIpv4(s, ids)
    decreases |ids|
  {
    if ids == [] then []
    else if OverQuota(s, s.sessions[ids[0]], Reading(s, ids[0], show, k).1)
    then [ids[0]] + OverIds(s, ids[1..], show, k + 1)
    else OverIds(s, ids[1..], show, k + 1)
  }

  lemma {:induction false} OverIdsListed(s: State, ids: seq<nat>, show: Listings, k: nat, i: nat)
    requires KnownIds(s, ids) && AllIpv4(s, ids) && i in OverIds(s, ids, show, k)
    ensures i in ids
    decreases |ids|
  {
    if ids != [] && i != ids[0] { OverIdsListed(s, ids[1..], show, k + 1, i); }
  }

  lemma {:induction false} OverIdsElsewhere(s: State, u: State, ids: seq<nat>, show: Listings, k: nat)
    requires KnownIds(s, ids) && AllIpv4(s, ids) && |u.sessions| == |s.sessions| && u.vouchers == s.vouchers
    requires forall j :: 0 <= j < |ids| ==> SameRow(s.sessions[ids[j]], u.sessions[ids[j]])
    ensures AllIpv4(u, ids) && OverIds(u, ids, show, k) == OverIds(s, ids, show, k)
    decreases |ids|
  {
    if ids != [] {
      assert SameRow(s.sessions[ids[0]], u.sessions[ids[0]]);
      assert forall j :: 0 <= j < |ids[1..]| ==> ids[1..][j] == ids[j + 1];
      OverIdsElsewhere(s, u, ids[1..], show, k + 1);
    }
  }

  lemma OverQuotaTables(s: State, id: nat, pending: seq<Write>, up: nat, down: nat, over: seq<nat>)
    requires id < |s.sessions| && s.sessions[id].ip.V4?
    requires forall w :: w in pending ==> IsByteWrite(w)
    ensures var u := Replay(s, ExpireTrace(s, id, Expired, pending + [SetBytes(id, up, down)]).effects);
            Closed(u, over) == Closed(s, [id] + over).(sessions := u.sessions)
  {
    var more := pending + [SetBytes(id, up, down)];
    var c := Closed(s, [id]);
    ExpireOutcome(s, id, Expired, more);
    ByteWrites(c, more);
    var u := Replay(s, ExpireTrace(s, id, Expired, more).effects);
    assert u == c.(sessions := u.sessions);
    ClosedTwice(s, u, id, over);
  }

  lemma ClosedTwice(s: State, u: State, id: nat, over: seq<nat>)
    requires u == Closed(s, [id]).(sessions := u.sessions) && |u.sessions| == |s.sessions|
    requires forall i :: 0 <= i < |s.sessions| ==> u.sessions[i].ip == s.sessions[i].ip && u.sessions[i].upKbps == s.sessions[i].upKbps
    ensures Closed(u, over) == Closed(s, [id] + over).(sessions := u.sessions)
  {
    SplitIds(s, u, [id], over);
    var v, w := Closed(u, over), Closed(s, [id] + over);
    assert v.whitelist == w.whitelist && v.dnsBypass == w.dnsBypass;
    assert v.wan == w.wan && v.ifb == w.ifb;
  }

  /** The kernel tables after _bytes_job: only what belonged to the expired rows is gone. */
  lemma {:induction false} BytesTables(s: State, ids: seq<nat>, pending: seq<Write>, show: Listings, k: nat)
    requires KnownIds(s, ids) && Distinct(ids) && AllIpv4(s, ids)
    requires forall w :: w in pending ==> IsByteWrite(w)
    ensures var t := Replay(s, BytesTrace(s, ids, pending, show, k).effects);
            t == Closed(s, OverIds(s, ids, show, k)).(sessions := t.sessions)
    decreases |ids|
  {
    ByteWrites(s, pending);
    if ids == [] {
      ReplayOne(s, Commit(pending));
    } else {
      var id, rest := ids[0], ids[1..];
      assert forall j :: 0 <= j < |rest| ==> rest[j] == ids[j + 1];
      var (up, down) := Reading(s, id, show, k);
      var more := pending + [SetBytes(id, up, down)];
      if OverQuota(s, s.sessions[id], down) {
        OverQuotaStep(s, id, pending, up, down);
        var first := ExpireTrace(s, id, Expired, more);
        var u := Replay(s, first.effects);
        forall j | 0 <= j < |rest| ensures rest[j] != id && SameRow(s.sessions[rest[j]], u.sessions[rest[j]]) {
          assert rest[j] == ids[j + 1];
        }
        OverIdsElsewhere(s, u, rest, show, k + 1);
        BytesTables(u, rest, [], show, k + 1);
        ReplayConcat(s, first.effects, BytesTrace(u, rest, [], show, k + 1).effects);
        OverQuotaTables(s, id, pending, up, down, OverIds(s, rest, show, k + 1));
      } else {
        BytesTables(s, rest, more, show, k + 1);
      }
    }
  }

  /** The job reaches its end exactly when no sampled session has an IPv6 address. */
  lemma {:induction false} BytesReachEnd(s: State, ids: seq<nat>, pending: seq<Write>, show: Listings, k: nat)
    requires KnownIds(s, ids) && forall w :: w in pending ==> IsByteWrite(w)
    ensures BytesTrace(s, ids, pending, show, k).raised <==> !AllIpv4(s, ids)
    decreases |ids|
  {
    if ids != [] && s.sessions[ids[0]].ip.V4? {
      var id, rest := ids[0], ids[1..];
      assert forall j :: 0 <= j < |rest| ==> rest[j] == ids[j + 1];
      var (up, down) := Reading(s, id, show, k);
      var more := pending + [SetBytes(id, up, down)];
      if OverQuota(s, s.sessions[id], down) {
        ExpireOutcome(s, id, Expired, more);
        var u := Replay(s, ExpireTrace(s, id, Expired, more).effects);
        ByteWrites(Closed(s, [id]), more);
        BytesReachEnd(u, rest, [], show, k + 1);
      } else {
        BytesReachEnd(s, rest, more, show, k + 1);
      }
    }
  }

  /**
   When _bytes_job ends, every session that was active is sampled; it is expired
   exactly when its positive quota is used up, and otherwise keeps its status.
   */
  lemma QuotaEnforced(s: State, show: Listings, i: nat)
    requires Selected(s, AnyActive, i) && !OpTrace(s, SampleBytes(show)).raised
    ensures var t := Outcome(s, SampleBytes(show));
            && |t.sessions| == |s.sessions|
            && (t.sessions[i].status == Expired <==> Quota(t, t.sessions[i]) > 0 && t.sessions[i].bytesDown >= Quota(t, t.sessions[i]))
            && (t.sessions[i].status == Expired || t.sessions[i].status == Active)
            && Quota(t, t.sessions[i]) == Quota(s, s.sessions[i])
  {
    var j := SampledRow(s, show, i);
    var t := Outcome(s, SampleBytes(show));
    assert t.sessions[i] == Sampled(s, i, show, j);
    assert t.sessions[i].voucher == s.sessions[i].voucher;
  }

  /** An active row is sampled, at its place among the active rows. */
  lemma SampledRow(s: State, show: Listings, i: nat) returns (j: nat)
    requires Selected(s, AnyActive, i) && !OpTrace(s, SampleBytes(show)).raised
    ensures s.sessions[i].ip.V4?
    ensures var t := Outcome(s, SampleBytes(show));
            |t.sessions| == |s.sessions| && t.vouchers == s.vouchers && t.sessions[i] == Sampled(s, i, show, j)
  {
    var ids := Rows(s, AnyActive);
    BytesCompleted(s, show);
    assert i in ids;
    j :| 0 <= j < |ids| && ids[j] == i;
  }

  lemma BytesCompleted(s: State, show: Listings)
    requires !OpTrace(s, SampleBytes(show)).raised
    ensures var ids, t := Rows(s, AnyActive), Outcome(s, SampleBytes(show));
            KnownIds(s, ids) && Distinct(ids) && AllIpv4(s, ids) && SampledAll(s, t, ids, show, 0) && OthersAs(s, t, ids)
  {
    var ids := Rows(s, AnyActive);
    RowsKnown(s, AnyActive);
    BytesReachEnd(s, ids, [], show, 0);
    BytesOutcome(s, ids, [], show, 0);
  }
}
