/**
 What must hold after every single effect, whatever was being done and wherever
 it was cut off, and the discipline on effects that keeps it so: open access or
 shape traffic only for a row that is already committed as active, and withdraw
 both before the row stops being active.
 */
module Invariants {
  import opened Common
  import opened PortalState

  ghost predicate HoldsIp(s: State, i: nat, ip: Ip) {
    i < |s.sessions| && s.sessions[i].status == Active && s.sessions[i].ip == ip
  }

  ghost predicate UsesClass(s: State, i: nat, c: nat) {
    i < |s.sessions| && s.sessions[i].status == Active
    && s.sessions[i].ip.V4? && ClassId(s.sessions[i].ip) == c
  }

  ghost predicate ActiveIp(s: State, ip: Ip) {
    exists i: nat :: HoldsIp(s, i, ip)
  }

  ghost predicate ActiveClass(s: State, c: nat) {
    exists i: nat :: UsesClass(s, i, c)
  }

  ghost predicate ActiveUpClass(s: State, c: nat) {
    exists i: nat :: UsesClass(s, i, c) && s.sessions[i].upKbps > 0
  }

  /** Nobody is let through without an active session. */
  ghost predicate AccessSafe(s: State) {
    && (forall ip :: ip in s.whitelist ==> ActiveIp(s, ip))
    && (forall ip :: ip in s.dnsBypass ==> ActiveIp(s, ip))
  }

  /** No traffic class outlives the sessions it was made for. */
  ghost predicate ShapingSafe(s: State) {
    && (forall c :: c in s.wan && c != DEFAULT_CLASS ==> ActiveClass(s, c))
    && (forall c :: c in s.ifb && c != DEFAULT_CLASS ==> ActiveUpClass(s, c))
  }

  predicate Live(s: State, i: nat) {
    i < |s.sessions| && s.sessions[i].status == Active && s.sessions[i].expiresAt > s.now
  }

  /** A device never has two sessions that are active and not yet over. */
  ghost predicate OneLivePerDevice(s: State) {
    forall i: nat, j: nat :: i < j && Live(s, i) && Live(s, j) && s.sessions[i].mac.Some?
      ==> s.sessions[i].mac != s.sessions[j].mac
  }

  /** How many active sessions carry guest number g. */
  function DevicesOf(rows: seq<Session>, g: nat): (n: nat)
  {
    if rows == [] then 0
    else DevicesOf(rows[..|rows| - 1], g) + One(rows[|rows| - 1], g)
  }

  function One(row: Session, g: nat): nat {
    if row.status == Active && row.guest == Some(g) then 1 else 0
  }

  function Cap(guest: Guest): nat {
    if guest.maxDevices < 0 then 0 else guest.maxDevices
  }

  ghost predicate GuestsKnown(s: State) {
    forall i: nat :: i < |s.sessions| && s.sessions[i].guest.Some? ==> s.sessions[i].guest.value < |s.guests|
  }

  ghost predicate WithinDeviceCap(s: State) {
    forall g: nat :: g < |s.guests| ==> DevicesOf(s.sessions, g) <= Cap(s.guests[g])
  }

  ghost predicate Inv(s: State) {
    AccessSafe(s) && ShapingSafe(s) && OneLivePerDevice(s) && GuestsKnown(s) && WithinDeviceCap(s)
  }

  // ---- The discipline ----

  /** Row `id` no longer justifies anything in the kernel tables. */
  ghost predicate Withdrawn(s: State, id: nat)
    requires id < |s.sessions|
  {
    var row := s.sessions[id];
    && row.ip !in s.whitelist && row.ip !in s.dnsBypass
    && (row.ip.V4? && ClassId(row.ip) != DEFAULT_CLASS ==>
          && ClassId(row.ip) !in s.wan
          && (row.upKbps > 0 ==> ClassId(row.ip) !in s.ifb))
  }

  ghost predicate AllowedWrite(s: State, w: Write) {
    match w
    case InsertSession(row) =>
      && (row.mac.Some? ==> forall i: nat :: Live(s, i) ==> s.sessions[i].mac != row.mac)
      && (row.guest.Some? ==>
            && row.guest.value < |s.guests|
            && DevicesOf(s.sessions, row.guest.value) < s.guests[row.guest.value].maxDevices)
    case SetIp(id, ip) =>
      id < |s.sessions| && s.sessions[id].status == Active ==> Withdrawn(s, id)
    case SetStatus(id, status) =>
      && status != Active
      && (id < |s.sessions| && s.sessions[id].status == Active ==> Withdrawn(s, id))
    case _ => true
  }

  ghost predicate AllowedWrites(s: State, ws: seq<Write>)
    decreases |ws|
  {
    ws != [] ==> AllowedWrite(s, ws[0]) && AllowedWrites(ApplyWrite(s, ws[0]), ws[1..])
  }

  ghost predicate Allowed(s: State, e: Effect) {
    match e
    case Commit(ws) => AllowedWrites(s, ws)
    case AddWhitelist(ip) => ActiveIp(s, ip)
    case AddDns(ip) => ActiveIp(s, ip)
    case AddWan(c) => c != DEFAULT_CLASS ==> ActiveClass(s, c)
    case AddIfb(c) => c != DEFAULT_CLASS ==> ActiveUpClass(s, c)
    case SetClock(at) => s.now <= at
    case _ => true
  }

  ghost predicate Disciplined(s: State, es: seq<Effect>)
    decreases |es|
  {
    es != [] ==> Allowed(s, es[0]) && Disciplined(Apply(s, es[0]), es[1..])
  }

  // ---- The discipline keeps the invariant ----

  lemma {:induction false} DevicesOfUpdate(rows: seq<Session>, i: nat, row: Session, g: nat)
    requires i < |rows|
    ensures DevicesOf(rows[i := row], g) == DevicesOf(rows, g) - One(rows[i], g) + One(row, g)
    decreases |rows|
  {
    var last := |rows| - 1;
    if i == last {
      assert rows[i := row][..last] == rows[..last];
    } else {
      assert rows[i := row][..last] == rows[..last][i := row];
      DevicesOfUpdate(rows[..last], i, row, g);
    }
  }

  lemma {:induction false} NoRowsNoDevices(rows: seq<Session>, g: nat)
    requires forall i :: 0 <= i < |rows| ==> rows[i].guest != Some(g)
    ensures DevicesOf(rows, g) == 0
    decreases |rows|
  {
    if rows != [] {
      NoRowsNoDevices(rows[..|rows| - 1], g);
    }
  }

  /** Every active row of s other than `except` is still there, unchanged where it matters, in t. */
  ghost predicate RowsKept(s: State, t: State, except: int) {
    |s.sessions| <= |t.sessions|
    && forall i: nat :: i < |s.sessions| && i != except ==>
         && t.sessions[i].ip == s.sessions[i].ip
         && t.sessions[i].status == s.sessions[i].status
         && t.sessions[i].upKbps == s.sessions[i].upKbps
  }

  lemma KeptRowsKeepSafety(s: State, t: State, except: int)
    requires AccessSafe(s) && ShapingSafe(s) && RowsKept(s, t, except) && TablesShrink(s, t)
    requires 0 <= except < |s.sessions| && s.sessions[except].status == Active ==> Withdrawn(t.(sessions := s.sessions), except)
    ensures AccessSafe(t) && ShapingSafe(t)
  {
    forall ip | ip in t.whitelist || ip in t.dnsBypass ensures ActiveIp(t, ip) {
      var i: nat :| HoldsIp(s, i, ip);
      assert HoldsIp(t, i, ip);
    }
    forall c | c in t.wan && c != DEFAULT_CLASS ensures ActiveClass(t, c) {
      var i: nat :| UsesClass(s, i, c);
      assert UsesClass(t, i, c);
    }
    forall c | c in t.ifb && c != DEFAULT_CLASS ensures ActiveUpClass(t, c) {
      var i: nat :| UsesClass(s, i, c) && s.sessions[i].upKbps > 0;
      assert UsesClass(t, i, c);
    }
  }

  lemma InsertKeepsInv(s: State, row: Session)
    requires Inv(s) && AllowedWrite(s, InsertSession(row))
    ensures Inv(ApplyWrite(s, InsertSession(row)))
  {
    var t := ApplyWrite(s, InsertSession(row));
    KeptRowsKeepSafety(s, t, -1);
    assert t.sessions[..|t.sessions| - 1] == s.sessions;
    assert forall i: nat :: i < |s.sessions| && Live(t, i) ==> Live(s, i);
  }

  lemma RowChangeKeepsInv(s: State, t: State, id: nat)
    requires Inv(s) && id < |s.sessions|
    requires |t.sessions| == |s.sessions| && t == s.(sessions := s.sessions[id := t.sessions[id]])
    requires t.sessions[id].status == s.sessions[id].status || t.sessions[id].status != Active
    requires t.sessions[id].mac == s.sessions[id].mac && t.sessions[id].guest == s.sessions[id].guest
    requires t.sessions[id].expiresAt == s.sessions[id].expiresAt
    requires || RowsKept(s, t, -1)
             || (s.sessions[id].status == Active ==> Withdrawn(s, id))
    ensures Inv(t)
  {
    KeptRowsKeepSafety(s, t, if RowsKept(s, t, -1) then -1 else id);
    assert forall i: nat :: Live(t, i) ==> Live(s, i);
    forall g: nat | g < |t.guests| ensures DevicesOf(t.sessions, g) <= Cap(t.guests[g]) {
      DevicesOfUpdate(s.sessions, id, t.sessions[id], g);
    }
  }

  lemma AddGuestKeepsInv(s: State, guest: Guest)
    requires Inv(s)
    ensures Inv(ApplyWrite(s, AddGuest(guest)))
  {
    var t := ApplyWrite(s, AddGuest(guest));
    KeptRowsKeepSafety(s, t, -1);
    assert forall i: nat :: Live(t, i) ==> Live(s, i);
    NoRowsNoDevices(s.sessions, |s.guests|);
  }

  predicate TablesShrink(s: State, t: State) {
    t.whitelist <= s.whitelist && t.dnsBypass <= s.dnsBypass && t.wan <= s.wan && t.ifb <= s.ifb
  }

  predicate SameCaps(s: State, t: State) {
    |t.guests| == |s.guests| && forall g :: 0 <= g < |s.guests| ==> t.guests[g].maxDevices == s.guests[g].maxDevices
  }

  lemma SameRowsKeepDevices(s: State, t: State)
    requires OneLivePerDevice(s) && GuestsKnown(s) && WithinDeviceCap(s)
    requires t.sessions == s.sessions && s.now <= t.now && SameCaps(s, t)
    ensures OneLivePerDevice(t) && GuestsKnown(t) && WithinDeviceCap(t)
  {
    assert forall i: nat :: Live(t, i) ==> Live(s, i);
  }

  /** Deletes from the kernel tables, ticks of the clock, and writes to the other tables. */
  lemma OtherTablesKeepInv(s: State, t: State)
    requires Inv(s) && t.sessions == s.sessions && s.now <= t.now && TablesShrink(s, t) && SameCaps(s, t)
    ensures Inv(t)
  {
    KeptRowsKeepSafety(s, t, -1);
    SameRowsKeepDevices(s, t);
  }

  lemma WriteKeepsInv(s: State, w: Write)
    requires Inv(s) && AllowedWrite(s, w)
    ensures Inv(ApplyWrite(s, w))
  {
    var t := ApplyWrite(s, w);
    match w
    case InsertSession(row) => InsertKeepsInv(s, row);
    case SetIp(id, ip) => if id < |s.sessions| { RowMoveKeepsInv(s, id, ip); }
    case SetStatus(id, status) => if id < |s.sessions| { RowChangeKeepsInv(s, t, id); }
    case SetBytes(id, up, down) => if id < |s.sessions| { RowChangeKeepsInv(s, t, id); }
    case AddGuest(guest) => AddGuestKeepsInv(s, guest);
    case UpdateGuest(_, _, _, _) => OtherTablesKeepInv(s, t);
    case SetUsed(_, _) => OtherTablesKeepInv(s, t);
    case SetLastSync(_) => OtherTablesKeepInv(s, t);
  }

  lemma RowMoveKeepsInv(s: State, id: nat, ip: Ip)
    requires Inv(s) && id < |s.sessions| && AllowedWrite(s, SetIp(id, ip))
    ensures Inv(ApplyWrite(s, SetIp(id, ip)))
  {
    var t := ApplyWrite(s, SetIp(id, ip));
    assert s.sessions[id].status != Active ==> RowsKept(s, t, id);
    RowChangeKeepsInv(s, t, id);
  }

  lemma {:induction false} WritesKeepInv(s: State, ws: seq<Write>)
    requires Inv(s) && AllowedWrites(s, ws)
    ensures Inv(ApplyWrites(s, ws))
    decreases |ws|
  {
    if ws != [] {
      WriteKeepsInv(s, ws[0]);
      WritesKeepInv(ApplyWrite(s, ws[0]), ws[1..]);
    }
  }

  lemma AddKeepsInv(s: State, t: State)
    requires Inv(s) && t == s.(whitelist := t.whitelist, dnsBypass := t.dnsBypass, wan := t.wan, ifb := t.ifb)
    requires forall ip :: ip in t.whitelist && ip !in s.whitelist ==> ActiveIp(s, ip)
    requires forall ip :: ip in t.dnsBypass && ip !in s.dnsBypass ==> ActiveIp(s, ip)
    requires forall c :: c in t.wan && c !in s.wan && c != DEFAULT_CLASS ==> ActiveClass(s, c)
    requires forall c :: c in t.ifb && c !in s.ifb && c != DEFAULT_CLASS ==> ActiveUpClass(s, c)
    ensures Inv(t)
  {
    forall ip | ActiveIp(s, ip) ensures ActiveIp(t, ip) {
      var i: nat :| HoldsIp(s, i, ip);
      assert HoldsIp(t, i, ip);
    }
    forall c | ActiveClass(s, c) ensures ActiveClass(t, c) {
      var i: nat :| UsesClass(s, i, c);
      assert UsesClass(t, i, c);
    }
    forall c | ActiveUpClass(s, c) ensures ActiveUpClass(t, c) {
      var i: nat :| UsesClass(s, i, c) && s.sessions[i].upKbps > 0;
      assert UsesClass(t, i, c);
    }
    assert forall i: nat :: Live(t, i) ==> Live(s, i);
  }

  lemma EffectKeepsInv(s: State, e: Effect)
    requires Inv(s) && Allowed(s, e)
    ensures Inv(Apply(s, e))
  {
    match e
    case Commit(ws) => WritesKeepInv(s, ws);
    case AddWhitelist(_) => AddKeepsInv(s, Apply(s, e));
    case AddDns(_) => AddKeepsInv(s, Apply(s, e));
    case AddWan(_) => AddKeepsInv(s, Apply(s, e));
    case AddIfb(_) => AddKeepsInv(s, Apply(s, e));
    case _ => OtherTablesKeepInv(s, Apply(s, e));
  }

  /** However many of the effects happen before the cut, the invariant holds. */
  lemma {:induction false} EveryCutIsSafe(s: State, es: seq<Effect>, k: nat)
    requires Inv(s) && Disciplined(s, es) && k <= |es|
    ensures Inv(Replay(s, es[..k]))
    decreases |es|
  {
    if k > 0 {
      EffectKeepsInv(s, es[0]);
      EveryCutIsSafe(Apply(s, es[0]), es[1..], k - 1);
      assert es[..k][0] == es[0] && es[..k][1..] == es[1..][..k - 1];
    }
  }

  lemma {:induction false} DisciplinedConcat(s: State, a: seq<Effect>, b: seq<Effect>)
    requires Disciplined(s, a) && Disciplined(Replay(s, a), b)
    ensures Disciplined(s, a + b)
    decreases |a|
  {
    if a == [] {
      assert a + b == b;
    } else {
      assert (a + b)[0] == a[0] && (a + b)[1..] == a[1..] + b;
      DisciplinedConcat(Apply(s, a[0]), a[1..], b);
    }
  }
}
