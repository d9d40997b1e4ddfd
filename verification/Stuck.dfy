/**
 What becomes of a session at an IPv6 address: a login leaves it behind, nothing ever ends
 it, and from its end on it stops every sweep in front of the rows behind it.
 */
module Stuck {
  import opened Common
  import opened PortalState
  import opened Invariants
  import opened Operations
  import opened OperationSafety
  import opened Sweeps
  import opened Agreement
  import opened Runs

  /** Row i is an active session at an IPv6 address. */
  predicate StuckAt(s: State, i: nat) {
    i < |s.sessions| && s.sessions[i].status == Active && s.sessions[i].ip.V6?
  }

  /** Such a row can be had: a login from there commits it before anything fails, and fails with all commands working. */
  lemma Ipv6LoginLeavesRow(s: State, op: Op)
    requires RequestOf(s, op).Some? && RequestOf(s, op).value.0.ip.V6?
    requires Existing(s, RequestOf(s, op).value.0.mac).None?
    ensures OpTrace(s, op).raised && StuckAt(Outcome(s, op), |s.sessions|)
    ensures Outcome(s, op).sessions[|s.sessions|].ip == RequestOf(s, op).value.0.ip
  {
    var (q, pending, env) := RequestOf(s, op).value;
    RequestWrites(s, op);
    CreateOutcome(s, q, pending, env);
    NewRowStays(s, q, pending, env);
    RaisedLogin(s, op);
  }

  /** With every command working, any good voucher code entered from an IPv6 address does it. */
  lemma Ipv6VoucherLogin(s: State, text: string, code: string)
    requires Validate(s, code).Success?
    ensures var op := VoucherLogin(V6(text), None, code, Env(true, true, true, true));
            OpTrace(s, op).raised && StuckAt(Outcome(s, op), |s.sessions|)
  {
    Ipv6LoginLeavesRow(s, VoucherLogin(V6(text), None, code, Env(true, true, true, true)));
  }

  lemma RequestWrites(s: State, op: Op)
    requires RequestOf(s, op).Some?
    ensures GuestWrites(RequestOf(s, op).value.1)
  {
  }

  /** A login whose create_session raises has had exactly its effects. */
  lemma RaisedLogin(s: State, op: Op)
    requires RequestOf(s, op).Some?
    requires var (q, pending, env) := RequestOf(s, op).value; CreateTrace(s, q, pending, env).raised
    ensures var (q, pending, env) := RequestOf(s, op).value;
            OpTrace(s, op).raised && OpTrace(s, op).effects == CreateTrace(s, q, pending, env).effects
  {
  }

  // ---- Effects that leave a row alone ----

  predicate SparesWrite(w: Write, i: nat) {
    (w.SetStatus? ==> w.id != i) && (w.SetIp? ==> w.id != i)
  }

  predicate SparesWrites(ws: seq<Write>, i: nat) {
    forall k :: 0 <= k < |ws| ==> SparesWrite(ws[k], i)
  }

  predicate Spares(es: seq<Effect>, i: nat) {
    forall k :: 0 <= k < |es| && es[k].Commit? ==> SparesWrites(es[k].writes, i)
  }

  /** Row i is the same but for its byte counts. */
  predicate KeepsRow(s: State, t: State, i: nat) {
    i < |s.sessions| && i < |t.sessions| && SameRow(s.sessions[i], t.sessions[i])
  }

  lemma {:induction false} SparedWrites(s: State, ws: seq<Write>, i: nat)
    requires i < |s.sessions| && SparesWrites(ws, i)
    ensures KeepsRow(s, ApplyWrites(s, ws), i)
    decreases |ws|
  {
    if ws != [] {
      assert SparesWrite(ws[0], i);
      SparedWrites(ApplyWrite(s, ws[0]), ws[1..], i);
    }
  }

  lemma {:induction false} SparedRow(s: State, es: seq<Effect>, i: nat)
    requires i < |s.sessions| && Spares(es, i)
    ensures KeepsRow(s, Replay(s, es), i)
    decreases |es|
  {
    if es != [] {
      if es[0].Commit? { SparedWrites(s, es[0].writes, i); }
      SparedRow(Apply(s, es[0]), es[1..], i);
    }
  }

  lemma SparesConcat(a: seq<Effect>, b: seq<Effect>, i: nat)
    requires Spares(a, i) && Spares(b, i)
    ensures Spares(a + b, i)
  {
  }

  lemma SparesPrefix(es: seq<Effect>, k: nat, i: nat)
    requires Spares(es, i) && k <= |es|
    ensures Spares(es[..k], i)
  {
  }

  /** Expiring a row spares every other row, and itself when it is stuck: the class id is computed before the commit. */
  lemma ExpireSpares(s: State, id: nat, status: Status, pending: seq<Write>, i: nat)
    requires id != i || StuckAt(s, i)
    requires SparesWrites(pending, i)
    ensures Spares(ExpireTrace(s, id, status, pending).effects, i)
  {
    if id != i {
      assert SparesWrites(pending + [SetStatus(id, status)], i);
    }
  }

  lemma {:induction false} SweepSpares(s: State, ids: seq<nat>, status: Status, i: nat)
    requires StuckAt(s, i)
    ensures Spares(SweepTrace(s, ids, status).effects, i)
    decreases |ids|
  {
    if ids != [] {
      var first := ExpireTrace(s, ids[0], status, []);
      ExpireSpares(s, ids[0], status, [], i);
      SparedRow(s, first.effects, i);
      SweepSpares(Replay(s, first.effects), ids[1..], status, i);
    }
  }

  lemma {:induction false} CheckoutsSpare(s: State, rooms: seq<string>, i: nat)
    requires StuckAt(s, i)
    ensures Spares(CheckoutsTrace(s, rooms).effects, i)
    decreases |rooms|
  {
    if rooms != [] {
      var first := CheckoutTrace(s, rooms[0]);
      SweepSpares(s, Rows(s, InRoom(rooms[0])), Expired, i);
      SparedRow(s, first.effects, i);
      CheckoutsSpare(Replay(s, first.effects), rooms[1..], i);
    }
  }

  lemma {:induction false} BytesSpare(s: State, ids: seq<nat>, pending: seq<Write>, show: Listings, k: nat, i: nat)
    requires StuckAt(s, i) && SparesWrites(pending, i)
    ensures Spares(BytesTrace(s, ids, pending, show, k).effects, i)
    decreases |ids|
  {
    if ids != [] && ids[0] < |s.sessions| {
      match TrafficControl.GetBytes(s.sessions[ids[0]].ip, show(k).0, show(k).1)
      case None =>
      case Some((up, down)) =>
        var more := pending + [SetBytes(ids[0], up, down)];
        var first := ExpireTrace(s, ids[0], Expired, more);
        ExpireSpares(s, ids[0], Expired, more, i);
        SparedRow(s, first.effects, i);
        BytesSpare(Replay(s, first.effects), ids[1..], [], show, k + 1, i);
        BytesSpare(s, ids[1..], more, show, k + 1, i);
    }
  }

  /** A stuck row is never moved either: the old address is withdrawn first, and that raises. */
  lemma CreateSpares(s: State, q: Request, pending: seq<Write>, env: Env, i: nat)
    requires StuckAt(s, i) && GuestWrites(pending)
    ensures Spares(CreateTrace(s, q, pending, env).effects, i)
  {
    assert SparesWrites(pending, i) by {
      forall k | 0 <= k < |pending| ensures SparesWrite(pending[k], i) { assert pending[k] in pending; }
    }
    match Existing(s, q.mac)
    case None =>
      CommitSpares(s, pending, InsertSession(NewRow(s, q)), q.ip, q.up, q.down, env, i);
    case Some(id) =>
      var row := s.sessions[id];
      OpenSpares(s, q.ip, row.upKbps, 0, env, i);
      if id != i && row.ip != q.ip { CommitSpares(s, pending, SetIp(id, q.ip), q.ip, row.upKbps, 0, env, i); }
  }

  lemma OpenSpares(s: State, ip: Ip, up: int, down: int, env: Env, i: nat)
    ensures Spares(Then(RulesTrace(s, ip, env), ShapeTrace(ip, up, down, env)).effects, i)
  {
    OpensOnly(s, ip, up, down, env);
  }

  lemma CommitSpares(s: State, pending: seq<Write>, w: Write, ip: Ip, up: int, down: int, env: Env, i: nat)
    requires SparesWrites(pending, i) && SparesWrite(w, i)
    ensures Spares(Then(Trace([Commit(pending + [w])], false),
                        Then(RulesTrace(s, ip, env), ShapeTrace(ip, up, down, env))).effects, i)
  {
    OpenSpares(s, ip, up, down, env, i);
    assert SparesWrites(pending + [w], i);
    SparesConcat([Commit(pending + [w])], Then(RulesTrace(s, ip, env), ShapeTrace(ip, up, down, env)).effects, i);
  }

  lemma LoginSpares(s: State, op: Op, i: nat)
    requires StuckAt(s, i) && (op.RoomLogin? || op.VoucherLogin? || op.PortalPage?)
    ensures Spares(OpTrace(s, op).effects, i)
  {
    if RequestOf(s, op).Some? {
      var (q, pending, env) := RequestOf(s, op).value;
      RequestWrites(s, op);
      CreateSpares(s, q, pending, env, i);
    }
  }

  /** No operation ends or moves a stuck session, wherever it is cut off. */
  lemma OperationSpares(s: State, op: Op, i: nat)
    requires StuckAt(s, i)
    ensures Spares(OpTrace(s, op).effects, i)
  {
    match op
    case RoomLogin(_, _, _, _, _) => LoginSpares(s, op, i);
    case VoucherLogin(_, _, _, _) => LoginSpares(s, op, i);
    case PortalPage(_, _, _, _) => LoginSpares(s, op, i);
    case Disconnect(arp) =>
      if ValidateMac(arp).Some? { SweepSpares(s, Rows(s, OfDevice(ValidateMac(arp).value)), Kicked, i); }
    case Kick(id) => ExpireSpares(s, id, Kicked, [], i);
    case ExpireOverdue => SweepSpares(s, Rows(s, Overdue), Expired, i);
    case Checkout(room) => SweepSpares(s, Rows(s, InRoom(room)), Expired, i);
    case PollCheckouts(rooms) => if rooms.Some? { CheckoutsSpare(s, rooms.value, i); }
    case SampleBytes(show) => BytesSpare(s, Rows(s, AnyActive), [], show, 0, i);
    case _ =>
  }

  // ---- For ever ----

  lemma StepSpares(s: State, step: Step, i: nat)
    requires StuckAt(s, i)
    ensures KeepsRow(s, After(s, step), i)
  {
    var all := OpTrace(s, step.op).effects;
    OperationSpares(s, step.op, i);
    assert EffectsOf(s, step) == all[..|EffectsOf(s, step)|];
    SparesPrefix(all, |EffectsOf(s, step)|, i);
    SparedRow(s, EffectsOf(s, step), i);
  }

  /** From state to state a stuck row is kept, so it is stuck, and the same, at the end. */
  lemma {:induction false} StuckAlong(states: seq<State>, m: nat, n: nat, i: nat)
    requires m <= n < |states| && StuckAt(states[m], i)
    requires forall k :: 0 <= k < |states| - 1 && StuckAt(states[k], i) ==> KeepsRow(states[k], states[k + 1], i)
    ensures StuckAt(states[n], i) && KeepsRow(states[m], states[n], i)
    decreases n
  {
    if m < n {
      StuckAlong(states, m, n - 1, i);
      assert KeepsRow(states[n - 1], states[n - 1 + 1], i);
    }
  }

  lemma RunStepSpares(s: State, run: seq<Step>, k: nat, i: nat)
    requires k < |run| && StuckAt(States(s, run)[k], i)
    ensures KeepsRow(States(s, run)[k], States(s, run)[k + 1], i)
  {
    StepSpares(StateAfter(s, run, k), run[k], i);
  }

  /** Over every run with every cut, a session at an IPv6 address stays active for ever, with the same end. */
  lemma StuckForever(s: State, run: seq<Step>, m: nat, n: nat, i: nat)
    requires m <= n <= |run| && StuckAt(StateAfter(s, run, m), i)
    ensures StuckAt(StateAfter(s, run, n), i) && KeepsRow(StateAfter(s, run, m), StateAfter(s, run, n), i)
  {
    var states := States(s, run);
    forall k | 0 <= k < |run| && StuckAt(states[k], i)
      ensures KeepsRow(states[k], states[k + 1], i)
    {
      RunStepSpares(s, run, k, i);
    }
    StuckAlong(states, m, n, i);
  }

  lemma {:induction false} ClockForward(s: State, es: seq<Effect>)
    requires Disciplined(s, es)
    ensures s.now <= Replay(s, es).now
    decreases |es|
  {
    if es != [] {
      if es[0].Commit? { WritesKeepKernel(s, es[0].writes); }
      ClockForward(Apply(s, es[0]), es[1..]);
    }
  }

  lemma {:induction false} DisciplinedPrefix(s: State, es: seq<Effect>, k: nat)
    requires Disciplined(s, es) && k <= |es|
    ensures Disciplined(s, es[..k])
    decreases |es|
  {
    if k > 0 {
      DisciplinedPrefix(Apply(s, es[0]), es[1..], k - 1);
      assert es[..k][0] == es[0] && es[..k][1..] == es[1..][..k - 1];
    }
  }

  lemma StepForward(s: State, step: Step)
    requires Inv(s)
    ensures s.now <= After(s, step).now
  {
    var all := OpTrace(s, step.op).effects;
    OperationDisciplined(s, step.op);
    assert EffectsOf(s, step) == all[..|EffectsOf(s, step)|];
    DisciplinedPrefix(s, all, |EffectsOf(s, step)|);
    ClockForward(s, EffectsOf(s, step));
  }

  lemma {:induction false} Climbs(times: seq<int>, m: nat, n: nat)
    requires m <= n < |times| && forall k :: 0 <= k < |times| - 1 ==> times[k] <= times[k + 1]
    ensures times[m] <= times[n]
    decreases n
  {
    if m < n { Climbs(times, m, n - 1); }
  }

  /** On a run from a fresh install the clock never goes back. */
  lemma RunForward(s: State, run: seq<Step>, m: nat, n: nat)
    requires Inv(s) && m <= n <= |run|
    ensures StateAfter(s, run, m).now <= StateAfter(s, run, n).now
  {
    forall k | 0 <= k < |run|
      ensures Clocks(s, run)[k] <= Clocks(s, run)[k + 1]
    {
      RunStepForward(s, run, k);
    }
    Climbs(Clocks(s, run), m, n);
  }

  function Clocks(s: State, run: seq<Step>): (times: seq<int>)
    ensures |times| == |run| + 1
  {
    seq(|run| + 1, i requires 0 <= i <= |run| => StateAfter(s, run, i).now)
  }

  lemma RunStepForward(s: State, run: seq<Step>, k: nat)
    requires Inv(s) && k < |run|
    ensures Clocks(s, run)[k] <= Clocks(s, run)[k + 1]
  {
    RunKeepsInv(s, run, k);
    StepForward(StateAfter(s, run, k), run[k]);
  }

  // ---- What stands behind it ----

  ghost predicate Increasing(ids: seq<nat>) {
    forall j, k :: 0 <= j < k < |ids| ==> ids[j] < ids[k]
  }

  /** A sweep in table order stops at the stuck row and spares everything behind it. */
  lemma {:induction false} SweepStops(s: State, ids: seq<nat>, status: Status, i: nat, j: nat)
    requires Increasing(ids) && i in ids && StuckAt(s, i) && i < j
    ensures Spares(SweepTrace(s, ids, status).effects, j)
    decreases |ids|
  {
    var first := ExpireTrace(s, ids[0], status, []);
    if ids[0] != i {
      assert ids[0] < i by {
        var k :| 0 <= k < |ids| && ids[k] == i;
        assert k > 0;
      }
      ExpireSpares(s, ids[0], status, [], j);
      ExpireSpares(s, ids[0], status, [], i);
      SparedRow(s, first.effects, i);
      assert Increasing(ids[1..]) && i in ids[1..];
      SweepStops(Replay(s, first.effects), ids[1..], status, i, j);
    }
  }

  /**
   From the end of a stuck session on, on every run from a fresh install: every expiry sweep
   raises, every byte job raises, and no sweep, wherever it is cut off, changes the status of
   any row behind it, however long overdue.
   */
  lemma OverdueBehindStays(s: State, run: seq<Step>, m: nat, n: nat, i: nat, j: nat, show: Listings)
    requires Fresh(s) && m <= n < |run| && StuckAt(StateAfter(s, run, m), i)
    requires StateAfter(s, run, m).sessions[i].expiresAt <= StateAfter(s, run, m).now
    requires i < j < |StateAfter(s, run, n).sessions|
    ensures var t := StateAfter(s, run, n);
            && OpTrace(t, ExpireOverdue).raised && OpTrace(t, SampleBytes(show)).raised
            && (run[n].op.ExpireOverdue? ==>
                  j < |After(t, run[n]).sessions| && After(t, run[n]).sessions[j].status == t.sessions[j].status)
  {
    var t := StateAfter(s, run, n);
    FreshInv(s);
    StuckForever(s, run, m, n, i);
    RunForward(s, run, m, n);
    StuckStopsJobs(t, show, i);
    if run[n].op.ExpireOverdue? { StuckStopsSweep(t, run[n], i, j); }
  }

  lemma StuckStopsJobs(s: State, show: Listings, i: nat)
    requires StuckAt(s, i)
    ensures OpTrace(s, SampleBytes(show)).raised
    ensures s.sessions[i].expiresAt <= s.now ==> OpTrace(s, ExpireOverdue).raised
  {
    var ids := Rows(s, AnyActive);
    RowsKnown(s, AnyActive);
    assert Selected(s, AnyActive, i);
    var k :| 0 <= k < |ids| && ids[k] == i;
    assert !s.sessions[ids[k]].ip.V4?;
    BytesReachEnd(s, ids, [], show, 0);
    SweepRaises(s, Overdue, Expired);
    assert s.sessions[i].expiresAt <= s.now ==> Selected(s, Overdue, i);
  }

  lemma StuckStopsSweep(s: State, step: Step, i: nat, j: nat)
    requires StuckAt(s, i) && s.sessions[i].expiresAt <= s.now && i < j < |s.sessions| && step.op.ExpireOverdue?
    ensures KeepsRow(s, After(s, step), j)
  {
    var ids, all := Rows(s, Overdue), OpTrace(s, ExpireOverdue).effects;
    assert Selected(s, Overdue, i);
    SweepStops(s, ids, Expired, i, j);
    assert EffectsOf(s, step) == all[..|EffectsOf(s, step)|];
    SparesPrefix(all, |EffectsOf(s, step)|, j);
    SparedRow(s, EffectsOf(s, step), j);
  }
}
