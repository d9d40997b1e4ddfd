/**
 Whole runs: any sequence of operations, each of which may be killed after any of
 its effects and any of whose adds to the kernel tables may fail.
 */
module Runs {
  import opened Common
  import opened PortalState
  import opened Invariants
  import opened Operations
  import opened OperationSafety
  import opened Sweeps
  import opened Agreement
  import opened Firewall

  /** An operation, run to its end or killed after `cut` effects. */
  datatype Step = Step(op: Op, cut: Option<nat>)

  function EffectsOf(s: State, step: Step): seq<Effect> {
    var all := OpTrace(s, step.op).effects;
    if step.cut.Some? && step.cut.value < |all| then all[..step.cut.value] else all
  }

  function After(s: State, step: Step): State {
    Replay(s, EffectsOf(s, step))
  }

  /** The state after the first n steps. */
  function StateAfter(s: State, run: seq<Step>, n: nat): State
    requires n <= |run|
  {
    if n == 0 then s else After(StateAfter(s, run, n - 1), run[n - 1])
  }

  function FirstOf<T>(es: seq<T>, k: nat): seq<T> {
    if k <= |es| then es[..k] else es
  }

  /** The states before, between and after the steps. */
  function States(s: State, run: seq<Step>): (states: seq<State>)
    ensures |states| == |run| + 1 && states[0] == s
  {
    seq(|run| + 1, i requires 0 <= i <= |run| => StateAfter(s, run, i))
  }

  /** The state while step n is under way, k of its effects done, or all if it has fewer. */
  function Moment(s: State, run: seq<Step>, n: nat, k: nat): State
    requires n < |run|
  {
    Replay(StateAfter(s, run, n), FirstOf(EffectsOf(StateAfter(s, run, n), run[n]), k))
  }

  /** A freshly installed portal: no sessions, empty sets, default classes at most. */
  predicate Fresh(s: State) {
    && s.sessions == [] && s.whitelist == {} && s.dnsBypass == {} && s.marked == {}
    && s.wan <= {DEFAULT_CLASS} && s.ifb <= {DEFAULT_CLASS}
  }

  lemma FreshInv(s: State)
    requires Fresh(s)
    ensures Inv(s)
  {
  }

  lemma PrefixOfPrefix<T>(es: seq<T>, n: nat, k: nat)
    requires k <= n <= |es|
    ensures es[..n][..k] == es[..k]
  {
  }

  /** A step from a good state is good at every moment of it. */
  lemma StepMoments(s: State, step: Step, k: nat)
    requires Inv(s)
    ensures Inv(Replay(s, FirstOf(EffectsOf(s, step), k)))
  {
    var all := OpTrace(s, step.op).effects;
    var es := FirstOf(EffectsOf(s, step), k);
    OperationDisciplined(s, step.op);
    PrefixOfPrefix(all, |EffectsOf(s, step)|, |es|);
    assert EffectsOf(s, step) == all[..|EffectsOf(s, step)|];
    EveryCutIsSafe(s, all, |es|);
  }

  lemma RunKeepsInv(s: State, run: seq<Step>, n: nat)
    requires Inv(s) && n <= |run|
    ensures Inv(StateAfter(s, run, n))
  {
    var states := States(s, run);
    forall k | 0 <= k < |run| && Inv(states[k]) ensures Inv(states[k + 1]) { NextKeepsInv(s, run, k); }
    InvAlong(states, n);
  }

  lemma {:induction false} InvAlong(states: seq<State>, n: nat)
    requires n < |states| && Inv(states[0])
    requires forall k :: 0 <= k < |states| - 1 && Inv(states[k]) ==> Inv(states[k + 1])
    ensures Inv(states[n])
  {
    if n > 0 {
      InvAlong(states, n - 1);
      assert Inv(states[n - 1 + 1]);
    }
  }

  lemma NextKeepsInv(s: State, run: seq<Step>, n: nat)
    requires n < |run| && Inv(States(s, run)[n])
    ensures Inv(States(s, run)[n + 1])
  {
    StepKeepsInv(StateAfter(s, run, n), run[n]);
  }

  lemma StepKeepsInv(s: State, step: Step)
    requires Inv(s)
    ensures Inv(After(s, step))
  {
    var es := EffectsOf(s, step);
    StepMoments(s, step, |es|);
    assert FirstOf(es, |es|) == es;
  }

  /**
   At every moment of every run from a fresh install, between any two effects, whatever
   was killed and whichever adds failed before: only addresses of active sessions are let
   through, only their classes are shaped, no device has two live sessions, no guest exceeds
   the cap.
   */
  lemma EveryMomentIsSafe(s: State, run: seq<Step>, n: nat, k: nat)
    requires Fresh(s) && n < |run|
    ensures Inv(Moment(s, run, n, k))
  {
    FreshInv(s);
    RunKeepsInv(s, run, n);
    StepMoments(StateAfter(s, run, n), run[n], k);
  }

  /** The cap, read off the invariant: never more active sessions than the guest may have devices. */
  lemma DeviceCapHolds(s: State, run: seq<Step>, n: nat, k: nat, g: nat)
    requires Fresh(s) && n < |run|
    ensures var t := Moment(s, run, n, k);
            g < |t.guests| && t.guests[g].maxDevices >= 0 ==> DevicesOf(t.sessions, g) <= t.guests[g].maxDevices
  {
    EveryMomentIsSafe(s, run, n, k);
  }

  /**
   Right after an expiry sweep that reached its end, on any run, everyone let through
   has a session whose time is not over.
   */
  lemma SweepEndsOverdueAccess(s: State, run: seq<Step>, n: nat, ip: Ip)
    requires Fresh(s) && n <= |run| && !OpTrace(StateAfter(s, run, n), ExpireOverdue).raised
    requires var t := Outcome(StateAfter(s, run, n), ExpireOverdue); ip in t.whitelist || ip in t.dnsBypass
    ensures var t := Outcome(StateAfter(s, run, n), ExpireOverdue);
            exists i: nat :: HoldsIp(t, i, ip) && t.sessions[i].expiresAt > StateAfter(s, run, n).now
  {
    var u := StateAfter(s, run, n);
    FreshInv(s);
    RunKeepsInv(s, run, n);
    ExpiryIsExact(u);
    StepKeepsInv(u, Step(ExpireOverdue, None));
    var i: nat :| HoldsIp(Outcome(u, ExpireOverdue), i, ip);
    assert HoldsIp(Outcome(u, ExpireOverdue), i, ip);
  }

  // ---- Where connection marks come from ----

  predicate NoMark(es: seq<Effect>) {
    forall e :: e in es ==> !e.Mark?
  }

  lemma {:induction false} WritesNeverMark(s: State, ws: seq<Write>)
    ensures ApplyWrites(s, ws).marked == s.marked
    decreases |ws|
  {
    if ws != [] { WritesNeverMark(ApplyWrite(s, ws[0]), ws[1..]); }
  }

  lemma {:induction false} ReplayMarks(s: State, es: seq<Effect>, c: Connection)
    requires c in Replay(s, es).marked
    ensures c in s.marked || Mark(c) in es
    decreases |es|
  {
    if es != [] {
      ReplayMarks(Apply(s, es[0]), es[1..], c);
      if es[0].Commit? { WritesNeverMark(s, es[0].writes); }
    }
  }

  lemma ThenNeverMarks(a: Trace, b: Trace)
    requires NoMark(a.effects) && NoMark(b.effects)
    ensures NoMark(Then(a, b).effects)
  {
  }

  lemma CreateNeverMarks(s: State, q: Request, pending: seq<Write>, env: Env)
    ensures NoMark(CreateTrace(s, q, pending, env).effects)
  {
    var (up, down) := Rates(s, q);
    var rules, shape := RulesTrace(s, q.ip, env), ShapeTrace(q.ip, up, down, env);
    ThenNeverMarks(rules, shape);
    match Existing(s, q.mac)
    case None =>
      ThenNeverMarks(Trace([Commit(pending + [InsertSession(NewRow(s, q))])], false), Then(rules, shape));
    case Some(i) =>
      var row := s.sessions[i];
      var commit := Trace([Commit(pending + [SetIp(i, q.ip)])], false);
      ThenNeverMarks(commit, Then(rules, shape));
      ThenNeverMarks(UnruleTrace(row.ip), UnshapeTrace(row.ip, row.upKbps));
      ThenNeverMarks(Then(UnruleTrace(row.ip), UnshapeTrace(row.ip, row.upKbps)), Then(commit, Then(rules, shape)));
  }

  lemma LoginNeverMarks(s: State, op: Op)
    requires op.RoomLogin? || op.VoucherLogin? || op.PortalPage?
    ensures NoMark(OpTrace(s, op).effects)
  {
    if RequestOf(s, op).Some? {
      var (q, pending, env) := RequestOf(s, op).value;
      CreateNeverMarks(s, q, pending, env);
    }
  }

  lemma OnlyArrivalsMark(s: State, op: Op)
    requires !op.Arrive?
    ensures NoMark(OpTrace(s, op).effects)
  {
    match op
    case RoomLogin(_, _, _, _, _) => LoginNeverMarks(s, op);
    case VoucherLogin(_, _, _, _) => LoginNeverMarks(s, op);
    case PortalPage(_, _, _, _) => LoginNeverMarks(s, op);
    case Disconnect(arp) =>
      if ValidateMac(arp).Some? { SweepCloses(s, Rows(s, OfDevice(ValidateMac(arp).value)), Kicked); }
    case Kick(_) =>
    case ExpireOverdue => SweepCloses(s, Rows(s, Overdue), Expired);
    case Checkout(room) => SweepCloses(s, Rows(s, InRoom(room)), Expired);
    case PollCheckouts(rooms) => if rooms.Some? { CheckoutsClose(s, rooms.value); }
    case SampleBytes(show) => BytesClose(s, Rows(s, AnyActive), [], show, 0);
    case _ =>
  }

  /** Step j was the first packet of connection c, from a MAC that was then bypassed. */
  ghost predicate BypassedAt(s: State, run: seq<Step>, j: nat, c: Connection) {
    j < |run| && run[j].op.Arrive?
    && var p := run[j].op.packet;
       p.conn == c && p.first && !p.established && p.smac in StateAfter(s, run, j).macBypass
  }

  lemma MarkedInStep(s: State, run: seq<Step>, n: nat, k: nat, c: Connection)
    requires n < |run|
    requires c in Moment(s, run, n, k).marked
    ensures c in StateAfter(s, run, n).marked || BypassedAt(s, run, n, c)
  {
    var t := StateAfter(s, run, n);
    var op := run[n].op;
    var all := OpTrace(t, op).effects;
    var es := FirstOf(EffectsOf(t, run[n]), k);
    ReplayMarks(t, es, c);
    if c !in t.marked {
      assert Mark(c) in all;
      MarkingOp(t, op, c);
    }
  }

  /** An operation that marks a connection is the arrival of its first packet from a bypassed MAC. */
  lemma MarkingOp(t: State, op: Op, c: Connection)
    ensures Mark(c) in OpTrace(t, op).effects ==>
              op.Arrive? && var p := op.packet; p.conn == c && p.first && !p.established && p.smac in t.macBypass
  {
    if op.Arrive? {
      PreroutingChain(t, op.packet, op.portal, op.port);
    } else {
      OnlyArrivalsMark(t, op);
    }
  }

  lemma MarkedAfterStep(s: State, run: seq<Step>, n: nat, c: Connection)
    requires n < |run| && c in StateAfter(s, run, n + 1).marked
    ensures c in StateAfter(s, run, n).marked || BypassedAt(s, run, n, c)
  {
    var es := EffectsOf(StateAfter(s, run, n), run[n]);
    assert FirstOf(es, |es|) == es;
    MarkedInStep(s, run, n, |es|, c);
  }

  lemma MarkOrigin(s: State, run: seq<Step>, n: nat, c: Connection) returns (j: nat)
    requires Fresh(s) && n <= |run| && c in StateAfter(s, run, n).marked
    ensures j < n && BypassedAt(s, run, j, c)
  {
    var marks := seq(n + 1, i requires 0 <= i <= n => StateAfter(s, run, i).marked);
    j := Entered(marks, c, n);
    MarkedAfterStep(s, run, j, c);
  }

  /** Something that got into a growing and shrinking set did so at some step. */
  lemma {:induction false} Entered<T>(sets: seq<set<T>>, x: T, n: nat) returns (j: nat)
    requires n < |sets| && x !in sets[0] && x in sets[n]
    ensures j < n && x !in sets[j] && x in sets[j + 1]
  {
    j := n - 1;
    if x in sets[n - 1] { j := Entered(sets, x, n - 1); }
  }

  /**
   End to end, over every run: a packet that opens a connection is forwarded by the
   loaded firewall only if its sender has an active session at that moment, or its
   MAC is in the bypass set, or the connection's first packet came from a MAC that
   was in the bypass set when it came.
   */
  lemma NoAccessWithoutSession(s: State, run: seq<Step>, n: nat, k: nat, p: Packet, portal: Ip, port: nat)
    requires Fresh(s) && n < |run| && !p.established
    ensures var t := Moment(s, run, n, k);
            t.loaded && FateOf(t, p, portal, port) == Forwarded ==>
              || ActiveIp(t, p.saddr)
              || (p.first && p.smac in t.macBypass)
              || exists j: nat :: j <= n && BypassedAt(s, run, j, p.conn)
  {
    var t := Moment(s, run, n, k);
    EveryMomentIsSafe(s, run, n, k);
    if t.loaded { NewTrafficForwarded(t, p, portal, port); }
    if p.conn in t.marked {
      MarkedInStep(s, run, n, k, p.conn);
      if p.conn in StateAfter(s, run, n).marked {
        var j := MarkOrigin(s, run, n, p.conn);
      }
    }
  }

  // ---- Exactness over whole runs ----

  /** The step ran to its end and its kernel commands worked. */
  predicate Completed(s: State, step: Step) {
    !OpTrace(s, step.op).raised && (step.cut.None? || step.cut.value >= |OpTrace(s, step.op).effects|)
  }

  /** The step had no effect at all: a refused login, say, or one killed before it did anything. */
  predicate Idle(s: State, step: Step) {
    EffectsOf(s, step) == []
  }

  ghost predicate CompletedRun(s: State, run: seq<Step>, n: nat)
    requires n <= |run|
  {
    n > 0 ==> CompletedRun(s, run, n - 1)
              && (Idle(StateAfter(s, run, n - 1), run[n - 1])
                  || (Completed(StateAfter(s, run, n - 1), run[n - 1]) && !run[n - 1].op.RestartFirewall?))
  }

  /** None of the first n steps withdraws an address that another session stays active at. */
  ghost predicate UnsharedRun(s: State, run: seq<Step>, n: nat)
    requires n <= |run|
  {
    n > 0 ==> UnsharedRun(s, run, n - 1) && !WithdrawsShared(StateAfter(s, run, n - 1), run[n - 1])
  }

  ghost predicate WithdrawsShared(s: State, step: Step) {
    !Idle(s, step) && Shared(s, Released(s, step.op))
  }

  lemma IdleChangesNothing(s: State, step: Step)
    requires Idle(s, step)
    ensures After(s, step) == s
  {
  }

  lemma CompletedIsOutcome(s: State, step: Step)
    requires Completed(s, step)
    ensures After(s, step) == Outcome(s, step.op)
  {
  }

  /** One step of such a run keeps the index exact exactly when it withdraws no shared address. */
  lemma StepStaysExact(s: State, step: Step)
    requires Agree(s) && (Idle(s, step) || (Completed(s, step) && !step.op.RestartFirewall?))
    ensures Agree(After(s, step)) <==> !WithdrawsShared(s, step)
  {
    if Idle(s, step) {
      IdleChangesNothing(s, step);
    } else {
      CompletedIsOutcome(s, step);
      IndexStaysExact(s, step.op);
    }
  }

  /**
   On a run without a restart whose steps ran to their end, or did nothing at all, the index
   is exact as long as no step withdraws a shared address, and the first step that does
   makes it inexact.
   */
  lemma {:induction false} IndexExactOverRun(s: State, run: seq<Step>, n: nat)
    requires Fresh(s) && n <= |run| && CompletedRun(s, run, n) && (n > 0 ==> UnsharedRun(s, run, n - 1))
    ensures Agree(StateAfter(s, run, n)) <==> UnsharedRun(s, run, n)
  {
    if n > 0 {
      IndexExactOverRun(s, run, n - 1);
      StepStaysExact(StateAfter(s, run, n - 1), run[n - 1]);
    }
  }

  /** Active sessions have distinct addresses. */
  ghost predicate DistinctIps(s: State) {
    forall i: nat, j: nat, ip :: HoldsIp(s, i, ip) && HoldsIp(s, j, ip) ==> i == j
  }

  /** A kick is aimed at an active session; a login comes from an address no other session holds. */
  ghost predicate Polite(s: State, op: Op) {
    match op
    case Kick(id) => id < |s.sessions| ==> s.sessions[id].status == Active
    case RestartFirewall => false
    case _ =>
      RequestOf(s, op).Some? ==>
        var q := RequestOf(s, op).value.0;
        forall j: nat :: HoldsIp(s, j, q.ip) ==> Existing(s, q.mac) == Some(j)
  }

  lemma PoliteNeverShared(s: State, op: Op)
    requires DistinctIps(s) && Polite(s, op) && !OpTrace(s, op).raised
    ensures !Shared(s, Released(s, op))
  {
    var gone := Released(s, op);
    forall i: nat | i in gone && i < |s.sessions| ensures HoldsIp(s, i, s.sessions[i].ip) {
      match op
      case PollCheckouts(rooms) => if rooms.Some? { CheckoutIdsActive(s, rooms.value, i); }
      case SampleBytes(show) =>
        BytesWithdraw(s, show);
        OverIdsListed(s, Rows(s, AnyActive), show, 0, i);
        assert Selected(s, AnyActive, i);
      case _ =>
    }
  }

  lemma {:induction false} CheckoutIdsActive(s: State, rooms: seq<string>, i: nat)
    requires !CheckoutsTrace(s, rooms).raised && i in CheckoutIds(s, rooms) && i < |s.sessions|
    ensures s.sessions[i].status == Active
    decreases |rooms|
  {
    var ids := Rows(s, InRoom(rooms[0]));
    if i in ids {
      assert Selected(s, InRoom(rooms[0]), i);
    } else {
      SweepOutcome(s, ids, Expired);
      var t := Replay(s, CheckoutTrace(s, rooms[0]).effects);
      CheckoutIdsActive(t, rooms[1..], i);
    }
  }

  /** Every row active at `ip` in t was already there in s, except row i at its new address. */
  ghost predicate OnlyNew(s: State, t: State, i: nat, ip: Ip) {
    forall j: nat, x :: HoldsIp(t, j, x) ==> HoldsIp(s, j, x) || (j == i && x == ip)
  }

  lemma CreateRows(s: State, q: Request, pending: seq<Write>, env: Env)
    requires GuestWrites(pending) && !CreateTrace(s, q, pending, env).raised
    ensures OnlyNew(s, Replay(s, CreateTrace(s, q, pending, env).effects),
                    if Existing(s, q.mac).Some? then Existing(s, q.mac).value else |s.sessions|, q.ip)
  {
    CreateOutcome(s, q, pending, env);
    GuestWritesKeepRows(s, pending);
    if Moves(s, q) { GuestWritesKeepRows(Closed(s, [Existing(s, q.mac).value]), pending); }
  }

  lemma LoginRows(s: State, op: Op)
    requires RequestOf(s, op).Some? && !OpTrace(s, op).raised
    ensures var q := RequestOf(s, op).value.0;
            OnlyNew(s, Outcome(s, op), if Existing(s, q.mac).Some? then Existing(s, q.mac).value else |s.sessions|, q.ip)
  {
    var (q, pending, env) := RequestOf(s, op).value;
    LoginOutcome(s, op);
    CreateRows(s, q, pending, env);
    if op.VoucherLogin? {
      UseRows(Created(s, op), SetUsed(q.voucher.value, s.vouchers[q.voucher.value].usedCount + 1));
    }
  }

  lemma UseRows(t: State, w: Write)
    requires w.SetUsed?
    ensures Replay(t, [Commit([w])]).sessions == t.sessions
  {
    ReplayOne(t, Commit([w]));
    OneWrite(t, w);
  }

  lemma SweepRows(s: State, ids: seq<nat>, status: Status)
    requires KnownIds(s, ids) && status != Active && !SweepTrace(s, ids, status).raised
    ensures forall j: nat, x :: HoldsIp(Replay(s, SweepTrace(s, ids, status).effects), j, x) ==> HoldsIp(s, j, x)
  {
    SweepOutcome(s, ids, status);
  }

  lemma SameRowsDistinct(s: State, t: State)
    requires DistinctIps(s) && t.sessions == s.sessions
    ensures DistinctIps(t)
  {
    forall i: nat, j: nat, ip | HoldsIp(t, i, ip) && HoldsIp(t, j, ip) ensures i == j {
      assert HoldsIp(s, i, ip) && HoldsIp(s, j, ip);
    }
  }

  /** Polite operations that run to their end, or have no effect, keep active addresses distinct. */
  lemma PoliteKeepsDistinct(s: State, op: Op)
    requires DistinctIps(s) && Polite(s, op) && (!OpTrace(s, op).raised || OpTrace(s, op).effects == [])
    ensures DistinctIps(Outcome(s, op))
  {
    if OpTrace(s, op).effects != [] { PoliteCompletedKeepsDistinct(s, op); }
  }

  lemma PoliteCompletedKeepsDistinct(s: State, op: Op)
    requires DistinctIps(s) && Polite(s, op) && !OpTrace(s, op).raised
    ensures DistinctIps(Outcome(s, op))
  {
    match op
    case Disconnect(arp) =>
      if ValidateMac(arp).Some? { SweepRows(s, Rows(s, OfDevice(ValidateMac(arp).value)), Kicked); }
    case Kick(id) => if id < |s.sessions| { SweepOne(s, id, Kicked); SweepRows(s, [id], Kicked); }
    case ExpireOverdue => SweepRows(s, Rows(s, Overdue), Expired);
    case Checkout(room) => SweepRows(s, Rows(s, InRoom(room)), Expired);
    case PollCheckouts(rooms) => if rooms.Some? { PollRows(s, rooms.value); }
    case SampleBytes(show) => BytesWithdraw(s, show);
    case _ =>
      if Quiet(op) {
        QuietOps(s, op);
        SameRowsDistinct(s, Outcome(s, op));
      } else if RequestOf(s, op).Some? { LoginRows(s, op); }
  }

  lemma PollRows(s: State, rooms: seq<string>)
    requires !PollTrace(s, Some(rooms)).raised
    ensures forall j: nat, x :: HoldsIp(Replay(s, PollTrace(s, Some(rooms)).effects), j, x) ==> HoldsIp(s, j, x)
  {
    CheckoutsOutcome(s, rooms);
    SyncRows(Swept(s, CheckoutIds(s, rooms), Expired), s.now);
    ReplayConcat(s, CheckoutsTrace(s, rooms).effects, [Commit([SetLastSync(s.now)])]);
  }

  lemma SyncRows(t: State, at: int)
    ensures Replay(t, [Commit([SetLastSync(at)])]).sessions == t.sessions
  {
    ReplayOne(t, Commit([SetLastSync(at)]));
    OneWrite(t, SetLastSync(at));
  }

  /** Every step ran to its end politely, or had no effect at all. */
  ghost predicate PoliteRun(s: State, run: seq<Step>, n: nat)
    requires n <= |run|
  {
    n > 0 ==> PoliteRun(s, run, n - 1)
              && (Idle(StateAfter(s, run, n - 1), run[n - 1])
                  || (Completed(StateAfter(s, run, n - 1), run[n - 1]) && Polite(StateAfter(s, run, n - 1), run[n - 1].op)))
  }

  lemma PoliteStep(s: State, step: Step)
    requires Agree(s) && DistinctIps(s) && (Idle(s, step) || (Completed(s, step) && Polite(s, step.op)))
    ensures Agree(After(s, step)) && DistinctIps(After(s, step))
  {
    if Idle(s, step) {
      IdleChangesNothing(s, step);
    } else {
      CompletedIsOutcome(s, step);
      PoliteNeverShared(s, step.op);
      IndexStaysExact(s, step.op);
      PoliteKeepsDistinct(s, step.op);
    }
  }

  /**
   On every run from a fresh install of steps that are polite and complete, or without
   effect (refused logins, say), the whitelist and the
   DNS bypass set are, after each step, exactly the addresses of the active sessions.
   */
  lemma {:induction false} IndexExactOnPoliteRuns(s: State, run: seq<Step>, n: nat)
    requires Fresh(s) && n <= |run| && PoliteRun(s, run, n)
    ensures Agree(StateAfter(s, run, n)) && DistinctIps(StateAfter(s, run, n))
  {
    if n > 0 {
      IndexExactOnPoliteRuns(s, run, n - 1);
      PoliteStep(StateAfter(s, run, n - 1), run[n - 1]);
    }
  }
}
