/** Voucher accounting over whole runs, killed and failing logins included. */
module Vouchers {
  import opened Common
  import opened PortalState
  import opened Invariants
  import opened Operations
  import opened OperationSafety
  import opened Sweeps
  import opened Agreement
  import opened Runs

  /** How many sessions were ever created for voucher number v. */
  function SessionsFor(rows: seq<Session>, v: nat): nat {
    if rows == [] then 0
    else SessionsFor(rows[..|rows| - 1], v) + (if rows[|rows| - 1].voucher == Some(v) then 1 else 0)
  }

  lemma {:induction false} SameVouchersSameCount(a: seq<Session>, b: seq<Session>, v: nat)
    requires |a| == |b| && forall i :: 0 <= i < |a| ==> a[i].voucher == b[i].voucher
    ensures SessionsFor(a, v) == SessionsFor(b, v)
    decreases |a|
  {
    if a != [] { SameVouchersSameCount(a[..|a| - 1], b[..|a| - 1], v); }
  }

  // ---- Effects that neither create a session nor count a use ----

  predicate TameWrites(ws: seq<Write>) {
    forall w :: w in ws ==> !w.InsertSession? && !w.SetUsed?
  }

  predicate Tame(es: seq<Effect>) {
    forall e :: e in es && e.Commit? ==> TameWrites(e.writes)
  }

  ghost predicate SameAccounts(s: State, t: State) {
    && t.vouchers == s.vouchers && |t.sessions| == |s.sessions|
    && forall i :: 0 <= i < |s.sessions| ==> t.sessions[i].voucher == s.sessions[i].voucher
  }

  lemma {:induction false} TameWritesKeep(s: State, ws: seq<Write>)
    requires TameWrites(ws)
    ensures SameAccounts(s, ApplyWrites(s, ws))
    decreases |ws|
  {
    if ws != [] {
      assert ws[0] in ws;
      TameWritesKeep(ApplyWrite(s, ws[0]), ws[1..]);
    }
  }

  lemma {:induction false} TameKeeps(s: State, es: seq<Effect>)
    requires Tame(es)
    ensures SameAccounts(s, Replay(s, es))
    decreases |es|
  {
    if es != [] {
      assert es[0] in es;
      if es[0].Commit? { TameWritesKeep(s, es[0].writes); }
      TameKeeps(Apply(s, es[0]), es[1..]);
    }
  }

  lemma ThenTame(a: Trace, b: Trace)
    requires Tame(a.effects) && Tame(b.effects)
    ensures Tame(Then(a, b).effects)
  {
  }

  lemma OthersTame(s: State, op: Op)
    requires !op.RoomLogin? && !op.VoucherLogin? && !op.PortalPage?
    ensures Tame(OpTrace(s, op).effects)
  {
    match op
    case Disconnect(arp) =>
      if ValidateMac(arp).Some? { SweepCloses(s, Rows(s, OfDevice(ValidateMac(arp).value)), Kicked); }
    case Kick(id) => ExpireCloses(s, id, Kicked, []);
    case ExpireOverdue => SweepCloses(s, Rows(s, Overdue), Expired);
    case Checkout(room) => SweepCloses(s, Rows(s, InRoom(room)), Expired);
    case PollCheckouts(rooms) =>
      if rooms.Some? { CheckoutsClose(s, rooms.value); }
    case SampleBytes(show) => BytesClose(s, Rows(s, AnyActive), [], show, 0);
    case _ =>
  }

  // ---- Logins ----

  /** create_session: one commit that may insert one row, then nothing that counts. */
  lemma CreateAccounts(s: State, q: Request, pending: seq<Write>, env: Env, k: nat, v: nat)
    requires GuestWrites(pending) && k <= |CreateTrace(s, q, pending, env).effects|
    ensures var t := Replay(s, CreateTrace(s, q, pending, env).effects[..k]);
            && t.vouchers == s.vouchers
            && SessionsFor(t.sessions, v) ==
               SessionsFor(s.sessions, v) + (if k > 0 && Existing(s, q.mac).None? && q.voucher == Some(v) then 1 else 0)
  {
    var es := CreateTrace(s, q, pending, env).effects;
    if Existing(s, q.mac).Some? {
      ReuseTame(s, q, pending, env);
      TamePrefixCounts(s, es, k, v);
    } else if k > 0 {
      var commit := Commit(pending + [InsertSession(NewRow(s, q))]);
      var open := Then(RulesTrace(s, q.ip, env), ShapeTrace(q.ip, q.up, q.down, env)).effects;
      OpenTame(s, q.ip, q.up, q.down, env);
      assert es == [commit] + open;
      InsertAccounts(s, pending, NewRow(s, q), v);
      TamePrefixCounts(Apply(s, commit), open, k - 1, v);
      AfterFirst(s, commit, open, k);
    }
  }

  lemma OpenTame(s: State, ip: Ip, up: int, down: int, env: Env)
    ensures Tame(Then(RulesTrace(s, ip, env), ShapeTrace(ip, up, down, env)).effects)
  {
  }

  lemma AfterFirst(s: State, e: Effect, es: seq<Effect>, k: nat)
    requires 0 < k <= |es| + 1
    ensures Replay(s, ([e] + es)[..k]) == Replay(Apply(s, e), es[..k - 1])
  {
    assert ([e] + es)[..k] == [e] + es[..k - 1];
    assert ([e] + es[..k - 1])[1..] == es[..k - 1];
  }

  lemma TamePrefixCounts(s: State, es: seq<Effect>, k: nat, v: nat)
    requires Tame(es) && k <= |es|
    ensures var t := Replay(s, es[..k]);
            t.vouchers == s.vouchers && SessionsFor(t.sessions, v) == SessionsFor(s.sessions, v)
  {
    assert Tame(es[..k]);
    TameKeeps(s, es[..k]);
    SameVouchersSameCount(s.sessions, Replay(s, es[..k]).sessions, v);
  }

  lemma ReuseTame(s: State, q: Request, pending: seq<Write>, env: Env)
    requires GuestWrites(pending) && Existing(s, q.mac).Some?
    ensures Tame(CreateTrace(s, q, pending, env).effects)
  {
    var i := Existing(s, q.mac).value;
    var row := s.sessions[i];
    var rules, shape := RulesTrace(s, q.ip, env), ShapeTrace(q.ip, row.upKbps, 0, env);
    var unrule, unshape := UnruleTrace(row.ip), UnshapeTrace(row.ip, row.upKbps);
    var commit := Trace([Commit(pending + [SetIp(i, q.ip)])], false);
    ThenTame(rules, shape);
    ThenTame(commit, Then(rules, shape));
    ThenTame(unrule, unshape);
    ThenTame(Then(unrule, unshape), Then(commit, Then(rules, shape)));
  }

  lemma InsertAccounts(s: State, pending: seq<Write>, row: Session, v: nat)
    requires GuestWrites(pending)
    ensures var u := Apply(s, Commit(pending + [InsertSession(row)]));
            && u.vouchers == s.vouchers
            && SessionsFor(u.sessions, v) == SessionsFor(s.sessions, v) + (if row.voucher == Some(v) then 1 else 0)
  {
    var w := InsertSession(row);
    ApplyWritesConcat(s, pending, [w]);
    OneWrite(ApplyWrites(s, pending), w);
    GuestWritesKeepRows(s, pending);
    TameWritesKeep(s, pending);
    assert (s.sessions + [row])[..|s.sessions|] == s.sessions;
  }

  /** The login is for voucher v and the voucher is good for it. */
  predicate Validated(s: State, step: Step, v: nat) {
    step.op.VoucherLogin? && Validate(s, step.op.code) == Success(v)
  }

  /** ... and the login ran to its end. */
  predicate Accepted(s: State, step: Step, v: nat) {
    Validated(s, step, v) && Completed(s, step)
  }

  /** It got as far as committing a session of its own; a device that has a live one reuses it. */
  predicate Creates(s: State, step: Step, v: nat) {
    Validated(s, step, v) && Existing(s, step.op.arp).None? && step.cut != Some(0)
  }

  ghost predicate StepAccounts(s: State, step: Step, v: nat)
    requires v < |s.vouchers|
  {
    var t := After(s, step);
    && |t.vouchers| == |s.vouchers|
    && t.vouchers[v] == s.vouchers[v].(usedCount := s.vouchers[v].usedCount + if Accepted(s, step, v) then 1 else 0)
    && SessionsFor(t.sessions, v) == SessionsFor(s.sessions, v) + (if Creates(s, step, v) then 1 else 0)
  }

  /** What the login for voucher w asks of create_session. */
  function VoucherRequest(s: State, op: Op, w: nat): Request
    requires op.VoucherLogin? && w < |s.vouchers|
  {
    Request(op.ip, op.arp, VoucherExpiry(s, s.vouchers[w]), 0, 0, None, Some(w))
  }

  lemma VoucherStep(s: State, step: Step, v: nat)
    requires v < |s.vouchers| && step.op.VoucherLogin?
    ensures StepAccounts(s, step, v)
  {
    match Validate(s, step.op.code)
    case Failure(_) =>
    case Success(w) =>
      LoginEffects(s, step.op, w);
      if |EffectsOf(s, step)| <= |CreateTrace(s, VoucherRequest(s, step.op, w), [], step.op.env).effects| {
        CutLogin(s, step, w, v);
      } else {
        FullLogin(s, step, w, v);
      }
  }

  /** The login was killed, or raised, before the use was counted. */
  lemma CutLogin(s: State, step: Step, w: nat, v: nat)
    requires v < |s.vouchers| && step.op.VoucherLogin? && Validate(s, step.op.code) == Success(w)
    requires |EffectsOf(s, step)| <= |CreateTrace(s, VoucherRequest(s, step.op, w), [], step.op.env).effects|
    ensures StepAccounts(s, step, v)
  {
    var create := CreateTrace(s, VoucherRequest(s, step.op, w), [], step.op.env);
    var es := EffectsOf(s, step);
    LoginEffects(s, step.op, w);
    assert es == create.effects[..|es|];
    CreateAccounts(s, VoucherRequest(s, step.op, w), [], step.op.env, |es|, v);
  }

  lemma FullEffects(s: State, step: Step, w: nat)
    requires step.op.VoucherLogin? && Validate(s, step.op.code) == Success(w)
    requires |EffectsOf(s, step)| > |CreateTrace(s, VoucherRequest(s, step.op, w), [], step.op.env).effects|
    ensures Completed(s, step) && step.cut != Some(0)
    ensures EffectsOf(s, step) == CreateTrace(s, VoucherRequest(s, step.op, w), [], step.op.env).effects
                                  + [Commit([SetUsed(w, s.vouchers[w].usedCount + 1)])]
  {
    LoginEffects(s, step.op, w);
  }

  lemma CreateAccountsWhole(s: State, q: Request, env: Env, v: nat)
    ensures var t := Replay(s, CreateTrace(s, q, [], env).effects);
            && t.vouchers == s.vouchers
            && SessionsFor(t.sessions, v) ==
               SessionsFor(s.sessions, v) + (if Existing(s, q.mac).None? && q.voucher == Some(v) then 1 else 0)
  {
    var es := CreateTrace(s, q, [], env).effects;
    CreateAccounts(s, q, [], env, |es|, v);
    assert es[..|es|] == es;
  }

  lemma UsedState(s: State, create: seq<Effect>, w: nat)
    requires w < |s.vouchers| && Replay(s, create).vouchers == s.vouchers
    ensures var use := SetUsed(w, s.vouchers[w].usedCount + 1);
            var t := Replay(s, create + [Commit([use])]);
            && t.vouchers == s.vouchers[w := s.vouchers[w].(usedCount := s.vouchers[w].usedCount + 1)]
            && t.sessions == Replay(s, create).sessions
  {
    UseCounted(s, create, SetUsed(w, s.vouchers[w].usedCount + 1));
  }

  lemma FullState(s: State, step: Step, w: nat, v: nat)
    requires step.op.VoucherLogin? && Validate(s, step.op.code) == Success(w)
    requires |EffectsOf(s, step)| > |CreateTrace(s, VoucherRequest(s, step.op, w), [], step.op.env).effects|
    ensures var t := After(s, step);
            && t.vouchers == s.vouchers[w := s.vouchers[w].(usedCount := s.vouchers[w].usedCount + 1)]
            && SessionsFor(t.sessions, v) ==
               SessionsFor(s.sessions, v) + (if Existing(s, step.op.arp).None? && w == v then 1 else 0)
  {
    var q := VoucherRequest(s, step.op, w);
    FullEffects(s, step, w);
    CreateAccountsWhole(s, q, step.op.env, v);
    UsedState(s, CreateTrace(s, q, [], step.op.env).effects, w);
  }

  lemma FullLogin(s: State, step: Step, w: nat, v: nat)
    requires v < |s.vouchers| && step.op.VoucherLogin? && Validate(s, step.op.code) == Success(w)
    requires |EffectsOf(s, step)| > |CreateTrace(s, VoucherRequest(s, step.op, w), [], step.op.env).effects|
    ensures StepAccounts(s, step, v)
  {
    FullEffects(s, step, w);
    FullState(s, step, w, v);
  }

  lemma LoginEffects(s: State, op: Op, w: nat)
    requires op.VoucherLogin? && Validate(s, op.code) == Success(w)
    ensures var create := CreateTrace(s, VoucherRequest(s, op, w), [], op.env);
            && OpTrace(s, op).raised == create.raised
            && OpTrace(s, op).effects == create.effects + (if create.raised then [] else [Commit([SetUsed(w, s.vouchers[w].usedCount + 1)])])
  {
  }

  lemma UseCounted(s: State, create: seq<Effect>, use: Write)
    ensures Replay(s, create + [Commit([use])]) == ApplyWrite(Replay(s, create), use)
  {
    ReplayConcat(s, create, [Commit([use])]);
    ReplayOne(Replay(s, create), Commit([use]));
    OneWrite(Replay(s, create), use);
  }

  lemma OtherStep(s: State, step: Step, v: nat)
    requires v < |s.vouchers| && !step.op.VoucherLogin?
    ensures StepAccounts(s, step, v)
  {
    var all := OpTrace(s, step.op).effects;
    var es := EffectsOf(s, step);
    assert es == all[..|es|];
    if RequestOf(s, step.op).Some? {
      var (q, pending, env) := RequestOf(s, step.op).value;
      CreateAccounts(s, q, pending, env, |es|, v);
    } else {
      if !step.op.RoomLogin? && !step.op.PortalPage? { OthersTame(s, step.op); }
      assert Tame(es);
      TameKeeps(s, es);
      SameVouchersSameCount(s.sessions, After(s, step).sessions, v);
    }
  }

  // ---- Over runs ----

  function Trues(list: seq<bool>, n: nat): nat
    requires n <= |list|
  {
    if n == 0 then 0 else Trues(list, n - 1) + (if list[n - 1] then 1 else 0)
  }

  /** Which steps of the run are accepted logins for v, which create a session, which are validated. */
  function Accepts(s: State, run: seq<Step>, v: nat): seq<bool> {
    seq(|run|, i requires 0 <= i < |run| => Accepted(StateAfter(s, run, i), run[i], v))
  }

  function Creations(s: State, run: seq<Step>, v: nat): seq<bool> {
    seq(|run|, i requires 0 <= i < |run| => Creates(StateAfter(s, run, i), run[i], v))
  }

  function Validations(s: State, run: seq<Step>, v: nat): seq<bool> {
    seq(|run|, i requires 0 <= i < |run| => Validated(StateAfter(s, run, i), run[i], v))
  }

  /** How many of the first n steps were. */
  function Uses(s: State, run: seq<Step>, n: nat, v: nat): nat
    requires n <= |run|
  {
    Trues(Accepts(s, run, v), n)
  }

  function Created(s: State, run: seq<Step>, n: nat, v: nat): nat
    requires n <= |run|
  {
    Trues(Creations(s, run, v), n)
  }

  function Attempts(s: State, run: seq<Step>, n: nat, v: nat): nat
    requires n <= |run|
  {
    Trues(Validations(s, run, v), n)
  }

  lemma {:induction false} TruesWithin(a: seq<bool>, b: seq<bool>, n: nat)
    requires n <= |a| == |b| && forall i :: 0 <= i < |a| && a[i] ==> b[i]
    ensures Trues(a, n) <= Trues(b, n)
  {
    if n > 0 { TruesWithin(a, b, n - 1); }
  }

  /** The voucher's count has grown by exactly the uses, within its limit, its sessions by exactly those created. */
  ghost predicate Conserved(s: State, t: State, uses: nat, created: nat, v: nat)
    requires v < |s.vouchers|
  {
    && |t.vouchers| == |s.vouchers|
    && t.vouchers[v] == s.vouchers[v].(usedCount := s.vouchers[v].usedCount + uses)
    && (t.vouchers[v].usedCount <= s.vouchers[v].usedCount || t.vouchers[v].usedCount <= s.vouchers[v].maxUses)
    && SessionsFor(t.sessions, v) == SessionsFor(s.sessions, v) + created
  }

  ghost predicate StepConserves(s: State, t: State, accepted: bool, creates: bool, v: nat) {
    v < |s.vouchers| ==>
      && Conserved(s, t, if accepted then 1 else 0, if creates then 1 else 0, v)
      && (accepted ==> s.vouchers[v].usedCount < s.vouchers[v].maxUses)
  }

  lemma StepDoesConserve(s: State, step: Step, v: nat)
    ensures StepConserves(s, After(s, step), Accepted(s, step, v), Creates(s, step, v), v)
  {
    if v < |s.vouchers| {
      if step.op.VoucherLogin? { VoucherStep(s, step, v); } else { OtherStep(s, step, v); }
    }
  }

  lemma {:induction false} ConservedAlong(states: seq<State>, accepts: seq<bool>, creations: seq<bool>, n: nat, v: nat)
    requires |states| == |accepts| + 1 == |creations| + 1 && n <= |accepts| && v < |states[0].vouchers|
    requires forall i :: 0 <= i < |accepts| ==> StepConserves(states[i], states[i + 1], accepts[i], creations[i], v)
    ensures Conserved(states[0], states[n], Trues(accepts, n), Trues(creations, n), v)
  {
    if n > 0 {
      ConservedAlong(states, accepts, creations, n - 1, v);
      assert StepConserves(states[n - 1], states[n - 1 + 1], accepts[n - 1], creations[n - 1], v);
    }
  }

  /**
   Over every run: the use count has grown by exactly the logins that ran to their end
   (reused sessions included) and never past the limit; the sessions ever created for the
   voucher are exactly those of validated logins without a live session that got as far
   as their first commit.
   */
  lemma VoucherConservation(s: State, run: seq<Step>, n: nat, v: nat)
    requires n <= |run| && v < |s.vouchers|
    ensures Conserved(s, StateAfter(s, run, n), Uses(s, run, n, v), Created(s, run, n, v), v)
  {
    var states := States(s, run);
    forall i | 0 <= i < |run|
      ensures StepConserves(states[i], states[i + 1], Accepts(s, run, v)[i], Creations(s, run, v)[i], v)
    {
      RunStepConserves(s, run, i, v);
    }
    ConservedAlong(states, Accepts(s, run, v), Creations(s, run, v), n, v);
  }

  lemma RunStepConserves(s: State, run: seq<Step>, i: nat, v: nat)
    requires i < |run|
    ensures StepConserves(States(s, run)[i], States(s, run)[i + 1], Accepts(s, run, v)[i], Creations(s, run, v)[i], v)
  {
    StepDoesConserve(StateAfter(s, run, i), run[i], v);
  }

  /** Both kinds of login are validated ones. */
  lemma WithinAttempts(s: State, run: seq<Step>, n: nat, v: nat)
    requires n <= |run|
    ensures Uses(s, run, n, v) <= Attempts(s, run, n, v) && Created(s, run, n, v) <= Attempts(s, run, n, v)
  {
    TruesWithin(Accepts(s, run, v), Validations(s, run, v), n);
    TruesWithin(Creations(s, run, v), Validations(s, run, v), n);
  }

  // ---- Exactly when the uses cover the sessions ----

  /** From an unused voucher without sessions, the count covers the sessions exactly when the uses cover the creating logins. */
  lemma UsesCoverIff(s: State, run: seq<Step>, n: nat, v: nat)
    requires n <= |run| && v < |s.vouchers| && s.vouchers[v].usedCount == 0 && s.sessions == []
    ensures var t := StateAfter(s, run, n);
            && v < |t.vouchers|
            && (SessionsFor(t.sessions, v) <= t.vouchers[v].usedCount <==> Created(s, run, n, v) <= Uses(s, run, n, v))
            && (t.vouchers[v].usedCount == 0 || t.vouchers[v].usedCount <= t.vouchers[v].maxUses)
  {
    VoucherConservation(s, run, n, v);
  }

  /** In particular when every validated login ran to its end. */
  lemma UninterruptedVoucher(s: State, run: seq<Step>, n: nat, v: nat)
    requires n <= |run| && v < |s.vouchers| && s.vouchers[v].usedCount == 0 && s.sessions == []
    requires Attempts(s, run, n, v) == Uses(s, run, n, v)
    ensures var t := StateAfter(s, run, n);
            v < |t.vouchers| && SessionsFor(t.sessions, v) <= t.vouchers[v].usedCount
            && (t.vouchers[v].usedCount == 0 || t.vouchers[v].usedCount <= t.vouchers[v].maxUses)
  {
    UsesCoverIff(s, run, n, v);
    WithinAttempts(s, run, n, v);
  }

  /**
   The step that breaks it: any one step, cut anywhere, adds more sessions than uses exactly
   when it is a validated login of a device without a live session that got as far as its
   first commit and did not run to its end.
   */
  lemma UncoveredStepIff(s: State, step: Step, v: nat)
    requires v < |s.vouchers|
    ensures var t := After(s, step);
            && |t.vouchers| == |s.vouchers|
            && (SessionsFor(t.sessions, v) - SessionsFor(s.sessions, v) > t.vouchers[v].usedCount - s.vouchers[v].usedCount
                <==> Creates(s, step, v) && !Completed(s, step))
  {
    StepDoesConserve(s, step, v);
  }

  /**
   The use is counted last.  A validated login that is not killed, of a device without a live
   session, always leaves a committed active session; the use is counted exactly when the
   address can be opened, and otherwise the voucher stays as good as before.
   */
  lemma FailedLoginIsFree(s: State, op: Op, v: nat)
    requires op.VoucherLogin? && Validate(s, op.code) == Success(v) && Existing(s, op.arp).None?
    ensures var t := Outcome(s, op);
            && (OpTrace(s, op).raised <==> !Opens(s, op.ip, op.env))
            && HoldsIp(t, |s.sessions|, op.ip) && SessionsFor(t.sessions, v) == SessionsFor(s.sessions, v) + 1
            && |t.vouchers| == |s.vouchers|
            && t.vouchers[v].usedCount == s.vouchers[v].usedCount + (if Opens(s, op.ip, op.env) then 1 else 0)
            && (!Opens(s, op.ip, op.env) ==> Validate(t, op.code) == Success(v))
  {
    var step := Step(op, None);
    LoginRaises(s, op, v);
    VoucherStep(s, step, v);
    assert After(s, step) == Outcome(s, op);
    LoginLeavesRow(s, op, v);
    if !Opens(s, op.ip, op.env) { RaisedKeepsVouchers(s, op, v); }
  }

  lemma LoginRaises(s: State, op: Op, v: nat)
    requires op.VoucherLogin? && Validate(s, op.code) == Success(v) && Existing(s, op.arp).None?
    ensures OpTrace(s, op).raised <==> !Opens(s, op.ip, op.env)
  {
    LoginEffects(s, op, v);
    CreateOutcome(s, VoucherRequest(s, op, v), [], op.env);
  }

  /** Whatever fails afterwards, the row the first commit inserted stays, active at its address. */
  lemma LoginLeavesRow(s: State, op: Op, v: nat)
    requires op.VoucherLogin? && Validate(s, op.code) == Success(v) && Existing(s, op.arp).None?
    ensures HoldsIp(Outcome(s, op), |s.sessions|, op.ip)
  {
    var q := VoucherRequest(s, op, v);
    var create := CreateTrace(s, q, [], op.env);
    NewRowStays(s, q, [], op.env);
    LoginEffects(s, op, v);
    if !create.raised {
      UseCounted(s, create.effects, SetUsed(v, s.vouchers[v].usedCount + 1));
    } else {
      assert create.effects + [] == create.effects;
    }
  }

  lemma RaisedKeepsVouchers(s: State, op: Op, v: nat)
    requires op.VoucherLogin? && Validate(s, op.code) == Success(v) && Existing(s, op.arp).None? && OpTrace(s, op).raised
    ensures Validate(Outcome(s, op), op.code) == Success(v)
  {
    var q := VoucherRequest(s, op, v);
    var es := CreateTrace(s, q, [], op.env).effects;
    LoginEffects(s, op, v);
    assert es + [] == es;
    NewRowStays(s, q, [], op.env);
  }
}
