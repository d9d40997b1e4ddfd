/**
 A run that leaves the index inexact: two logins from one address, then a kick of the first.
 Devices behind one router are such a pair, as are two whose MAC the ARP table does not know.
 */
module SharedAddress {
  import opened Common
  import opened PortalState
  import opened Invariants
  import opened Operations
  import opened Sweeps
  import opened Agreement
  import opened Runs
  import opened Vouchers

  const WORKING := Env(true, true, true, true)

  lemma {:induction false} FindUnchanged(vouchers: seq<Voucher>, v: nat, x: Voucher, code: string, n: nat)
    requires v < |vouchers| && n <= |vouchers| && x.code == vouchers[v].code
    ensures FindVoucher(vouchers[v := x], code, n) == FindVoucher(vouchers, code, n)
  {
    if n > 0 { FindUnchanged(vouchers, v, x, code, n - 1); }
  }

  /** A voucher login that works, from an address whose MAC is unknown: one more row, one more use. */
  lemma WorkingLogin(s: State, ip: Ip, code: string, v: nat)
    requires s.loaded && ip.V4? && Validate(s, code) == Success(v)
    ensures var step := Step(VoucherLogin(ip, None, code, WORKING), None);
            var t := After(s, step);
            && Completed(s, step) && Released(s, step.op) == []
            && t.loaded && t.now == s.now && |t.sessions| == |s.sessions| + 1
            && t.sessions[..|s.sessions|] == s.sessions && HoldsIp(t, |s.sessions|, ip)
            && t.vouchers == s.vouchers[v := s.vouchers[v].(usedCount := s.vouchers[v].usedCount + 1)]
  {
    var op := VoucherLogin(ip, None, code, WORKING);
    var q := VoucherRequest(s, op, v);
    var create := CreateTrace(s, q, [], WORKING);
    LoginEffects(s, op, v);
    LoginRaises(s, op, v);
    NewRowStays(s, q, [], WORKING);
    UsedState(s, create.effects, v);
    LoginKeepsTable(s, q);
    CountKeepsTable(Replay(s, create.effects), SetUsed(v, s.vouchers[v].usedCount + 1));
    UseCounted(s, create.effects, SetUsed(v, s.vouchers[v].usedCount + 1));
  }

  lemma LoginKeepsTable(s: State, q: Request)
    requires s.loaded && q.ip.V4? && Existing(s, q.mac).None?
    ensures Replay(s, CreateTrace(s, q, [], WORKING).effects).loaded
  {
    CreateOutcome(s, q, [], WORKING);
  }

  lemma CountKeepsTable(s: State, w: Write)
    requires w.SetUsed?
    ensures var t := ApplyWrite(s, w); t.loaded == s.loaded && t.now == s.now
  {
  }

  /** Used once, a voucher with two uses left is still good. */
  lemma StillGood(s: State, t: State, code: string, v: nat)
    requires Validate(s, code) == Success(v) && s.vouchers[v].usedCount + 2 <= s.vouchers[v].maxUses && t.now == s.now
    requires t.vouchers == s.vouchers[v := s.vouchers[v].(usedCount := s.vouchers[v].usedCount + 1)]
    ensures Validate(t, code) == Success(v)
  {
    FindUnchanged(s.vouchers, v, t.vouchers[v], code, |s.vouchers|);
  }

  lemma KickCompletes(s: State, id: nat)
    requires id < |s.sessions| && s.sessions[id].ip.V4?
    ensures Completed(s, Step(Kick(id), None)) && !Idle(s, Step(Kick(id), None)) && Released(s, Kick(id)) == [id]
  {
    ExpireOutcome(s, id, Kicked, []);
  }

  function TwoLoginsAndAKick(ip: Ip, code: string): seq<Step> {
    [Step(VoucherLogin(ip, None, code, WORKING), None), Step(VoucherLogin(ip, None, code, WORKING), None), Step(Kick(0), None)]
  }

  /** Nothing fails and nobody is impolite about the kick, and yet the second client is shut out. */
  lemma SharedAddressBreaksIndex(s: State, ip: Ip, code: string, v: nat)
    requires Fresh(s) && s.loaded && ip.V4? && Validate(s, code) == Success(v)
    requires s.vouchers[v].usedCount + 2 <= s.vouchers[v].maxUses
    ensures var run := TwoLoginsAndAKick(ip, code);
            && CompletedRun(s, run, 3)
            && HoldsIp(StateAfter(s, run, 2), 0, ip) && HoldsIp(StateAfter(s, run, 2), 1, ip)
            && !Agree(StateAfter(s, run, 3))
  {
    var run := TwoLoginsAndAKick(ip, code);
    var t1, t2 := TwoLogins(s, ip, code, v);
    KickCompletes(t2, 0);
    RunOfThree(s, run);
    assert SharesWith(t2, [0], 0, 1);
    NoneShared(s, run[0]);
    NoneShared(t1, run[1]);
    ThreeSteps(s, run);
    IndexExactOverRun(s, run, 3);
  }

  lemma TwoLogins(s: State, ip: Ip, code: string, v: nat) returns (t1: State, t2: State)
    requires s.sessions == [] && s.loaded && ip.V4? && Validate(s, code) == Success(v)
    requires s.vouchers[v].usedCount + 2 <= s.vouchers[v].maxUses
    ensures var step := Step(VoucherLogin(ip, None, code, WORKING), None);
            && t1 == After(s, step) && t2 == After(t1, step) && Completed(s, step) && Completed(t1, step)
            && Released(s, step.op) == [] && Released(t1, step.op) == []
            && HoldsIp(t2, 0, ip) && HoldsIp(t2, 1, ip) && |t2.sessions| == 2
  {
    var step := Step(VoucherLogin(ip, None, code, WORKING), None);
    WorkingLogin(s, ip, code, v);
    t1 := After(s, step);
    StillGood(s, t1, code, v);
    WorkingLogin(t1, ip, code, v);
    t2 := After(t1, step);
    assert t2.sessions[0] == t2.sessions[..1][0] == t1.sessions[0];
  }

  lemma RunOfThree(s: State, run: seq<Step>)
    requires |run| == 3
    ensures StateAfter(s, run, 0) == s && StateAfter(s, run, 1) == After(s, run[0])
    ensures StateAfter(s, run, 2) == After(StateAfter(s, run, 1), run[1])
  {
  }

  lemma NoneShared(s: State, step: Step)
    requires Released(s, step.op) == []
    ensures !WithdrawsShared(s, step)
  {
  }

  lemma ThreeSteps(s: State, run: seq<Step>)
    requires |run| == 3
    requires var t1 := After(s, run[0]);
             var t2 := After(t1, run[1]);
             && Completed(s, run[0]) && Completed(t1, run[1]) && Completed(t2, run[2])
             && !run[0].op.RestartFirewall? && !run[1].op.RestartFirewall? && !run[2].op.RestartFirewall?
             && !WithdrawsShared(s, run[0]) && !WithdrawsShared(t1, run[1]) && WithdrawsShared(t2, run[2])
    ensures CompletedRun(s, run, 3) && UnsharedRun(s, run, 2) && !UnsharedRun(s, run, 3)
  {
    RunOfThree(s, run);
    assert UnsharedRun(s, run, 0) && UnsharedRun(s, run, 1);
    assert CompletedRun(s, run, 0) && CompletedRun(s, run, 1) && CompletedRun(s, run, 2);
  }
}
