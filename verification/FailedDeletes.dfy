/**
 The deletes of nft and tc are run unchecked: when one fails, the operation goes on as if it
 had not. What such a failure costs an expiry: exactly when the invariant survives it.
 */
module FailedDeletes {
  import opened Common
  import opened PortalState
  import opened Invariants
  import opened Operations
  import opened OperationSafety

  /** Which of the four kinds of delete commands work. */
  datatype Deletes = Deletes(whitelist: bool, dns: bool, wan: bool, ifb: bool)

  predicate Works(e: Effect, works: Deletes) {
    match e
    case DelWhitelist(_) => works.whitelist
    case DelDns(_) => works.dns
    case DelWan(_) => works.wan
    case DelIfb(_) => works.ifb
    case _ => true
  }

  /** What is left of the effects when the failing deletes have none. */
  function Working(es: seq<Effect>, works: Deletes): seq<Effect>
    decreases |es|
  {
    if es == [] then []
    else (if Works(es[0], works) then [es[0]] else []) + Working(es[1..], works)
  }

  lemma {:induction false} WorkingConcat(a: seq<Effect>, b: seq<Effect>, works: Deletes)
    ensures Working(a + b, works) == Working(a, works) + Working(b, works)
    decreases |a|
  {
    if a == [] {
      assert a + b == b;
    } else {
      assert (a + b)[0] == a[0] && (a + b)[1..] == a[1..] + b;
      WorkingConcat(a[1..], b, works);
    }
  }

  lemma ReplayWorking(s: State, e: Effect, works: Deletes)
    ensures Replay(s, Working([e], works)) == if Works(e, works) then Apply(s, e) else s
  {
    assert [e][1..] == [] && Working([], works) == [];
    if Works(e, works) {
      assert Working([e], works) == [e];
      ReplayOne(s, e);
    }
  }

  lemma ReplayWorkingThen(s: State, e: Effect, es: seq<Effect>, works: Deletes)
    ensures Replay(s, Working([e] + es, works)) == Replay(if Works(e, works) then Apply(s, e) else s, Working(es, works))
  {
    WorkingConcat([e], es, works);
    ReplayConcat(s, Working([e], works), Working(es, works));
    ReplayWorking(s, e, works);
  }

  /** expire_session with these deletes working, and everything else. */
  function ExpireWith(s: State, id: nat, status: Status, works: Deletes): State {
    Replay(s, Working(ExpireTrace(s, id, status, []).effects, works))
  }

  /** Another session is active at the address. */
  ghost predicate Elsewhere(s: State, id: nat, ip: Ip) {
    exists j: nat :: j != id && HoldsIp(s, j, ip)
  }

  ghost predicate ClassElsewhere(s: State, id: nat, c: nat) {
    exists j: nat :: j != id && UsesClass(s, j, c)
  }

  ghost predicate UpClassElsewhere(s: State, id: nat, c: nat) {
    exists j: nat :: j != id && UsesClass(s, j, c) && s.sessions[j].upKbps > 0
  }

  /** The withdrawn state: what a failing delete should have taken out is still there. */
  function Left(s: State, id: nat, works: Deletes): State
    requires id < |s.sessions| && s.sessions[id].ip.V4?
  {
    var row := s.sessions[id];
    s.(whitelist := if works.whitelist then s.whitelist - {row.ip} else s.whitelist,
       dnsBypass := if works.dns then s.dnsBypass - {row.ip} else s.dnsBypass,
       wan := if works.wan then s.wan - {ClassId(row.ip)} else s.wan,
       ifb := if works.ifb && row.upKbps > 0 then s.ifb - {ClassId(row.ip)} else s.ifb)
  }

  /** The deletes of an expiry, in order. */
  function DeletesOf(row: Session): seq<Effect>
    requires row.ip.V4?
  {
    var c := ClassId(row.ip);
    [DelWhitelist(row.ip)] + ([DelDns(row.ip)] + ([DelWan(c)] + (if row.upKbps > 0 then [DelIfb(c)] else [])))
  }

  lemma WithdrawIsDeletes(row: Session)
    requires row.ip.V4?
    ensures Then(UnruleTrace(row.ip), UnshapeTrace(row.ip, row.upKbps)) == Trace(DeletesOf(row), false)
  {
  }

  lemma UnshapeWith(s: State, c: nat, up: bool, works: Deletes)
    ensures Replay(s, Working([DelWan(c)] + (if up then [DelIfb(c)] else []), works))
            == s.(wan := if works.wan then s.wan - {c} else s.wan,
                  ifb := if works.ifb && up then s.ifb - {c} else s.ifb)
  {
    var t := if works.wan then Apply(s, DelWan(c)) else s;
    ReplayWorkingThen(s, DelWan(c), if up then [DelIfb(c)] else [], works);
    if up { ReplayWorking(t, DelIfb(c), works); }
  }

  lemma WithdrawWith(s: State, id: nat, works: Deletes)
    requires id < |s.sessions| && s.sessions[id].ip.V4?
    ensures Replay(s, Working(DeletesOf(s.sessions[id]), works)) == Left(s, id, works)
  {
    var row := s.sessions[id];
    var c := ClassId(row.ip);
    var unshape := [DelWan(c)] + (if row.upKbps > 0 then [DelIfb(c)] else []);
    var t := if works.whitelist then Apply(s, DelWhitelist(row.ip)) else s;
    ReplayWorkingThen(s, DelWhitelist(row.ip), [DelDns(row.ip)] + unshape, works);
    ReplayWorkingThen(t, DelDns(row.ip), unshape, works);
    UnshapeWith(if works.dns then Apply(t, DelDns(row.ip)) else t, c, row.upKbps > 0, works);
  }

  lemma ExpireWithOutcome(s: State, id: nat, status: Status, works: Deletes)
    requires id < |s.sessions| && s.sessions[id].ip.V4?
    ensures ExpireWith(s, id, status, works) == ApplyWrite(Left(s, id, works), SetStatus(id, status))
  {
    var row := s.sessions[id];
    var commit := Commit([] + [SetStatus(id, status)]);
    WithdrawIsDeletes(row);
    assert ExpireTrace(s, id, status, []).effects == DeletesOf(row) + [commit];
    WorkingConcat(DeletesOf(row), [commit], works);
    ReplayConcat(s, Working(DeletesOf(row), works), Working([commit], works));
    WithdrawWith(s, id, works);
    ReplayWorking(Left(s, id, works), commit, works);
    assert [] + [SetStatus(id, status)] == [SetStatus(id, status)];
    OneWrite(Left(s, id, works), SetStatus(id, status));
  }

  /** With nothing in the kernel tables only the rows matter, and ending a session is always allowed. */
  lemma EndedRowsGood(s: State, id: nat, status: Status)
    requires Inv(s) && status != Active
    ensures var t := ApplyWrite(s, SetStatus(id, status)); OneLivePerDevice(t) && GuestsKnown(t) && WithinDeviceCap(t)
  {
    var bare := s.(whitelist := {}, dnsBypass := {}, wan := {}, ifb := {});
    ReplayOne(bare, Commit([SetStatus(id, status)]));
    OneWrite(bare, SetStatus(id, status));
    EffectKeepsInv(bare, Commit([SetStatus(id, status)]));
  }

  /** After the end of row id, an address or a class is active exactly if it is elsewhere. */
  lemma EndedActive(s: State, t: State, id: nat, status: Status)
    requires status != Active && t.sessions == ApplyWrite(s, SetStatus(id, status)).sessions
    ensures forall ip :: ActiveIp(t, ip) <==> Elsewhere(s, id, ip)
    ensures forall c :: ActiveClass(t, c) <==> ClassElsewhere(s, id, c)
    ensures forall c :: ActiveUpClass(t, c) <==> UpClassElsewhere(s, id, c)
  {
    forall j: nat, ip ensures HoldsIp(t, j, ip) <==> j != id && HoldsIp(s, j, ip) {}
    forall j: nat, c ensures UsesClass(t, j, c) <==> j != id && UsesClass(s, j, c) {}
    forall ip ensures ActiveIp(t, ip) <==> Elsewhere(s, id, ip) {
      if ActiveIp(t, ip) { var j: nat :| HoldsIp(t, j, ip); assert HoldsIp(s, j, ip); }
      if Elsewhere(s, id, ip) { var j: nat :| j != id && HoldsIp(s, j, ip); assert HoldsIp(t, j, ip); }
    }
    forall c ensures ActiveClass(t, c) <==> ClassElsewhere(s, id, c) {
      if ActiveClass(t, c) { var j: nat :| UsesClass(t, j, c); assert UsesClass(s, j, c); }
      if ClassElsewhere(s, id, c) { var j: nat :| j != id && UsesClass(s, j, c); assert UsesClass(t, j, c); }
    }
    forall c ensures ActiveUpClass(t, c) <==> UpClassElsewhere(s, id, c) {
      if ActiveUpClass(t, c) {
        var j: nat :| UsesClass(t, j, c) && t.sessions[j].upKbps > 0;
        assert UsesClass(s, j, c) && s.sessions[j].upKbps > 0;
      }
      if UpClassElsewhere(s, id, c) {
        var j: nat :| j != id && UsesClass(s, j, c) && s.sessions[j].upKbps > 0;
        assert UsesClass(t, j, c) && t.sessions[j].upKbps > 0;
      }
    }
  }

  /** No failing delete leaves an address in its set that only this session accounts for. */
  ghost predicate NoAccessLeft(s: State, id: nat, works: Deletes)
    requires id < |s.sessions|
  {
    var ip := s.sessions[id].ip;
    && (!works.whitelist && ip in s.whitelist ==> Elsewhere(s, id, ip))
    && (!works.dns && ip in s.dnsBypass ==> Elsewhere(s, id, ip))
  }

  /** ... nor a traffic class. */
  ghost predicate NoClassLeft(s: State, id: nat, works: Deletes)
    requires id < |s.sessions| && s.sessions[id].ip.V4?
  {
    var c := ClassId(s.sessions[id].ip);
    c != DEFAULT_CLASS ==>
      && (!works.wan && c in s.wan ==> ClassElsewhere(s, id, c))
      && (!works.ifb && c in s.ifb ==> UpClassElsewhere(s, id, c))
  }

  lemma AccessSurvivesIff(s: State, id: nat, status: Status, works: Deletes)
    requires Inv(s) && id < |s.sessions| && s.sessions[id].ip.V4? && status != Active
    ensures AccessSafe(ExpireWith(s, id, status, works)) <==> NoAccessLeft(s, id, works)
  {
    var t := ExpireWith(s, id, status, works);
    ExpireWithOutcome(s, id, status, works);
    EndedActive(s, t, id, status);
    var own := s.sessions[id].ip;
    forall ip | ip != own && ActiveIp(s, ip) ensures ActiveIp(t, ip) {
      var j: nat :| HoldsIp(s, j, ip);
      assert j != id;
    }
  }

  lemma ShapingSurvivesIff(s: State, id: nat, status: Status, works: Deletes)
    requires Inv(s) && id < |s.sessions| && s.sessions[id].ip.V4? && status != Active
    ensures ShapingSafe(ExpireWith(s, id, status, works)) <==> NoClassLeft(s, id, works)
  {
    var t := ExpireWith(s, id, status, works);
    ExpireWithOutcome(s, id, status, works);
    EndedActive(s, t, id, status);
    var own := ClassId(s.sessions[id].ip);
    forall c | c != own && ActiveClass(s, c) ensures ActiveClass(t, c) {
      var j: nat :| UsesClass(s, j, c);
      assert j != id;
    }
    forall c | (c != own || s.sessions[id].upKbps <= 0) && ActiveUpClass(s, c) ensures ActiveUpClass(t, c) {
      var j: nat :| UsesClass(s, j, c) && s.sessions[j].upKbps > 0;
      assert j != id;
    }
  }

  /**
   Ending a session keeps the invariant, whichever deletes fail, if and only if no failing
   delete leaves behind an address or a class that only this session accounts for.
   */
  lemma FailedDeletesSafeIff(s: State, id: nat, status: Status, works: Deletes)
    requires Inv(s) && id < |s.sessions| && s.sessions[id].ip.V4? && status != Active
    ensures Inv(ExpireWith(s, id, status, works)) <==> NoAccessLeft(s, id, works) && NoClassLeft(s, id, works)
  {
    ExpireWithOutcome(s, id, status, works);
    EndedRowsGood(s, id, status);
    SameRowsGood(ApplyWrite(s, SetStatus(id, status)), ExpireWith(s, id, status, works));
    AccessSurvivesIff(s, id, status, works);
    ShapingSurvivesIff(s, id, status, works);
  }

  lemma SameRowsGood(s: State, t: State)
    requires OneLivePerDevice(s) && GuestsKnown(s) && WithinDeviceCap(s)
    requires t.sessions == s.sessions && t.guests == s.guests && t.now == s.now
    ensures OneLivePerDevice(t) && GuestsKnown(t) && WithinDeviceCap(t)
  {
    assert forall i :: Live(t, i) <==> Live(s, i);
  }

  /** With every command working it is the expiry of the other theorems. */
  lemma {:induction false} AllWork(es: seq<Effect>)
    ensures Working(es, Deletes(true, true, true, true)) == es
    decreases |es|
  {
    if es != [] { AllWork(es[1..]); }
  }
}
