/**
 When the FIAS connection is dead: exactly when whoever holds the lock waits on an open
 connection for a reply that nothing on its way can bring, and exactly which requests the
 server leaves unanswered.
 */
module FiasSilence {
  import opened Common
  import opened Utf8
  import opened Tags
  import opened GuestRecord
  import opened FiasRecords
  import opened FiasClient
  import opened FiasPairing

  // ---- Dead connections ----

  predicate NoneHandled(reader: Reader, parcels: seq<Parcel>) {
    forall i :: 0 <= i < |parcels| ==> !Handled(reader, parcels[i].record)
  }

  /** The server runs on, no reply has come, and no record on its way has a handler, a logout's included. */
  predicate Mute(reader: Reader, n: Net) {
    n.server.Running? && n.toClient == [] && NoneHandled(reader, n.toServer)
  }

  predicate NothingHandled(reader: Reader, q: Query)
    requires QueryOk(q)
  {
    forall i :: 0 <= i < |RecordsOf(q)| ==> !Handled(reader, RecordsOf(q)[i])
  }

  /** Somebody waits, or is about to, for what nothing can bring: a reply, or the end of the connection. */
  predicate Dead(reader: Reader, n: Net)
    requires Locked(n)
  {
    && Mute(reader, n)
    && match n.link
       case Down => false
       case Greeting(_) => true
       case Up =>
         n.lock.Some? &&
         (PhaseOf(n, n.lock.value).Holding? ==> NothingHandled(reader, PhaseOf(n, n.lock.value).request.query))
  }

  /** Writing a request breaks the silence exactly when one of its records has a handler. */
  lemma WrittenMuteIff(reader: Reader, n: Net, request: Request)
    requires QueryOk(request.query)
    ensures Mute(reader, Written(n, request)) <==> Mute(reader, n) && NothingHandled(reader, request.query)
  {
    var m := Written(n, request);
    var records := RecordsOf(request.query);
    if n.server.Running? {
      assert forall i :: 0 <= i < |n.toServer| ==> m.toServer[i] == n.toServer[i];
      assert forall i :: 0 <= i < |records| ==> m.toServer[|n.toServer| + i].record == records[i];
    }
  }

  lemma DeadStays(reader: Reader, n: Net, step: Step)
    requires Locked(n) && Dead(reader, n) && Enabled(n, step)
    ensures var m := Next(reader, n, step);
            Locked(m) && Dead(reader, m) && m.log == n.log && m.lock == n.lock
  {
    LockKept(reader, n, step);
    match step
    case Begin(task, query) => assert n.lock != Some(task);
    case Write(task) =>
      assert n.lock == Some(task);
      var request := PhaseOf(n, task).request;
      WrittenMuteIff(reader, n.(phases := n.phases[task := Sent(request)]), request);
    case Serve(desk, injected) =>
      assert forall i :: 0 <= i < |n.toServer| - 1 ==> n.toServer[1..][i] == n.toServer[i + 1];
    case _ =>
  }

  lemma {:induction false} DeadForever(reader: Reader, n: Net, steps: seq<Step>)
    requires Locked(n) && Dead(reader, n) && CanRun(reader, n, steps)
    ensures var m := After(reader, n, steps);
            Locked(m) && Dead(reader, m) && m.log == n.log && m.lock == n.lock
    decreases |steps|
  {
    if steps != [] {
      DeadStays(reader, n, steps[0]);
      DeadForever(reader, Next(reader, n, steps[0]), steps[1..]);
    }
  }

  // ---- Every other connection can go on ----

  ghost predicate CanComplete(reader: Reader, n: Net) {
    exists steps :: CanRun(reader, n, steps) && |After(reader, n, steps).log| > |n.log|
  }

  lemma Prepend(reader: Reader, n: Net, step: Step)
    requires Enabled(n, step) && CanComplete(reader, Next(reader, n, step))
    requires |Next(reader, n, step).log| >= |n.log|
    ensures CanComplete(reader, n)
  {
    var steps :| CanRun(reader, Next(reader, n, step), steps)
                 && |After(reader, Next(reader, n, step), steps).log| > |Next(reader, n, step).log|;
    Chain(reader, n, step, steps);
  }

  /** A task number nobody uses. */
  lemma {:induction false} FreshTask(tasks: set<nat>) returns (t: nat)
    ensures forall u :: u in tasks ==> u < t
    decreases |tasks|
  {
    if tasks == {} {
      t := 0;
    } else {
      var some :| some in tasks;
      var bound := FreshTask(tasks - {some});
      t := if bound > some then bound else some + 1;
      assert forall u :: u in tasks ==> u == some || u in tasks - {some};
    }
  }

  /** From a free lock a new task's heartbeat gets as far as being written, and can be answered. */
  lemma HeartbeatWritten(reader: Reader, n: Net) returns (task: nat)
    requires Locked(n) && n.link.Up? && n.lock.None? && Conforms(reader)
    ensures PhaseOf(n, task).Idle? && QueryOk(Beat)
    ensures var m := AskedBy(n, task, Beat);
            Locked(m) && !Dead(reader, m) && m.log == n.log && m.link.Up? && m.lock == Some(task) && PhaseOf(m, task).Sent?
  {
    task := FreshTask(n.phases.Keys);
    var m := AskedBy(n, task, Beat);
    PlainQueries(reader);
    OneRecordIsSolo(reader, Beat);
    BeatAlive(reader, n, m);
    assert forall t :: t in m.phases ==> t == task || (t in n.phases && m.phases[t] == n.phases[t]);
  }

  lemma BeatAlive(reader: Reader, n: Net, m: Net)
    requires Understood(reader, Beat) && RecordsOf(Beat) == [Encode(PrintRequest(Beat))]
    requires m.server == n.server
    requires !n.server.Closed? ==> m.toServer == n.toServer + Parcels(Request(n.issued, Beat), RecordsOf(Beat))
    ensures !Mute(reader, m)
  {
    if n.server.Running? {
      assert m.toServer[|n.toServer|] == Parcel(Request(n.issued, Beat), RecordsOf(Beat)[0]);
    }
  }

  /** The next useful step of somebody who waits: the server answers what it can, and the reply is read. */
  lemma {:induction false} WaitingCompletes(reader: Reader, n: Net)
    requires Locked(n) && n.link.Up? && n.lock.Some? && PhaseOf(n, n.lock.value).Sent? && !Dead(reader, n)
    ensures CanComplete(reader, n)
    decreases |n.toServer|
  {
    var task := n.lock.value;
    if n.toClient != [] {
      ReadCompletes(reader, n, task, 1);
    } else if n.server.Closed? {
      ReadCompletes(reader, n, task, 0);
    } else if n.server.Stopping? {
      ReadCompletes(reader, Next(reader, n, Close), task, 0);
      Prepend(reader, n, Close);
    } else {
      var step := Serve(DESK, DENIED);
      ServedNotDead(reader, n);
      LockKept(reader, n, step);
      WaitingCompletes(reader, Next(reader, n, step));
      Prepend(reader, n, step);
    }
  }

  lemma ReadCompletes(reader: Reader, n: Net, task: nat, count: nat)
    requires PhaseOf(n, task).Sent? && CanTake(n, count)
    ensures CanComplete(reader, n)
  {
    var step := ReadReplies(task, count);
    Chain(reader, n, step, []);
    assert |After(reader, n, [step] + []).log| > |n.log|;
  }

  lemma ServedNotDead(reader: Reader, n: Net)
    requires !Mute(reader, n) && n.toClient == [] && n.server.Running?
    ensures n.toServer != [] && Enabled(n, Serve(DESK, DENIED))
    ensures var m := Next(reader, n, Serve(DESK, DENIED)); !Mute(reader, m) && |m.toServer| < |n.toServer|
  {
    var i :| 0 <= i < |n.toServer| && Handled(reader, n.toServer[i].record);
    var m := Next(reader, n, Serve(DESK, DENIED));
    assert m.server.Running? && i > 0 ==> m.toServer[i - 1] == n.toServer[i];
  }

  lemma FreeLockCompletes(reader: Reader, n: Net)
    requires Locked(n) && n.link.Up? && n.lock.None? && Conforms(reader)
    ensures CanComplete(reader, n)
  {
    var task := HeartbeatWritten(reader, n);
    var m := AskedBy(n, task, Beat);
    WaitingCompletes(reader, m);
    var rest :| CanRun(reader, m, rest) && |After(reader, m, rest).log| > |m.log|;
    AskRun(reader, n, task, Beat, rest);
  }

  lemma WrittenCanBeHeard(reader: Reader, n: Net, task: nat)
    requires Locked(n) && !Dead(reader, n) && n.link.Up? && n.lock == Some(task) && PhaseOf(n, task).Holding?
    ensures Enabled(n, Write(task)) && Locked(Next(reader, n, Write(task))) && !Dead(reader, Next(reader, n, Write(task)))
  {
    var request := PhaseOf(n, task).request;
    LockKept(reader, n, Write(task));
    WrittenMuteIff(reader, n.(phases := n.phases[task := Sent(request)]), request);
  }

  lemma {:induction false} GreetingCompletes(reader: Reader, n: Net)
    requires Locked(n) && n.link.Greeting? && !Dead(reader, n) && Conforms(reader)
    ensures CanComplete(reader, n)
    decreases |n.toServer|
  {
    if n.toClient != [] {
      GreetedCompletes(reader, n, 1);
    } else if n.server.Closed? {
      GreetedCompletes(reader, n, 0);
    } else if n.server.Stopping? {
      LockKept(reader, n, Close);
      GreetedCompletes(reader, Next(reader, n, Close), 0);
      Prepend(reader, n, Close);
    } else {
      ServedNotDead(reader, n);
      LockKept(reader, n, Serve(DESK, DENIED));
      GreetingCompletes(reader, Next(reader, n, Serve(DESK, DENIED)));
      Prepend(reader, n, Serve(DESK, DENIED));
    }
  }

  lemma GreetedCompletes(reader: Reader, n: Net, count: nat)
    requires Locked(n) && n.link.Greeting? && CanTake(n, count) && Conforms(reader)
    ensures CanComplete(reader, n)
  {
    LockKept(reader, n, Greeted(count));
    FreeLockCompletes(reader, Next(reader, n, Greeted(count)));
    Prepend(reader, n, Greeted(count));
  }

  lemma FirstLoginHeard(reader: Reader)
    requires Conforms(reader)
    ensures var n := Next(reader, START, Connect("", "")); Locked(n) && n.link.Greeting? && !Dead(reader, n)
  {
    var n := LoginWritten(reader);
    PlainQueries(reader);
    LockKept(reader, START, Connect("", ""));
    assert Answerable(reader, n.toServer[0].record);
  }

  lemma AliveCompletes(reader: Reader, n: Net)
    requires Locked(n) && !Dead(reader, n) && Conforms(reader) && (n.link.Down? ==> n == START)
    ensures CanComplete(reader, n)
  {
    match n.link
    case Down =>
      FirstLoginHeard(reader);
      GreetingCompletes(reader, Next(reader, START, Connect("", "")));
      Prepend(reader, START, Connect("", ""));
    case Greeting(_) => GreetingCompletes(reader, n);
    case Up =>
      if n.lock.None? {
        FreeLockCompletes(reader, n);
      } else if PhaseOf(n, n.lock.value).Holding? {
        var task := n.lock.value;
        WrittenCanBeHeard(reader, n, task);
        WaitingCompletes(reader, Next(reader, n, Write(task)));
        Prepend(reader, n, Write(task));
      } else {
        WaitingCompletes(reader, n);
      }
  }

  lemma {:induction false} DownIsStart(reader: Reader, n: Net, steps: seq<Step>)
    requires CanRun(reader, n, steps) && (n.link.Down? ==> n == START) && Locked(n)
    ensures var m := After(reader, n, steps); m.link.Down? ==> m == START
    decreases |steps|
  {
    if steps != [] {
      LockKept(reader, n, steps[0]);
      assert !Next(reader, n, steps[0]).link.Down?;
      DownIsStart(reader, Next(reader, n, steps[0]), steps[1..]);
    }
  }

  /**
   After any run, whatever was asked and whatever failed: no exchange of any task can ever
   end again, with or without a reply, exactly when the connection is dead.
   */
  lemma BlockedExactlyWhenDead(reader: Reader, steps: seq<Step>)
    requires Conforms(reader) && CanRun(reader, START, steps)
    ensures Locked(After(reader, START, steps))
    ensures CanComplete(reader, After(reader, START, steps)) <==> !Dead(reader, After(reader, START, steps))
  {
    StartInv(reader);
    InvOverRun(reader, START, steps);
    DownIsStart(reader, START, steps);
    var n := After(reader, START, steps);
    if Dead(reader, n) {
      forall more | CanRun(reader, n, more)
        ensures After(reader, n, more).log == n.log
      {
        DeadForever(reader, n, more);
      }
    } else {
      AliveCompletes(reader, n);
    }
  }

  // ---- Exactly which requests are left unanswered ----

  /** A request without a line end never logs the client out. */
  lemma OneLineNoLogout(reader: Reader, q: Query)
    requires KeepsTags(reader) && QueryOk(q) && NoBreaks(q)
    ensures NoLogout(reader, q) && RecordsOf(q) == [Encode(PrintRequest(q))]
    ensures !IsLogout(reader, Encode(PrintRequest(q)))
  {
    OneRecordIff(q);
    DecodeInverts(PrintRequest(q));
  }

  /** The one record on its way is the outstanding request, and the server runs. */
  lemma HeadIsOutstanding(reader: Reader, steps: seq<Step>)
    requires KeepsTags(reader)
    requires CanRun(reader, START, steps) && OnlyAsks(steps, OneLineOnly())
    requires After(reader, START, steps).toServer != []
    ensures var n := After(reader, START, steps);
            && Locked(n) && |n.toServer| == 1 && n.toClient == [] && Outstanding(n).Some?
            && QueryOk(n.toServer[0].to.query) && NoBreaks(n.toServer[0].to.query)
            && n.toServer[0].record == Encode(PrintRequest(n.toServer[0].to.query))
            && (n.link.Up? ==> n.lock.Some? && PhaseOf(n, n.lock.value).Sent?)
            && n.server.Running?
  {
    var n := After(reader, START, steps);
    StartInv(reader);
    InvOverRun(reader, START, steps);
    OneOnTheWayOverRun(reader, START, steps);
    PlainParcelsOverRun(reader, START, steps);
    OneRecordIff(n.toServer[0].to.query);
  }

  /** Only one-line requests are pending, and the server has not been told to stop. */
  predicate PlainParcels(n: Net) {
    && (forall i :: 0 <= i < |n.toServer| ==> QueryOk(n.toServer[i].to.query) && NoBreaks(n.toServer[i].to.query))
    && !n.server.Stopping?
  }

  lemma {:induction false} PlainParcelsOverRun(reader: Reader, n: Net, steps: seq<Step>)
    requires KeepsTags(reader) && Inv(reader, n) && OneRecordQueries(n) && OneOnTheWay(n) && PlainParcels(n)
    requires CanRun(reader, n, steps) && OnlyAsks(steps, OneLineOnly())
    ensures PlainParcels(After(reader, n, steps))
    decreases |steps|
  {
    if steps != [] {
      assert StepAsks(steps[0], OneLineOnly());
      StepKeepsInv(reader, n, steps[0]);
      OneOnTheWayKept(reader, n, steps[0]);
      PlainParcelsKept(reader, n, steps[0]);
      assert forall i :: 0 <= i < |steps[1..]| ==> steps[1..][i] == steps[i + 1];
      PlainParcelsOverRun(reader, Next(reader, n, steps[0]), steps[1..]);
    }
  }

  lemma PlainParcelsKept(reader: Reader, n: Net, step: Step)
    requires KeepsTags(reader) && Inv(reader, n) && OneRecordQueries(n) && PlainParcels(n) && Enabled(n, step)
    requires StepAsks(step, OneLineOnly())
    ensures PlainParcels(Next(reader, n, step))
  {
    if step.Serve? { OneLineNoLogout(reader, n.toServer[0].to.query); }
  }

  /**
   Over every run of one-record requests: once the server handles the outstanding request
   without an injected failure, the connection is dead for good exactly when the request is
   one it does not answer: its text does not parse to a record with a handler, or it asks
   for departures on a day on which nobody departs.
   */
  lemma SilenceIff(reader: Reader, steps: seq<Step>, desk: Desk)
    requires Conforms(reader) && KeepsTags(reader) && DeskOk(desk) && CanRun(reader, START, steps)
    requires OnlyAsks(steps, OneLineOnly()) && After(reader, START, steps).toServer != []
    ensures Enabled(After(reader, START, steps), Serve(desk, None))
    ensures var n := After(reader, START, steps);
            var m := Next(reader, n, Serve(desk, None));
            && QueryOk(n.toServer[0].to.query) && Locked(m)
            && (Dead(reader, m) <==> !Answered(reader, n.toServer[0].to.query, desk))
  {
    var n := After(reader, START, steps);
    var q := n.toServer[0].to.query;
    HeadIsOutstanding(reader, steps);
    HeadServed(reader, n, q, desk);
  }

  predicate NoInjection(steps: seq<Step>) {
    forall i :: 0 <= i < |steps| && steps[i].Serve? ==> steps[i].injected.None?
  }

  /** Somebody waits, and the server looks at the one record there is. */
  lemma HeadServed(reader: Reader, n: Net, q: Query, desk: Desk)
    requires Conforms(reader) && KeepsTags(reader) && QueryOk(q) && DeskOk(desk) && NoBreaks(q)
    requires Locked(n) && n.server.Running? && n.toClient == [] && Outstanding(n).Some?
    requires |n.toServer| == 1 && n.toServer[0].record == Encode(PrintRequest(q))
    ensures var m := Next(reader, n, Serve(desk, None));
            && Locked(m) && m.log == n.log && m.lock == n.lock
            && (Dead(reader, m) <==> !Answered(reader, q, desk))
  {
    var m := Next(reader, n, Serve(desk, None));
    LockKept(reader, n, Serve(desk, None));
    OneLineNoLogout(reader, q);
    AnsweredIff(reader, q, desk);
    assert m.server.Running? && m.toServer == [];
    assert Mute(reader, m) <==> !Answered(reader, q, desk);
  }

  /** In terms of the texts alone, when there is no quote in them. */
  lemma SilenceIffTexts(reader: Reader, steps: seq<Step>, desk: Desk)
    requires Conforms(reader) && KeepsTags(reader) && DeskOk(desk) && CanRun(reader, START, steps)
    requires OnlyAsks(steps, OneLineOnly()) && After(reader, START, steps).toServer != []
    ensures Enabled(After(reader, START, steps), Serve(desk, None))
    ensures var n := After(reader, START, steps);
            var q := n.toServer[0].to.query;
            && QueryOk(q) && Locked(Next(reader, n, Serve(desk, None)))
            && (QuoteFree(q) ==>
                  (Dead(reader, Next(reader, n, Serve(desk, None)))
                   <==> !Readable(q) || (q.Departures? && !Departs(desk.guests, DayRead(q.day)))))
  {
    SilenceIff(reader, steps, desk);
    var q := After(reader, START, steps).toServer[0].to.query;
    if QuoteFree(q) { UnderstoodIff(reader, q); }
  }

  /** Whenever the server looks at a departure query, somebody departs on the day it reads. */
  ghost predicate FindsDepartures(reader: Reader, n: Net, steps: seq<Step>)
    requires CanRun(reader, n, steps)
    decreases |steps|
  {
    steps != [] ==>
      && (steps[0].Serve? ==> HeadDeparts(n.toServer[0].to.query, steps[0].desk))
      && FindsDepartures(reader, Next(reader, n, steps[0]), steps[1..])
  }

  predicate HeadDeparts(q: Query, desk: Desk) {
    q.Departures? && ValidDate(q.day) ==> Departs(desk.guests, DayRead(q.day))
  }

  /** Requests of one line that the server understands. */
  function UnderstoodOnly(reader: Reader): Query -> bool {
    q => QueryOk(q) && NoBreaks(q) && Understood(reader, q)
  }

  /** Requests of one line without quotes, every text of which reads as an attribute value. */
  function ReadableOnly(): Query -> bool {
    q => QueryOk(q) && NoBreaks(q) && QuoteFree(q) && Readable(q)
  }

  /** Somebody waits only while a record or a reply is on its way. */
  predicate Attended(reader: Reader, n: Net) {
    && (forall t :: t in n.phases && !n.phases[t].Idle? ==> UnderstoodOnly(reader)(n.phases[t].request.query))
    && (forall i :: 0 <= i < |n.toServer| ==> UnderstoodOnly(reader)(n.toServer[i].to.query))
    && (Outstanding(n).Some? ==> n.toServer != [] || n.toClient != [])
    && n.server.Running?
  }

  lemma AttendedKept(reader: Reader, n: Net, step: Step)
    requires Conforms(reader) && KeepsTags(reader) && Inv(reader, n) && OneRecordQueries(n) && Attended(reader, n)
    requires Enabled(n, step) && StepAsks(step, UnderstoodOnly(reader))
    requires step.Serve? ==> step.injected.None? && HeadDeparts(n.toServer[0].to.query, step.desk)
    ensures Attended(reader, Next(reader, n, step))
  {
    match step
    case Connect(key, vendor) => ConnectAttended(reader, n, key, vendor);
    case Begin(task, query) => BeginAttended(reader, n, task, query);
    case Write(task) => WriteAttended(reader, n, task);
    case Serve(desk, _) => ServeAttended(reader, n, desk);
    case ReadReplies(task, count) => ReadAttended(reader, n, task, count);
    case _ =>
  }

  lemma BeginAttended(reader: Reader, n: Net, task: nat, query: Query)
    requires Locked(n) && Attended(reader, n) && Enabled(n, Begin(task, query)) && UnderstoodOnly(reader)(query)
    ensures Attended(reader, Next(reader, n, Begin(task, query)))
  {
    assert n.lock != Some(task);
  }

  lemma ReadAttended(reader: Reader, n: Net, task: nat, count: nat)
    requires Locked(n) && Attended(reader, n) && Enabled(n, ReadReplies(task, count))
    ensures Attended(reader, Next(reader, n, ReadReplies(task, count)))
  {
    assert n.lock == Some(task);
  }

  lemma ServeAttended(reader: Reader, n: Net, desk: Desk)
    requires Conforms(reader) && KeepsTags(reader) && Honest(reader, n) && Attended(reader, n)
    requires Enabled(n, Serve(desk, None)) && HeadDeparts(n.toServer[0].to.query, desk)
    ensures Attended(reader, Next(reader, n, Serve(desk, None)))
  {
    HeadAnswered(reader, n, desk);
    assert Outstanding(Next(reader, n, Serve(desk, None))) == Outstanding(n);
  }

  lemma ConnectAttended(reader: Reader, n: Net, key: string, vendor: string)
    requires Locked(n) && Attended(reader, n) && Enabled(n, Connect(key, vendor))
    requires UnderstoodOnly(reader)(Login(key, vendor))
    ensures Attended(reader, Next(reader, n, Connect(key, vendor)))
  {
    WrittenAttended(reader, n.toServer, Request(n.issued, Login(key, vendor)));
  }

  lemma WriteAttended(reader: Reader, n: Net, task: nat)
    requires Locked(n) && Attended(reader, n) && Enabled(n, Write(task))
    ensures Attended(reader, Next(reader, n, Write(task)))
  {
    assert n.lock == Some(task);
    WrittenAttended(reader, n.toServer, PhaseOf(n, task).request);
  }

  lemma WrittenAttended(reader: Reader, parcels: seq<Parcel>, request: Request)
    requires UnderstoodOnly(reader)(request.query)
    requires forall i :: 0 <= i < |parcels| ==> UnderstoodOnly(reader)(parcels[i].to.query)
    ensures var all := parcels + Parcels(request, RecordsOf(request.query));
            all != [] && forall i :: 0 <= i < |all| ==> UnderstoodOnly(reader)(all[i].to.query)
  {
    OneRecordIff(request.query);
  }

  lemma HeadAnswered(reader: Reader, n: Net, desk: Desk)
    requires Conforms(reader) && KeepsTags(reader) && Honest(reader, n) && Attended(reader, n)
    requires Enabled(n, Serve(desk, None)) && HeadDeparts(n.toServer[0].to.query, desk)
    ensures var m := Next(reader, n, Serve(desk, None)); m.toClient != [] && m.server.Running?
  {
    var q := n.toServer[0].to.query;
    OneLineNoLogout(reader, q);
    AnsweredIff(reader, q, desk);
  }

  lemma {:induction false} AttendedOverRun(reader: Reader, n: Net, steps: seq<Step>)
    requires Conforms(reader) && KeepsTags(reader) && Inv(reader, n) && OneOnTheWay(n) && OneRecordQueries(n)
    requires Attended(reader, n) && CanRun(reader, n, steps) && OnlyAsks(steps, UnderstoodOnly(reader))
    requires FindsDepartures(reader, n, steps) && NoInjection(steps)
    ensures var m := After(reader, n, steps); Inv(reader, m) && Attended(reader, m)
    decreases |steps|
  {
    if steps != [] {
      var step, rest := steps[0], steps[1..];
      CleanTail(reader, steps);
      AttendedStep(reader, n, step);
      AttendedOverRun(reader, Next(reader, n, step), rest);
    }
  }

  lemma CleanTail(reader: Reader, steps: seq<Step>)
    requires steps != [] && OnlyAsks(steps, UnderstoodOnly(reader)) && NoInjection(steps)
    ensures StepAsks(steps[0], UnderstoodOnly(reader)) && (steps[0].Serve? ==> steps[0].injected.None?)
    ensures OnlyAsks(steps[1..], UnderstoodOnly(reader)) && NoInjection(steps[1..])
  {
    var rest := steps[1..];
    assert forall i :: 0 <= i < |rest| ==> rest[i] == steps[i + 1];
  }

  lemma AttendedStep(reader: Reader, n: Net, step: Step)
    requires Conforms(reader) && KeepsTags(reader) && Inv(reader, n) && OneOnTheWay(n) && OneRecordQueries(n)
    requires Attended(reader, n) && Enabled(n, step) && StepAsks(step, UnderstoodOnly(reader))
    requires step.Serve? ==> step.injected.None? && HeadDeparts(n.toServer[0].to.query, step.desk)
    ensures var m := Next(reader, n, step); Inv(reader, m) && OneOnTheWay(m) && OneRecordQueries(m) && Attended(reader, m)
  {
    assert StepAsks(step, OneLineOnly());
    StepKeepsInv(reader, n, step);
    OneOnTheWayKept(reader, n, step);
    AttendedKept(reader, n, step);
  }

  /**
   Over every run without injected failures, of one-line requests the server understands: as
   long as somebody departs whenever it looks at a departure query, the connection is never dead.
   */
  lemma NeverBlocked(reader: Reader, steps: seq<Step>)
    requires Conforms(reader) && KeepsTags(reader) && CanRun(reader, START, steps)
    requires OnlyAsks(steps, UnderstoodOnly(reader)) && FindsDepartures(reader, START, steps) && NoInjection(steps)
    ensures Locked(After(reader, START, steps)) && !Dead(reader, After(reader, START, steps))
  {
    StartInv(reader);
    AttendedOverRun(reader, START, steps);
    AttendedAlive(reader, After(reader, START, steps));
  }

  /** What the client can check before it asks: one line, no quotes, and every text reads as an attribute value. */
  lemma NeverBlockedByTexts(reader: Reader, steps: seq<Step>)
    requires Conforms(reader) && KeepsTags(reader) && CanRun(reader, START, steps)
    requires OnlyAsks(steps, ReadableOnly()) && FindsDepartures(reader, START, steps) && NoInjection(steps)
    ensures Locked(After(reader, START, steps)) && !Dead(reader, After(reader, START, steps))
  {
    forall q | ReadableOnly()(q)
      ensures UnderstoodOnly(reader)(q)
    {
      UnderstoodIff(reader, q);
    }
    OnlyAsksMore(steps, ReadableOnly(), UnderstoodOnly(reader));
    NeverBlocked(reader, steps);
  }

  lemma AttendedAlive(reader: Reader, n: Net)
    requires Inv(reader, n) && Attended(reader, n)
    ensures !Dead(reader, n)
  {
    if n.toServer != [] {
      OneRecordIff(n.toServer[0].to.query);
      assert Handled(reader, n.toServer[0].record);
    }
    if n.lock.Some? && PhaseOf(n, n.lock.value).Holding? {
      var q := PhaseOf(n, n.lock.value).request.query;
      OneRecordIff(q);
      assert RecordsOf(q)[0] == Encode(PrintRequest(q));
    }
  }

  // ---- Requests that are left unanswered ----

  /** A login that is answered, one query, and the server looking at it once. */
  function OneQuestion(q: Query, desk: Desk): seq<Step> {
    GREETING + ([Begin(0, q), Acquire(0), Write(0)] + [Serve(desk, None)])
  }

  /** One request that is not answered leaves every continuation without a completed exchange. */
  lemma OneUnansweredBlocks(reader: Reader, q: Query, desk: Desk, more: seq<Step>)
    requires Conforms(reader) && KeepsTags(reader) && QueryOk(q) && NoBreaks(q) && DeskOk(desk)
    requires !Answered(reader, q, desk)
    ensures CanRun(reader, START, OneQuestion(q, desk))
    ensures var n := After(reader, START, OneQuestion(q, desk));
            CanRun(reader, n, more) ==> After(reader, n, more).log == [] && After(reader, n, more).lock == Some(0)
  {
    QuestionRuns(reader, q, desk);
    var n := After(reader, START, OneQuestion(q, desk));
    if CanRun(reader, n, more) { DeadForever(reader, n, more); }
  }

  lemma QuestionRuns(reader: Reader, q: Query, desk: Desk)
    requires Conforms(reader) && KeepsTags(reader) && QueryOk(q) && NoBreaks(q) && DeskOk(desk)
    requires !Answered(reader, q, desk)
    ensures CanRun(reader, START, OneQuestion(q, desk))
    ensures var n := After(reader, START, OneQuestion(q, desk));
            Locked(n) && Dead(reader, n) && n.log == [] && n.lock == Some(0)
  {
    var asked := AskedBy(GREETED(), 0, q);
    AskedAlone(q);
    HeadServed(reader, asked, q, desk);
    Chain(reader, asked, Serve(desk, None), []);
    AskRun(reader, GREETED(), 0, q, [Serve(desk, None)]);
    GreetingRun(reader, [Begin(0, q), Acquire(0), Write(0)] + [Serve(desk, None)]);
  }

  lemma AskedAlone(q: Query)
    requires QueryOk(q) && NoBreaks(q)
    ensures AskedBy(GREETED(), 0, q).toServer == [Parcel(Request(1, q), Encode(PrintRequest(q)))]
    ensures Locked(AskedBy(GREETED(), 0, q))
  {
    OneRecordIff(q);
    ParcelOne(Request(1, q), Encode(PrintRequest(q)));
    NothingBefore([], Parcels(Request(1, q), RecordsOf(q)));
  }

  lemma DeparturesSilence(reader: Reader, day: Date, desk: Desk)
    requires Conforms(reader) && ValidDate(day) && DeskOk(desk)
    ensures NoBreaks(Departures(day)) && (Answered(reader, Departures(day), desk) <==> Departs(desk.guests, DayRead(day)))
  {
    DeparturesAnswered(reader, day, desk);
    DateChars(day);
    assert QueryFields(Departures(day)) == [Field("DepartureDate", PrintDate(day))];
    NoReturnsNoBreak(PrintDate(day));
  }

  /** One checkout poll for a day on which nobody departs leaves every later query without a reply. */
  lemma AnEmptyDayBlocks(reader: Reader, day: Date, desk: Desk, more: seq<Step>)
    requires Conforms(reader) && KeepsTags(reader) && ValidDate(day) && InCentury(day) && DeskOk(desk)
    requires !Departs(desk.guests, day)
    ensures CanRun(reader, START, OneQuestion(Departures(day), desk))
    ensures var n := After(reader, START, OneQuestion(Departures(day), desk));
            CanRun(reader, n, more) ==> After(reader, n, more).log == [] && After(reader, n, more).lock == Some(0)
  {
    DeparturesSilence(reader, day, desk);
    DateReadsAs(day);
    OneUnansweredBlocks(reader, Departures(day), desk, more);
  }

  /** And so does a guest who types a name with a bare ampersand, whoever is in the house. */
  lemma AnAmpersandBlocks(reader: Reader, room: string, desk: Desk, more: seq<Step>)
    requires Conforms(reader) && KeepsTags(reader) && '\"' !in room && !HasBreak(room) && DeskOk(desk)
    ensures CanRun(reader, START, OneQuestion(GuestQuery(room, "A&B"), desk))
    ensures var n := After(reader, START, OneQuestion(GuestQuery(room, "A&B"), desk));
            CanRun(reader, n, more) ==> After(reader, n, more).log == [] && After(reader, n, more).lock == Some(0)
  {
    AmpersandUnread(reader, room);
    NoReturnsNoBreak("A&B");
    assert QueryFields(GuestQuery(room, "A&B")) == [Field("RoomNumber", room), Field("LastName", "A&B")];
    OneUnansweredBlocks(reader, GuestQuery(room, "A&B"), desk, more);
  }

  /** With a logout behind it on the next line, even that name does not block: the connection ends instead. */
  lemma ALogoutEndsTheWait(reader: Reader, room: string, name: string)
    requires Conforms(reader) && NoBreaks(GuestQuery(room, name))
    ensures var n := AskedBy(GREETED(), 0, GuestQuery(room, LogoutName(name))); Locked(n) && !Dead(reader, n)
  {
    var q := GuestQuery(room, LogoutName(name));
    LogoutRecords(reader, room, name);
    AskedParcels(GREETED(), 0, q);
    assert Handled(reader, AskedBy(GREETED(), 0, q).toServer[1].record);
  }
}
