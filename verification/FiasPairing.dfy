/**
 Exactly when the replies on the shared FIAS socket pair up with the requests: for which
 queries, on every run, and what a room or a name must hold for pairing to fail.
 */
module FiasPairing {
  import opened Common
  import opened Framing
  import opened Utf8
  import opened Xml
  import opened Tags
  import opened FiasRecords
  import opened FiasClient

  lemma OneRecordIsSolo(reader: Reader, q: Query)
    requires QueryOk(q) && NoBreaks(q)
    ensures Solo(reader, q) && RecordsOf(q) == [Encode(PrintRequest(q))]
  {
    OneRecordIff(q);
  }

  lemma PlainQueries(reader: Reader)
    requires Conforms(reader)
    ensures NoBreaks(Beat) && NoBreaks(Login("", ""))
    ensures Understood(reader, Beat) && Understood(reader, Login("", ""))
  {
    NoReturnsNoBreak("");
    assert QueryFields(Login("", "")) == [Field("AuthKey", ""), Field("VendorID", "")];
    UnderstoodIff(reader, Beat);
    UnderstoodIff(reader, Login("", ""));
  }

  /** Only this query, heartbeats, and a plain login. */
  function Beside(q: Query): Query -> bool {
    p => p == q || p == Beat || p == Login("", "")
  }

  /** Whatever else happens, replies pair up when only this is asked, beside heartbeats. */
  ghost predicate AlwaysPairs(reader: Reader, q: Query) {
    forall steps :: CanRun(reader, START, steps) && OnlyAsks(steps, Beside(q)) ==>
      Paired(After(reader, START, steps))
  }

  /** No handler is made to drop the connection. */
  predicate NoDrop(steps: seq<Step>) {
    forall i :: 0 <= i < |steps| && steps[i].Serve? ==> steps[i].injected != Some(Drop)
  }

  const DENIAL := "<LA Result=\"DENIED\"/>"
  const DENIED: Option<Failure> := Some(Say(DENIAL))

  const DESK := Desk(true, [])

  /** The replies the pending records get when each is answered with a denial. */
  function Denials(reader: Reader, parcels: seq<Parcel>): seq<Reply> {
    if parcels == [] then []
    else
      (if Answerable(reader, parcels[0].record)
       then [Reply(parcels[0].to, parcels[0].record, DESK, DENIED, DENIAL)] else [])
      + Denials(reader, parcels[1..])
  }

  predicate HasLogout(reader: Reader, parcels: seq<Parcel>) {
    exists i :: 0 <= i < |parcels| && IsLogout(reader, parcels[i].record)
  }

  /** The server will handle everything that is pending: it runs, or all of it came with the logout. */
  predicate ServesAll(n: Net) {
    !n.server.Closed? && (n.server.Stopping? ==> n.server.left == |n.toServer|)
  }

  function AllServed(reader: Reader, n: Net): Net {
    n.(toServer := [], served := n.served + RecordsIn(n.toServer), toClient := n.toClient + Denials(reader, n.toServer),
       server := if n.server.Running? && !HasLogout(reader, n.toServer) then Running else Stopping(0))
  }

  /** Everything pending is answered with a denial, and the run goes on from there. */
  lemma {:induction false} ServeAll(reader: Reader, n: Net, rest: seq<Step>) returns (serves: seq<Step>)
    requires ServesAll(n) && CanRun(reader, AllServed(reader, n), rest)
    ensures AllDenied(serves)
    ensures CanRun(reader, n, serves + rest)
    ensures After(reader, n, serves + rest) == After(reader, AllServed(reader, n), rest)
    decreases |n.toServer|
  {
    if n.toServer == [] {
      serves := [];
      assert AllServed(reader, n) == n;
      assert serves + rest == rest;
    } else {
      var step := Serve(DESK, DENIED);
      var m := Next(reader, n, step);
      ServedFirst(reader, n);
      var more := ServeAll(reader, m, rest);
      serves := [step] + more;
      Chain(reader, n, step, more + rest);
      StepsRegrouped([step], more, rest);
    }
  }

  predicate AllDenied(serves: seq<Step>) {
    forall i :: 0 <= i < |serves| ==> serves[i] == Serve(DESK, DENIED)
  }

  lemma StepsRegrouped(a: seq<Step>, b: seq<Step>, c: seq<Step>)
    ensures (a + b) + c == a + (b + c)
  {
  }

  lemma ServedFirst(reader: Reader, n: Net)
    requires n.toServer != [] && ServesAll(n)
    ensures Enabled(n, Serve(DESK, DENIED)) && ServesAll(Next(reader, n, Serve(DESK, DENIED)))
    ensures Next(reader, n, Serve(DESK, DENIED)).toServer == n.toServer[1..]
    ensures AllServed(reader, Next(reader, n, Serve(DESK, DENIED))) == AllServed(reader, n)
  {
    var m := Next(reader, n, Serve(DESK, DENIED));
    assert RecordsIn(n.toServer) == [n.toServer[0].record] + RecordsIn(n.toServer[1..]);
    assert m.served + RecordsIn(m.toServer) == n.served + RecordsIn(n.toServer);
    assert m.toClient + Denials(reader, m.toServer) == n.toClient + Denials(reader, n.toServer);
    LogoutFirst(reader, n.toServer);
  }

  lemma LogoutFirst(reader: Reader, parcels: seq<Parcel>)
    requires parcels != []
    ensures HasLogout(reader, parcels) <==> IsLogout(reader, parcels[0].record) || HasLogout(reader, parcels[1..])
  {
    assert forall i :: 0 <= i < |parcels| - 1 ==> parcels[1..][i] == parcels[i + 1];
    if i :| 0 <= i < |parcels| && IsLogout(reader, parcels[i].record) {
      assert i > 0 ==> parcels[1..][i - 1] == parcels[i];
    }
  }

  lemma {:induction false} DenialsOf(reader: Reader, parcels: seq<Parcel>, request: Request)
    requires forall i :: 0 <= i < |parcels| ==> parcels[i].to == request
    ensures var replies := Denials(reader, parcels);
            && (forall k :: 0 <= k < |replies| ==> replies[k].to == request)
            && ((exists i :: 0 <= i < |parcels| && Answerable(reader, parcels[i].record)) ==> replies != [])
    decreases |parcels|
  {
    if parcels != [] {
      assert forall i :: 0 <= i < |parcels[1..]| ==> parcels[1..][i] == parcels[i + 1];
      DenialsOf(reader, parcels[1..], request);
    }
  }

  lemma {:induction false} TwoDenials(reader: Reader, parcels: seq<Parcel>, i: nat, j: nat)
    requires i < j < |parcels| && Answerable(reader, parcels[i].record) && Answerable(reader, parcels[j].record)
    requires forall k :: 0 <= k < |parcels| ==> parcels[k].to == parcels[0].to
    ensures |Denials(reader, parcels)| >= 2
    decreases |parcels|
  {
    var rest := parcels[1..];
    assert forall k :: 0 <= k < |rest| ==> rest[k] == parcels[k + 1];
    if i > 0 {
      TwoDenials(reader, rest, i - 1, j - 1);
    } else {
      assert Answerable(reader, rest[j - 1].record);
      DenialsOf(reader, rest, parcels[0].to);
    }
  }

  /** The connection after a login that was answered, with nothing else on its way. */
  function GREETED(): Net {
    var login := Login("", "");
    Net(Up, map[], None, [], [], [], 1, Wire(login), [Encode(PrintRequest(login))], Running)
  }

  const GREETING: seq<Step> := [Connect("", ""), Serve(DESK, None), Greeted(1)]

  lemma GreetingRun(reader: Reader, rest: seq<Step>)
    requires Conforms(reader) && CanRun(reader, GREETED(), rest)
    ensures CanRun(reader, START, GREETING + rest)
    ensures After(reader, START, GREETING + rest) == After(reader, GREETED(), rest)
  {
    var n1 := LoginWritten(reader);
    var n2 := LoginServed(reader, n1);
    Chain(reader, n2, Greeted(1), rest);
    Chain(reader, n1, Serve(DESK, None), [Greeted(1)] + rest);
    Chain(reader, START, Connect("", ""), [Serve(DESK, None)] + ([Greeted(1)] + rest));
    ThreeThenRest(Connect("", ""), Serve(DESK, None), Greeted(1), rest);
  }

  lemma ThreeThenRest(a: Step, b: Step, c: Step, rest: seq<Step>)
    ensures [a, b, c] + rest == [a] + ([b] + ([c] + rest))
  {
  }

  lemma LoginWritten(reader: Reader) returns (n: Net)
    requires Conforms(reader)
    ensures n == Next(reader, START, Connect("", ""))
    ensures var login := Login("", "");
            n == Net(Greeting(Request(0, login)), map[], None, [Parcel(Request(0, login), Encode(PrintRequest(login)))],
                     [], [], 1, Wire(login), [], Running)
  {
    var login := Login("", "");
    n := Next(reader, START, Connect("", ""));
    LoginParcel(reader);
    NothingBefore(Wire(login), Parcels(Request(0, login), RecordsOf(login)));
  }

  lemma LoginParcel(reader: Reader)
    requires Conforms(reader)
    ensures var request := Request(0, Login("", ""));
            Parcels(request, RecordsOf(request.query)) == [Parcel(request, Encode(PrintRequest(request.query)))]
  {
    var login := Login("", "");
    PlainQueries(reader);
    OneRecordIsSolo(reader, login);
    ParcelOne(Request(0, login), Encode(PrintRequest(login)));
  }

  lemma ParcelOne(request: Request, record: Bytes)
    ensures Parcels(request, [record]) == [Parcel(request, record)]
  {
  }

  lemma NothingBefore(bytes: Bytes, parcels: seq<Parcel>)
    ensures [] + bytes == bytes && [] + parcels == parcels
  {
  }

  lemma LoginServed(reader: Reader, n: Net) returns (m: Net)
    requires Conforms(reader)
    requires var login := Login("", "");
             n == Net(Greeting(Request(0, login)), map[], None, [Parcel(Request(0, login), Encode(PrintRequest(login)))],
                      [], [], 1, Wire(login), [], Running)
    ensures Enabled(n, Serve(DESK, None)) && m == Next(reader, n, Serve(DESK, None))
    ensures Enabled(m, Greeted(1)) && Next(reader, m, Greeted(1)) == GREETED()
  {
    m := Next(reader, n, Serve(DESK, None));
    var record := n.toServer[0].record;
    assert m.toClient != [] && m.server == Running by { LoginAnswered(reader); }
    assert n.toServer[1..] == [] && [] + [record] == [record];
    assert m.toClient == [m.toClient[0]] && m.toClient[1..] == [];
  }

  lemma LoginAnswered(reader: Reader)
    requires Conforms(reader)
    ensures Respond(reader, Encode(PrintRequest(Login("", ""))), DESK, None) != ""
  {
    var login := Login("", "");
    PlainQueries(reader);
    UnderstoodIff(reader, login);
    RequestRead(reader, login);
    RespondRead(reader, login, DESK);
  }

  /** The connection after an idle task has taken the free lock and written its query. */
  function AskedBy(n: Net, task: nat, q: Query): Net
    requires QueryOk(q)
  {
    var request := Request(n.issued, q);
    Written(n.(phases := n.phases[task := Sent(request)], lock := Some(task), issued := n.issued + 1), request)
  }

  lemma AskRun(reader: Reader, n: Net, task: nat, q: Query, rest: seq<Step>)
    requires n.link.Up? && n.lock.None? && PhaseOf(n, task).Idle? && QueryOk(q)
    requires CanRun(reader, AskedBy(n, task, q), rest)
    ensures CanRun(reader, n, [Begin(task, q), Acquire(task), Write(task)] + rest)
    ensures After(reader, n, [Begin(task, q), Acquire(task), Write(task)] + rest) == After(reader, AskedBy(n, task, q), rest)
  {
    var n1 := Next(reader, n, Begin(task, q));
    var n2 := Next(reader, n1, Acquire(task));
    assert Next(reader, n2, Write(task)) == AskedBy(n, task, q);
    Chain(reader, n2, Write(task), rest);
    Chain(reader, n1, Acquire(task), [Write(task)] + rest);
    Chain(reader, n, Begin(task, q), [Acquire(task)] + ([Write(task)] + rest));
    ThreeThenRest(Begin(task, q), Acquire(task), Write(task), rest);
  }

  lemma OnlyAsksConcat(a: seq<Step>, b: seq<Step>, fine: Query -> bool)
    requires OnlyAsks(a, fine) && OnlyAsks(b, fine)
    ensures OnlyAsks(a + b, fine)
  {
  }

  /** The second task asks, and reads what was meant for the first. */
  lemma SecondReads(reader: Reader, c: Net, first: Request) returns (steps: seq<Step>)
    requires c.link.Up? && c.lock.None? && PhaseOf(c, 1).Idle? && first.id < c.issued
    requires c.toClient != [] && c.toClient[0].to == first
    ensures CanRun(reader, c, steps) && !Paired(After(reader, c, steps)) && OnlyAsks(steps, p => p == Beat)
    ensures NoDrop(steps)
  {
    var d := AskedBy(c, 1, Beat);
    ForeignRead(reader, d, Request(c.issued, Beat), first);
    AskRun(reader, c, 1, Beat, [ReadReplies(1, 1)]);
    steps := [Begin(1, Beat), Acquire(1), Write(1)] + [ReadReplies(1, 1)];
  }

  /** Task 1 waits for a reply to its own request, and what comes first is one to another. */
  lemma ForeignRead(reader: Reader, d: Net, own: Request, first: Request)
    requires PhaseOf(d, 1) == Sent(own) && d.toClient != [] && d.toClient[0].to == first && first.id != own.id
    ensures CanRun(reader, d, [ReadReplies(1, 1)]) && !Paired(After(reader, d, [ReadReplies(1, 1)]))
  {
    var e := Next(reader, d, ReadReplies(1, 1));
    Chain(reader, d, ReadReplies(1, 1), []);
    assert [ReadReplies(1, 1)] + [] == [ReadReplies(1, 1)];
    assert e.log[|d.log|] == Exchange(1, own, d.toClient[..1]);
    assert e.log[|d.log|].replies[0] == d.toClient[0];
  }

  /** The end of the run: both tasks read one reply. */
  lemma TwoReads(reader: Reader, b: Net, first: Request) returns (steps: seq<Step>)
    requires b.link.Up? && PhaseOf(b, 0) == Sent(first) && PhaseOf(b, 1).Idle? && first.id < b.issued
    requires |b.toClient| >= 2 && forall k :: 0 <= k < |b.toClient| ==> b.toClient[k].to == first
    ensures CanRun(reader, b, steps) && !Paired(After(reader, b, steps))
    ensures OnlyAsks(steps, p => p == Beat) && NoDrop(steps)
  {
    var last := SecondReads(reader, Next(reader, b, ReadReplies(0, 1)), first);
    Chain(reader, b, ReadReplies(0, 1), last);
    steps := [ReadReplies(0, 1)] + last;
  }

  /** With two answers to the first request, the second task is handed one of them. */
  lemma MispairedRun(reader: Reader, q: Query) returns (steps: seq<Step>)
    requires Conforms(reader) && QueryOk(q) && !Solo(reader, q)
    ensures CanRun(reader, START, steps) && OnlyAsks(steps, Beside(q)) && NoDrop(steps)
    ensures !Paired(After(reader, START, steps))
  {
    RepliesToFirst(reader, GREETED(), AskedBy(GREETED(), 0, q), q);
    var last := TwoReads(reader, AskedAndServed(reader, q), Request(1, q));
    steps := AskAndServe(reader, q, last);
  }

  /** The connection after a login, one query of task 0, and everything answered that can be. */
  function AskedAndServed(reader: Reader, q: Query): Net
    requires QueryOk(q)
  {
    AllServed(reader, AskedBy(GREETED(), 0, q))
  }

  /** A run up to there, and on. */
  lemma AskAndServe(reader: Reader, q: Query, last: seq<Step>) returns (steps: seq<Step>)
    requires Conforms(reader) && QueryOk(q) && CanRun(reader, AskedAndServed(reader, q), last)
    requires OnlyAsks(last, p => p == Beat) && NoDrop(last)
    ensures CanRun(reader, START, steps) && After(reader, START, steps) == After(reader, AskedAndServed(reader, q), last)
    ensures OnlyAsks(steps, Beside(q)) && NoDrop(steps)
  {
    var ask := [Begin(0, q), Acquire(0), Write(0)];
    var serves := ServeAll(reader, AskedBy(GREETED(), 0, q), last);
    AskRun(reader, GREETED(), 0, q, serves + last);
    GreetingRun(reader, ask + (serves + last));
    steps := GREETING + (ask + (serves + last));
    RunAsks(q, serves, last);
  }

  lemma RunAsks(q: Query, serves: seq<Step>, last: seq<Step>)
    requires AllDenied(serves) && OnlyAsks(last, p => p == Beat) && NoDrop(last)
    ensures OnlyAsks(GREETING + ([Begin(0, q), Acquire(0), Write(0)] + (serves + last)), Beside(q))
    ensures NoDrop(GREETING + ([Begin(0, q), Acquire(0), Write(0)] + (serves + last)))
  {
    var fine, ask := Beside(q), [Begin(0, q), Acquire(0), Write(0)];
    assert OnlyAsks(last, fine) && OnlyAsks(serves, fine) && OnlyAsks(ask, fine) && OnlyAsks(GREETING, fine);
    OnlyAsksConcat(serves, last, fine);
    OnlyAsksConcat(ask, serves + last, fine);
    OnlyAsksConcat(GREETING, ask + (serves + last), fine);
  }

  lemma RepliesToFirst(reader: Reader, g: Net, a: Net, q: Query)
    requires QueryOk(q) && !Solo(reader, q) && g.toServer == [] && g.toClient == [] && !g.server.Closed?
    requires a == AskedBy(g, 0, q)
    ensures var replies := AllServed(reader, a).toClient;
            |replies| >= 2 && forall k :: 0 <= k < |replies| ==> replies[k].to == Request(g.issued, q)
  {
    var parcels := Parcels(Request(g.issued, q), RecordsOf(q));
    AskedParcels(g, 0, q);
    TwoReplies(reader, RecordsOf(q), Request(g.issued, q));
    NoRepliesBefore(Denials(reader, parcels));
  }

  /** On a quiet open connection, what is asked is all that is pending. */
  lemma AskedParcels(g: Net, task: nat, q: Query)
    requires QueryOk(q) && g.toServer == [] && !g.server.Closed?
    ensures AskedBy(g, task, q).toServer == Parcels(Request(g.issued, q), RecordsOf(q))
    ensures AskedBy(g, task, q).toClient == g.toClient && AskedBy(g, task, q).server == g.server
  {
    NothingBefore([], Parcels(Request(g.issued, q), RecordsOf(q)));
  }

  lemma NoRepliesBefore(replies: seq<Reply>)
    ensures [] + replies == replies
  {
  }

  lemma TwoReplies(reader: Reader, records: seq<Bytes>, request: Request)
    requires exists i, j :: 0 <= i < j < |records| && Answerable(reader, records[i]) && Answerable(reader, records[j])
    ensures var replies := Denials(reader, Parcels(request, records));
            |replies| >= 2 && forall k :: 0 <= k < |replies| ==> replies[k].to == request
  {
    var parcels := Parcels(request, records);
    var i, j :| 0 <= i < j < |records| && Answerable(reader, records[i]) && Answerable(reader, records[j]);
    DenialsOf(reader, parcels, request);
    TwoDenials(reader, parcels, i, j);
  }

  /**
   Over every run, with every interleaving, every failure the server may inject, dropped
   connections included, and every way for it to close after a logout: replies pair up with
   requests, unless the connection is closed, exactly when at most one record of the query
   can be answered.
   */
  lemma PairingIff(reader: Reader, q: Query)
    requires Conforms(reader) && QueryOk(q)
    ensures AlwaysPairs(reader, q) <==> Solo(reader, q)
  {
    if Solo(reader, q) {
      BesideIsSolo(reader, q);
      forall steps | CanRun(reader, START, steps) && OnlyAsks(steps, Beside(q))
        ensures Paired(After(reader, START, steps))
      {
        OnlyAsksMore(steps, Beside(q), SoloOnly(reader));
        EveryReplyIsItsOwn(reader, steps);
      }
    } else {
      var steps := MispairedRun(reader, q);
    }
  }

  // ---- Exactly one reply each ----

  /** No record of the query logs the client out. */
  predicate NoLogout(reader: Reader, q: Query)
    requires QueryOk(q)
  {
    forall i :: 0 <= i < |RecordsOf(q)| ==> !IsLogout(reader, RecordsOf(q)[i])
  }

  /** Requests of which at most one record can be answered and none is a logout. */
  function OneReplyOnly(reader: Reader): Query -> bool {
    q => QueryOk(q) && Solo(reader, q) && NoLogout(reader, q)
  }

  predicate StaysOpen(reader: Reader, n: Net)
    requires Locked(n)
  {
    && n.server.Running? && !HasLogout(reader, n.toServer)
    && forall t :: t in n.phases && !n.phases[t].Idle? ==> NoLogout(reader, n.phases[t].request.query)
  }

  lemma WrittenNoLogout(reader: Reader, parcels: seq<Parcel>, request: Request)
    requires QueryOk(request.query) && NoLogout(reader, request.query) && !HasLogout(reader, parcels)
    ensures !HasLogout(reader, parcels + Parcels(request, RecordsOf(request.query)))
  {
  }

  lemma OpenKept(reader: Reader, n: Net, step: Step)
    requires Locked(n) && StaysOpen(reader, n) && Enabled(n, step)
    requires StepAsks(step, OneReplyOnly(reader)) && (step.Serve? ==> step.injected != Some(Drop))
    ensures Locked(Next(reader, n, step)) && StaysOpen(reader, Next(reader, n, step))
  {
    LockKept(reader, n, step);
    match step
    case Connect(key, vendor) => WrittenNoLogout(reader, n.toServer, Request(n.issued, Login(key, vendor)));
    case Write(task) => WrittenNoLogout(reader, n.toServer, PhaseOf(n, task).request);
    case Serve(_, _) => LogoutFirst(reader, n.toServer);
    case _ =>
  }

  lemma {:induction false} OpenOverRun(reader: Reader, n: Net, steps: seq<Step>)
    requires Locked(n) && StaysOpen(reader, n) && CanRun(reader, n, steps)
    requires OnlyAsks(steps, OneReplyOnly(reader)) && NoDrop(steps)
    ensures After(reader, n, steps).server.Running?
    decreases |steps|
  {
    if steps != [] {
      assert StepAsks(steps[0], OneReplyOnly(reader));
      OpenKept(reader, n, steps[0]);
      assert forall i :: 0 <= i < |steps[1..]| ==> steps[1..][i] == steps[i + 1];
      OpenOverRun(reader, Next(reader, n, steps[0]), steps[1..]);
    }
  }

  /** On every run of such requests in which no connection is dropped, every read returns exactly its own reply. */
  lemma OneReplyEach(reader: Reader, steps: seq<Step>)
    requires CanRun(reader, START, steps) && OnlyAsks(steps, OneReplyOnly(reader)) && NoDrop(steps)
    ensures OneEach(After(reader, START, steps)) && After(reader, START, steps).server.Running?
  {
    OnlyAsksMore(steps, OneReplyOnly(reader), SoloOnly(reader));
    EveryReplyIsItsOwn(reader, steps);
    OpenOverRun(reader, START, steps);
  }

  /** When only this is asked, beside heartbeats, and nothing is dropped, every read returns exactly its own reply. */
  ghost predicate AlwaysOne(reader: Reader, q: Query) {
    forall steps :: CanRun(reader, START, steps) && OnlyAsks(steps, Beside(q)) && NoDrop(steps) ==>
      OneEach(After(reader, START, steps))
  }

  lemma PlainNoLogout(reader: Reader)
    requires Conforms(reader)
    ensures NoLogout(reader, Beat) && NoLogout(reader, Login("", ""))
  {
    PlainQueries(reader);
    OneRecordIsSolo(reader, Beat);
    OneRecordIsSolo(reader, Login("", ""));
  }

  /** The connection has been closed: whoever reads now, or asks next, is left without a reply. */
  lemma HungUpReads(reader: Reader, c: Net) returns (last: seq<Step>)
    requires c.link.Up? && c.server.Closed? && PhaseOf(c, 0).Sent? && PhaseOf(c, 1).Idle?
    ensures CanRun(reader, c, last) && !OneEach(After(reader, c, last))
    ensures OnlyAsks(last, p => p == Beat) && NoDrop(last)
  {
    if c.toClient == [] {
      EmptyRead(reader, c, 0);
      last := [ReadReplies(0, 0)];
    } else {
      var more := HungUpBeat(reader, Next(reader, c, ReadReplies(0, |c.toClient|)));
      Chain(reader, c, ReadReplies(0, |c.toClient|), more);
      last := [ReadReplies(0, |c.toClient|)] + more;
    }
  }

  lemma HungUpBeat(reader: Reader, d: Net) returns (more: seq<Step>)
    requires d.link.Up? && d.lock.None? && d.server.Closed? && PhaseOf(d, 1).Idle?
    ensures CanRun(reader, d, more) && !OneEach(After(reader, d, more))
    ensures OnlyAsks(more, p => p == Beat) && NoDrop(more)
  {
    EmptyRead(reader, AskedBy(d, 1, Beat), 1);
    AskRun(reader, d, 1, Beat, [ReadReplies(1, 0)]);
    more := [Begin(1, Beat), Acquire(1), Write(1)] + [ReadReplies(1, 0)];
  }

  lemma EmptyRead(reader: Reader, n: Net, task: nat)
    requires n.server.Closed? && PhaseOf(n, task).Sent?
    ensures CanRun(reader, n, [ReadReplies(task, 0)]) && !OneEach(After(reader, n, [ReadReplies(task, 0)]))
  {
    var m := Next(reader, n, ReadReplies(task, 0));
    Chain(reader, n, ReadReplies(task, 0), []);
    assert [ReadReplies(task, 0)] + [] == [ReadReplies(task, 0)];
    assert m.log[|n.log|].replies == [];
  }

  /** With a logout among its records the query closes the connection, and somebody goes without a reply. */
  lemma HungUpRun(reader: Reader, q: Query) returns (steps: seq<Step>)
    requires Conforms(reader) && QueryOk(q) && !NoLogout(reader, q)
    ensures CanRun(reader, START, steps) && OnlyAsks(steps, Beside(q)) && NoDrop(steps)
    ensures !OneEach(After(reader, START, steps))
  {
    AskedLogout(reader, q);
    var last := CloseAndRead(reader, AskedAndServed(reader, q));
    steps := AskAndServe(reader, q, last);
  }

  lemma CloseAndRead(reader: Reader, b: Net) returns (last: seq<Step>)
    requires b.link.Up? && b.server.Stopping? && PhaseOf(b, 0).Sent? && PhaseOf(b, 1).Idle?
    ensures CanRun(reader, b, last) && !OneEach(After(reader, b, last))
    ensures OnlyAsks(last, p => p == Beat) && NoDrop(last)
  {
    var more := HungUpReads(reader, Next(reader, b, Close));
    Chain(reader, b, Close, more);
    last := [Close] + more;
  }

  lemma AskedLogout(reader: Reader, q: Query)
    requires QueryOk(q) && !NoLogout(reader, q)
    ensures var b := AskedAndServed(reader, q);
            b.server == Stopping(0) && b.link.Up? && PhaseOf(b, 0).Sent? && PhaseOf(b, 1).Idle?
  {
    AskedParcels(GREETED(), 0, q);
    ParcelsLogout(reader, Request(1, q), RecordsOf(q));
  }

  lemma ParcelsLogout(reader: Reader, request: Request, records: seq<Bytes>)
    requires exists i :: 0 <= i < |records| && IsLogout(reader, records[i])
    ensures HasLogout(reader, Parcels(request, records))
  {
    var i :| 0 <= i < |records| && IsLogout(reader, records[i]);
    assert Parcels(request, records)[i].record == records[i];
  }

  /**
   As long as no connection is dropped: on every run every read returns exactly one reply,
   the reader's own, exactly when at most one record of the query can be answered and none
   of them is a logout.
   */
  lemma OneReplyEachIff(reader: Reader, q: Query)
    requires Conforms(reader) && QueryOk(q)
    ensures AlwaysOne(reader, q) <==> Solo(reader, q) && NoLogout(reader, q)
  {
    if Solo(reader, q) && NoLogout(reader, q) {
      BesideIsSolo(reader, q);
      PlainNoLogout(reader);
      forall steps | CanRun(reader, START, steps) && OnlyAsks(steps, Beside(q)) && NoDrop(steps)
        ensures OneEach(After(reader, START, steps))
      {
        OnlyAsksMore(steps, Beside(q), OneReplyOnly(reader));
        OneReplyEach(reader, steps);
      }
    } else if !NoLogout(reader, q) {
      var steps := HungUpRun(reader, q);
    } else {
      var steps := MispairedRun(reader, q);
    }
  }

  lemma BesideIsSolo(reader: Reader, q: Query)
    requires Conforms(reader) && QueryOk(q) && Solo(reader, q)
    ensures forall p :: Beside(q)(p) ==> SoloOnly(reader)(p)
  {
    PlainQueries(reader);
    OneRecordIsSolo(reader, Beat);
    OneRecordIsSolo(reader, Login("", ""));
  }

  lemma OnlyAsksMore(steps: seq<Step>, fine: Query -> bool, more: Query -> bool)
    requires OnlyAsks(steps, fine) && forall q :: fine(q) ==> more(q)
    ensures OnlyAsks(steps, more)
  {
  }

  const END := "\"/>"
  const BREAK := "\r\n"

  function Head(room: string): string {
    "<GIQ" + Printed("RoomNumber", room) + " LastName=\""
  }

  /** A name that ends its own tag and begins another one on the next line. */
  function TwoInOne(name: string, room2: string, name2: string): string {
    name + END + BREAK + (Head(room2) + name2)
  }

  /** Such a name makes one query two, and pairing fails. */
  lemma TwoRecordsInOneName(reader: Reader, room: string, name: string, room2: string, name2: string)
    requires Conforms(reader) && Faithful(room) && Faithful(name) && Faithful(room2) && Faithful(name2)
    ensures var q := GuestQuery(room, TwoInOne(name, room2, name2));
            && RecordsOf(q) == [Encode(PrintRequest(GuestQuery(room, name))), Encode(PrintRequest(GuestQuery(room2, name2)))]
            && !AlwaysPairs(reader, q)
  {
    var first, second := GuestQuery(room, name), GuestQuery(room2, name2);
    var q := GuestQuery(room, TwoInOne(name, room2, name2));
    TwoPrinted(room, name, room2, name2);
    FaithfulNoBreaks(room, name);
    FaithfulNoBreaks(room2, name2);
    RequestBreaks(first);
    RequestBreaks(second);
    TwoRecords(PrintRequest(first), PrintRequest(second), q);
    FaithfulQuery(reader, room, name);
    FaithfulQuery(reader, room2, name2);
    DecodeInverts(PrintRequest(first));
    DecodeInverts(PrintRequest(second));
    assert Answerable(reader, RecordsOf(q)[0]) && Answerable(reader, RecordsOf(q)[1]);
    PairingIff(reader, q);
  }

  lemma TwoPrinted(room: string, name: string, room2: string, name2: string)
    ensures PrintRequest(GuestQuery(room, TwoInOne(name, room2, name2))) ==
            PrintRequest(GuestQuery(room, name)) + BREAK + PrintRequest(GuestQuery(room2, name2))
  {
    GuestPrinted(room, name);
    GuestPrinted(room2, name2);
    GuestPrinted(room, TwoInOne(name, room2, name2));
    Regrouped(Head(room), name, END, BREAK, Head(room2) + name2);
  }

  lemma Regrouped(a: string, b: string, c: string, d: string, e: string)
    ensures a + (b + c + d + e) + c == (a + b + c) + d + (e + c)
  {
  }

  lemma GuestPrinted(room: string, name: string)
    ensures PrintRequest(GuestQuery(room, name)) == Head(room) + name + END
  {
    var fields := [Field("RoomNumber", room), Field("LastName", name)];
    FieldsOfTwo(fields[0], fields[1]);
    LastPrinted(name);
  }

  lemma FieldsOfTwo(a: Field, b: Field)
    ensures PrintFields([a, b]) == Printed(a.name, a.raw) + (Printed(b.name, b.raw) + "/>")
  {
    assert [a, b][1..] == [b] && [b][1..] == [];
    assert PrintFields([b]) == Printed(b.name, b.raw) + PrintFields([]);
  }

  lemma LastPrinted(name: string)
    ensures Printed("LastName", name) + "/>" == " LastName=\"" + name + END
  {
    assert " " + "LastName" + "=\"" == " LastName=\"";
  }

  lemma BreakEncoded()
    ensures Encode(BREAK) == CRLF
  {
    assert BREAK[1..][1..] == "";
    assert EncodeChar('\r') == [CR] && EncodeChar('\n') == [LF];
    assert Encode(BREAK[1..]) == [LF] + Encode("");
  }

  lemma TwoFramed(a: Bytes, b: Bytes)
    requires Records(a + CRLF) == [a] && Records(b + CRLF) == [b]
    ensures Records((a + CRLF) + (b + CRLF)) == [a, b]
  {
    RestOfEnded(a);
    RecordsStep(a + CRLF, b + CRLF);
    assert [] + (b + CRLF) == b + CRLF;
  }

  /** A request that prints as two lines is two records. */
  lemma TwoRecords(first: string, second: string, q: Query)
    requires QueryOk(q) && first != "" && second != "" && !HasBreak(first) && !HasBreak(second)
    requires PrintRequest(q) == first + BREAK + second
    ensures RecordsOf(q) == [Encode(first), Encode(second)]
  {
    CrlfFromText(first);
    CrlfFromText(second);
    EncodeEmpty(first);
    EncodeEmpty(second);
    WholeRecord(Encode(first));
    WholeRecord(Encode(second));
    TwoFramed(Encode(first), Encode(second));
    TwoEncoded(first, second);
  }

  lemma TwoEncoded(a: string, b: string)
    ensures Encode(a + BREAK + b) + CRLF == (Encode(a) + CRLF) + (Encode(b) + CRLF)
  {
    EncodeConcat(a + BREAK, b);
    EncodeConcat(a, BREAK);
    BreakEncoded();
  }

  // ---- A logout in a name ----

  /** The record `<LD A=""/>`. */
  function LogoutText(): string {
    PrintTag(TagName(LD), [Field("A", "")])
  }

  const LOGOUT_HEAD := "<LD A=\""

  /** A name that ends its own tag and begins a logout on the next line. */
  function LogoutName(name: string): string {
    name + END + BREAK + LOGOUT_HEAD
  }

  lemma LogoutPrinted(room: string, name: string)
    ensures PrintRequest(GuestQuery(room, LogoutName(name))) == PrintRequest(GuestQuery(room, name)) + BREAK + LogoutText()
  {
    GuestPrinted(room, name);
    GuestPrinted(room, LogoutName(name));
    Regrouped(Head(room), name, END, BREAK, LOGOUT_HEAD);
    LogoutTextIs();
  }

  lemma LogoutTextIs()
    ensures LogoutText() == LOGOUT_HEAD + END && LogoutText() != "" && !HasBreak(LogoutText())
  {
    var fields := [Field("A", "")];
    assert fields[1..] == [];
    assert PrintFields(fields) == Printed("A", "") + PrintFields([]);
    NoReturnsNoBreak(LOGOUT_HEAD + END);
  }

  lemma LogoutRead(reader: Reader)
    requires Conforms(reader)
    ensures IsLogout(reader, Encode(LogoutText()))
  {
    var fields := [Field("A", "")];
    assert fields[1..] == [];
    DecodeInverts(LogoutText());
    PlainTagRead(reader, LD, fields);
  }

  /** Such a query is two records, whatever the name before the logout, as long as that is one line. */
  lemma LogoutRecords(reader: Reader, room: string, name: string)
    requires Conforms(reader) && NoBreaks(GuestQuery(room, name))
    ensures var q := GuestQuery(room, LogoutName(name));
            && RecordsOf(q) == [Encode(PrintRequest(GuestQuery(room, name))), Encode(LogoutText())]
            && IsLogout(reader, RecordsOf(q)[1])
  {
    LogoutPrinted(room, name);
    LogoutTextIs();
    RequestBreaks(GuestQuery(room, name));
    PrintedNotEmpty(GuestQuery(room, name));
    TwoRecords(PrintRequest(GuestQuery(room, name)), LogoutText(), GuestQuery(room, LogoutName(name)));
    LogoutRead(reader);
  }

  /** It can be answered once only, and pairs up; but it logs the client out, and somebody goes without a reply. */
  lemma LogoutInName(reader: Reader, room: string, name: string)
    requires Conforms(reader) && Faithful(room) && Faithful(name)
    ensures var q := GuestQuery(room, LogoutName(name));
            Solo(reader, q) && AlwaysPairs(reader, q) && !AlwaysOne(reader, q)
  {
    var q := GuestQuery(room, LogoutName(name));
    FaithfulNoBreaks(room, name);
    LogoutRecords(reader, room, name);
    PairingIff(reader, q);
    OneReplyEachIff(reader, q);
  }
}
