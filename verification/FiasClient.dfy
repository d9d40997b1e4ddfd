/**
 The shared FIAS socket: the portal's tasks, the lock they take turns with, the bytes
 they write, and the server that frames, answers or stays silent.
 One step is what happens between two suspension points.  A read returns one or more of
 the replies that have arrived, and never a part of one; it returns nothing only once the
 server has closed the connection.
 */
module FiasClient {
  import opened Common
  import opened Text
  import opened Framing
  import opened Utf8
  import opened Tags
  import opened GuestRecord
  import opened FiasRecords

  /** Every request carries its own number, so that two equal queries are told apart. */
  datatype Request = Request(id: nat, query: Query)

  /** A record the server has framed but not handled yet, and the request it was written for. */
  datatype Parcel = Parcel(to: Request, record: Bytes)

  /** A reply, with what it answers and what it was made from kept for the record. */
  datatype Reply = Reply(to: Request, record: Bytes, desk: Desk, injected: Option<Failure>, text: string)

  datatype Link = Down | Greeting(request: Request) | Up

  datatype Phase =
    | Idle
    | Waiting(request: Request)
    | Holding(request: Request)
    | Sent(request: Request)

  /**
   The server's end.  After a logout it still handles the records of the same read, which
   are at most `left` more, and then closes; a dropped connection is closed at once.
   */
  datatype Server = Running | Stopping(left: nat) | Closed

  datatype Exchange = Exchange(task: nat, request: Request, replies: seq<Reply>)

  /** `stream` is all the client has written, `served` the records handled so far. */
  datatype Net = Net(
    link: Link, phases: map<nat, Phase>, lock: Option<nat>, toServer: seq<Parcel>, toClient: seq<Reply>,
    log: seq<Exchange>, issued: nat, stream: Bytes, served: seq<Bytes>, server: Server)

  datatype Step =
    | Connect(authKey: string, vendorId: string)
    | Greeted(count: nat)
    | Begin(task: nat, query: Query)
    | Acquire(task: nat)
    | Write(task: nat)
    | Serve(desk: Desk, injected: Option<Failure>)
    | Close
    | ReadReplies(task: nat, count: nat)

  function PhaseOf(n: Net, task: nat): Phase {
    if task in n.phases then n.phases[task] else Idle
  }

  /** A read returns some of what has arrived, or, from a closed connection, nothing. */
  predicate CanTake(n: Net, count: nat) {
    if count == 0 then n.server.Closed? else count <= |n.toClient|
  }

  /** What is left to read; a connection found closed has lost what it still held. */
  function LeftAfter(n: Net, count: nat): seq<Reply>
    requires CanTake(n, count)
  {
    if count == 0 then [] else n.toClient[count..]
  }

  predicate Enabled(n: Net, step: Step) {
    match step
    case Connect(_, _) => n.link.Down?
    case Greeted(count) => n.link.Greeting? && CanTake(n, count)
    case Begin(task, query) => n.link.Up? && PhaseOf(n, task).Idle? && QueryOk(query)
    case Acquire(task) => PhaseOf(n, task).Waiting? && n.lock.None?
    case Write(task) => PhaseOf(n, task).Holding? && QueryOk(PhaseOf(n, task).request.query)
    case Serve(desk, _) => n.toServer != [] && DeskOk(desk) && CanServe(n.server)
    case Close => n.server.Stopping?
    case ReadReplies(task, count) => PhaseOf(n, task).Sent? && CanTake(n, count)
  }

  predicate CanServe(server: Server) {
    server.Running? || (server.Stopping? && server.left > 0)
  }

  /** The server after one more record, with `rest` more pending behind it. */
  function ServerAfter(reader: Reader, server: Server, record: Bytes, injected: Option<Failure>, rest: nat): Server {
    if Drops(reader, record, injected) then Closed
    else
      match server
      case Running => if IsLogout(reader, record) then Stopping(rest) else Running
      case Stopping(left) => Stopping(if left > 0 then left - 1 else 0)
      case Closed => Closed
  }

  function Parcels(request: Request, records: seq<Bytes>): seq<Parcel> {
    seq(|records|, i requires 0 <= i < |records| => Parcel(request, records[i]))
  }

  /** The bytes of a request on their way, framed as the server will frame them; nobody reads a closed connection. */
  function Written(n: Net, request: Request): Net
    requires QueryOk(request.query)
  {
    n.(stream := n.stream + Wire(request.query),
       toServer := if n.server.Closed? then n.toServer else n.toServer + Parcels(request, RecordsOf(request.query)))
  }

  function Next(reader: Reader, n: Net, step: Step): Net
    requires Enabled(n, step)
  {
    match step
    case Connect(key, vendor) =>
      var request := Request(n.issued, Login(key, vendor));
      Written(n.(link := Greeting(request), issued := n.issued + 1), request)
    case Greeted(count) => n.(link := Up, toClient := LeftAfter(n, count))
    case Begin(task, query) =>
      n.(phases := n.phases[task := Waiting(Request(n.issued, query))], issued := n.issued + 1)
    case Acquire(task) =>
      n.(phases := n.phases[task := Holding(PhaseOf(n, task).request)], lock := Some(task))
    case Write(task) =>
      var request := PhaseOf(n, task).request;
      Written(n.(phases := n.phases[task := Sent(request)]), request)
    case Serve(desk, injected) =>
      var parcel := n.toServer[0];
      var text := Respond(reader, parcel.record, desk, injected);
      var server := ServerAfter(reader, n.server, parcel.record, injected, |n.toServer| - 1);
      n.(toServer := if server.Closed? then [] else n.toServer[1..], server := server, served := n.served + [parcel.record],
         toClient := if text == "" then n.toClient
                     else n.toClient + [Reply(parcel.to, parcel.record, desk, injected, text)])
    case Close => n.(server := Closed, toServer := [])
    case ReadReplies(task, count) =>
      n.(phases := n.phases[task := Idle], lock := None, toClient := LeftAfter(n, count),
         log := n.log + [Exchange(task, PhaseOf(n, task).request, n.toClient[..count])])
  }

  predicate CanRun(reader: Reader, n: Net, steps: seq<Step>)
    decreases |steps|
  {
    steps == [] || (Enabled(n, steps[0]) && CanRun(reader, Next(reader, n, steps[0]), steps[1..]))
  }

  function After(reader: Reader, n: Net, steps: seq<Step>): Net
    requires CanRun(reader, n, steps)
    decreases |steps|
  {
    if steps == [] then n else After(reader, Next(reader, n, steps[0]), steps[1..])
  }

  lemma Chain(reader: Reader, n: Net, step: Step, steps: seq<Step>)
    requires Enabled(n, step) && CanRun(reader, Next(reader, n, step), steps)
    ensures CanRun(reader, n, [step] + steps)
    ensures After(reader, n, [step] + steps) == After(reader, Next(reader, n, step), steps)
  {
    assert ([step] + steps)[1..] == steps;
  }

  const START := Net(Down, map[], None, [], [], [], 0, [], [], Running)

  // ---- What holds whatever is asked ----

  predicate Owning(phase: Phase) {
    phase.Holding? || phase.Sent?
  }

  /** Only the lock's owner uses the socket. */
  predicate Locked(n: Net) {
    && (forall t :: t in n.phases && Owning(n.phases[t]) ==> n.lock == Some(t))
    && (forall t :: t in n.phases && !n.phases[t].Idle? ==> n.link.Up? && QueryOk(n.phases[t].request.query))
    && (n.lock.Some? ==> Owning(PhaseOf(n, n.lock.value)))
    && (n.link.Down? ==> n.toServer == [] && n.toClient == [])
    && (n.server.Closed? ==> n.toServer == [])
  }

  /** Every parcel is a record of its own request; every reply is what the server makes of such a record. */
  predicate Genuine(reader: Reader, reply: Reply) {
    && QueryOk(reply.to.query) && reply.record in RecordsOf(reply.to.query) && DeskOk(reply.desk)
    && reply.text == Respond(reader, reply.record, reply.desk, reply.injected) && reply.text != ""
  }

  predicate Honest(reader: Reader, n: Net) {
    && (forall i :: 0 <= i < |n.toServer| ==>
          QueryOk(n.toServer[i].to.query) && n.toServer[i].record in RecordsOf(n.toServer[i].to.query))
    && (forall i :: 0 <= i < |n.toClient| ==> Genuine(reader, n.toClient[i]))
    && (forall i, j :: 0 <= i < |n.log| && 0 <= j < |n.log[i].replies| ==> Genuine(reader, n.log[i].replies[j]))
  }

  /** No number is used for two requests, nor logged twice. */
  predicate Numbered(n: Net) {
    && (forall t :: t in n.phases && !n.phases[t].Idle? ==> n.phases[t].request.id < n.issued)
    && (forall t, u :: t in n.phases && u in n.phases && t != u && !n.phases[t].Idle? && !n.phases[u].Idle? ==>
          n.phases[t].request.id != n.phases[u].request.id)
    && (forall i :: 0 <= i < |n.log| ==> n.log[i].request.id < n.issued)
    && (forall i, t :: 0 <= i < |n.log| && t in n.phases && !n.phases[t].Idle? ==>
          n.log[i].request.id != n.phases[t].request.id)
    && (forall i, j :: 0 <= i < j < |n.log| ==> n.log[i].request.id != n.log[j].request.id)
  }

  function RecordsIn(parcels: seq<Parcel>): seq<Bytes> {
    seq(|parcels|, i requires 0 <= i < |parcels| => parcels[i].record)
  }

  /**
   The queue is exactly what framing the client's bytes gives, less what has been handled;
   once the connection is closed, what has been handled is the first part of it.
   */
  predicate Framed(n: Net) {
    && Rest(n.stream) == []
    && (if n.server.Closed? then n.served <= Records(n.stream)
        else Records(n.stream) == n.served + RecordsIn(n.toServer))
  }

  predicate Inv(reader: Reader, n: Net) {
    Locked(n) && Honest(reader, n) && Numbered(n) && Framed(n)
  }

  lemma LockKept(reader: Reader, n: Net, step: Step)
    requires Locked(n) && Enabled(n, step)
    ensures Locked(Next(reader, n, step))
  {
    match step
    case Begin(task, query) => assert n.lock != Some(task);
    case Write(task) => assert n.lock == Some(task);
    case ReadReplies(task, count) => assert n.lock == Some(task);
    case _ =>
  }

  lemma ParcelsHonest(request: Request)
    requires QueryOk(request.query)
    ensures var parcels := Parcels(request, RecordsOf(request.query));
            forall i :: 0 <= i < |parcels| ==> parcels[i].to == request && parcels[i].record in RecordsOf(request.query)
  {
  }

  lemma HonestyKept(reader: Reader, n: Net, step: Step)
    requires Locked(n) && Honest(reader, n) && Enabled(n, step)
    ensures Honest(reader, Next(reader, n, step))
  {
    match step
    case Connect(key, vendor) =>
      var request := Request(n.issued, Login(key, vendor));
      WrittenHonest(reader, n.(link := Greeting(request), issued := n.issued + 1), request);
    case Write(task) =>
      var request := PhaseOf(n, task).request;
      WrittenHonest(reader, n.(phases := n.phases[task := Sent(request)]), request);
    case Serve(desk, injected) => ServedHonest(reader, n, desk, injected);
    case ReadReplies(task, count) => LoggedHonest(reader, n, task, count);
    case _ =>
  }

  lemma WrittenHonest(reader: Reader, n: Net, request: Request)
    requires Honest(reader, n) && QueryOk(request.query)
    ensures Honest(reader, Written(n, request))
  {
    ParcelsHonest(request);
  }

  lemma ServedHonest(reader: Reader, n: Net, desk: Desk, injected: Option<Failure>)
    requires Honest(reader, n) && Enabled(n, Serve(desk, injected))
    ensures Honest(reader, Next(reader, n, Serve(desk, injected)))
  {
    var m := Next(reader, n, Serve(desk, injected));
    assert forall i :: 0 <= i < |m.toServer| ==> m.toServer[i] == n.toServer[i + 1];
    assert m.log == n.log;
    forall i | 0 <= i < |m.toClient| ensures Genuine(reader, m.toClient[i]) {
      if i < |n.toClient| {
        assert m.toClient[i] == n.toClient[i];
      } else {
        AnswerGenuine(reader, n.toServer[0], desk, injected);
      }
    }
  }

  lemma AnswerGenuine(reader: Reader, parcel: Parcel, desk: Desk, injected: Option<Failure>)
    requires QueryOk(parcel.to.query) && parcel.record in RecordsOf(parcel.to.query) && DeskOk(desk)
    ensures var text := Respond(reader, parcel.record, desk, injected);
            text != "" ==> Genuine(reader, Reply(parcel.to, parcel.record, desk, injected, text))
  {
  }

  lemma LoggedHonest(reader: Reader, n: Net, task: nat, count: nat)
    requires Honest(reader, n) && Enabled(n, ReadReplies(task, count))
    ensures Honest(reader, Next(reader, n, ReadReplies(task, count)))
  {
    var m := Next(reader, n, ReadReplies(task, count));
    forall i, j | 0 <= i < |m.log| && 0 <= j < |m.log[i].replies|
      ensures Genuine(reader, m.log[i].replies[j])
    {
      if i < |n.log| {
        assert m.log[i] == n.log[i];
      } else {
        assert m.log[i].replies[j] == n.toClient[j];
      }
    }
  }

  lemma NumbersKept(reader: Reader, n: Net, step: Step)
    requires Numbered(n) && Enabled(n, step)
    ensures Numbered(Next(reader, n, step))
  {
    match step
    case Begin(task, query) => FreshNumber(reader, n, task, query);
    case ReadReplies(task, count) => NumberLogged(reader, n, task, count);
    case _ => SameNumbers(n, Next(reader, n, step));
  }

  lemma FreshNumber(reader: Reader, n: Net, task: nat, query: Query)
    requires Numbered(n) && Enabled(n, Begin(task, query))
    ensures Numbered(Next(reader, n, Begin(task, query)))
  {
  }

  lemma NumberLogged(reader: Reader, n: Net, task: nat, count: nat)
    requires Numbered(n) && Enabled(n, ReadReplies(task, count))
    ensures Numbered(Next(reader, n, ReadReplies(task, count)))
  {
  }

  lemma SameNumbers(n: Net, m: Net)
    requires Numbered(n) && m.log == n.log && m.issued >= n.issued && m.phases.Keys == n.phases.Keys
    requires forall t :: t in n.phases ==>
               (m.phases[t].Idle? <==> n.phases[t].Idle?) && (!m.phases[t].Idle? ==> m.phases[t].request == n.phases[t].request)
    ensures Numbered(m)
  {
  }

  lemma WrittenFramed(n: Net, request: Request)
    requires Framed(n) && QueryOk(request.query)
    ensures Framed(Written(n, request))
  {
    var records := RecordsOf(request.query);
    StreamGrows(n.stream, request.query);
    if !n.server.Closed? {
      RecordsInParcels(n.toServer, request, records);
      ConcatAssociates(n.served, RecordsIn(n.toServer), records);
    }
  }

  lemma RecordsInParcels(parcels: seq<Parcel>, request: Request, records: seq<Bytes>)
    ensures RecordsIn(parcels + Parcels(request, records)) == RecordsIn(parcels) + records
  {
  }

  lemma StreamGrows(stream: Bytes, q: Query)
    requires QueryOk(q) && Rest(stream) == []
    ensures Records(stream + Wire(q)) == Records(stream) + RecordsOf(q) && Rest(stream + Wire(q)) == []
  {
    RecordsStep(stream, Wire(q));
    RestOfEnded(Encode(PrintRequest(q)));
    assert [] + Wire(q) == Wire(q);
  }

  lemma FramingKept(reader: Reader, n: Net, step: Step)
    requires Framed(n) && Enabled(n, step)
    ensures Framed(Next(reader, n, step))
  {
    match step
    case Connect(key, vendor) =>
      var request := Request(n.issued, Login(key, vendor));
      WrittenFramed(n.(link := Greeting(request), issued := n.issued + 1), request);
    case Write(task) =>
      var request := PhaseOf(n, task).request;
      WrittenFramed(n.(phases := n.phases[task := Sent(request)]), request);
    case Serve(desk, injected) => ServedFramed(reader, n, desk, injected);
    case _ =>
  }

  lemma ServedFramed(reader: Reader, n: Net, desk: Desk, injected: Option<Failure>)
    requires Framed(n) && Enabled(n, Serve(desk, injected))
    ensures Framed(Next(reader, n, Serve(desk, injected)))
  {
    var first, rest := [n.toServer[0].record], RecordsIn(n.toServer[1..]);
    assert RecordsIn(n.toServer) == first + rest;
    ConcatAssociates(n.served, first, rest);
  }

  lemma StepKeepsInv(reader: Reader, n: Net, step: Step)
    requires Inv(reader, n) && Enabled(n, step)
    ensures Inv(reader, Next(reader, n, step))
  {
    LockKept(reader, n, step);
    HonestyKept(reader, n, step);
    NumbersKept(reader, n, step);
    FramingKept(reader, n, step);
  }

  lemma {:induction false} InvOverRun(reader: Reader, n: Net, steps: seq<Step>)
    requires Inv(reader, n) && CanRun(reader, n, steps)
    ensures Inv(reader, After(reader, n, steps))
    decreases |steps|
  {
    if steps != [] {
      StepKeepsInv(reader, n, steps[0]);
      InvOverRun(reader, Next(reader, n, steps[0]), steps[1..]);
    }
  }

  lemma StartInv(reader: Reader)
    ensures Inv(reader, START)
  {
    assert Records([]) == [];
  }

  /**
   Over every run: what the server has handled and has yet to handle is the framing of the
   client's bytes, and what it has handled when the connection is closed the first part of it.
   */
  lemma QueueIsFraming(reader: Reader, steps: seq<Step>)
    requires CanRun(reader, START, steps)
    ensures var n := After(reader, START, steps);
            && Rest(n.stream) == []
            && (if n.server.Closed? then n.served <= Records(n.stream)
                else Records(n.stream) == n.served + RecordsIn(n.toServer))
  {
    StartInv(reader);
    InvOverRun(reader, START, steps);
  }

  // ---- Pairing ----

  /** At most one record of the query can be answered. */
  predicate Solo(reader: Reader, q: Query)
    requires QueryOk(q)
  {
    forall i, j :: 0 <= i < j < |RecordsOf(q)| && Answerable(reader, RecordsOf(q)[i]) ==> !Answerable(reader, RecordsOf(q)[j])
  }

  predicate NoneAnswerable(reader: Reader, parcels: seq<Parcel>) {
    forall i :: 0 <= i < |parcels| ==> !Answerable(reader, parcels[i].record)
  }

  /** At most one reply is to come, and it is one to this request. */
  predicate OneComing(reader: Reader, request: Request, parcels: seq<Parcel>, replies: seq<Reply>) {
    if replies == [] then
      && (forall i :: 0 <= i < |parcels| && Answerable(reader, parcels[i].record) ==> parcels[i].to == request)
      && (forall i, j :: 0 <= i < j < |parcels| && Answerable(reader, parcels[i].record) ==>
            !Answerable(reader, parcels[j].record))
    else |replies| == 1 && replies[0].to == request && NoneAnswerable(reader, parcels)
  }

  /** The request somebody is waiting for a reply to. */
  function Outstanding(n: Net): Option<Request> {
    match n.link
    case Down => None
    case Greeting(request) => Some(request)
    case Up => if n.lock.Some? && PhaseOf(n, n.lock.value).Sent? then Some(PhaseOf(n, n.lock.value).request) else None
  }

  predicate Turns(reader: Reader, n: Net) {
    match Outstanding(n)
    case None => n.toClient == [] && NoneAnswerable(reader, n.toServer)
    case Some(request) => OneComing(reader, request, n.toServer, n.toClient)
  }

  /** Every read returned one reply, the reader's own, or found the connection closed. */
  predicate Paired(n: Net) {
    forall i :: 0 <= i < |n.log| ==>
      if n.log[i].replies == [] then n.server.Closed?
      else |n.log[i].replies| == 1 && n.log[i].replies[0].to == n.log[i].request
  }

  /** Every read returned one reply, the reader's own. */
  predicate OneEach(n: Net) {
    forall i :: 0 <= i < |n.log| ==> |n.log[i].replies| == 1 && n.log[i].replies[0].to == n.log[i].request
  }

  predicate SoloQueries(reader: Reader, n: Net)
    requires Locked(n)
  {
    forall t :: t in n.phases && !n.phases[t].Idle? ==> Solo(reader, n.phases[t].request.query)
  }

  /** What the client may ask for in a run: only requests that satisfy `fine`. */
  ghost predicate OnlyAsks(steps: seq<Step>, fine: Query -> bool) {
    forall i :: 0 <= i < |steps| ==>
      && (steps[i].Begin? ==> fine(steps[i].query))
      && (steps[i].Connect? ==> fine(Login(steps[i].authKey, steps[i].vendorId)))
  }

  /** Requests at most one record of which can be answered. */
  function SoloOnly(reader: Reader): Query -> bool {
    q => QueryOk(q) && Solo(reader, q)
  }

  /** Requests without a line end in their texts. */
  function OneLineOnly(): Query -> bool {
    q => QueryOk(q) && NoBreaks(q)
  }

  predicate StepAsks(step: Step, fine: Query -> bool) {
    (step.Begin? ==> fine(step.query)) && (step.Connect? ==> fine(Login(step.authKey, step.vendorId)))
  }

  lemma WrittenTurns(reader: Reader, parcels: seq<Parcel>, request: Request)
    requires QueryOk(request.query) && Solo(reader, request.query) && NoneAnswerable(reader, parcels)
    ensures OneComing(reader, request, parcels + Parcels(request, RecordsOf(request.query)), [])
  {
  }

  lemma ServedTurns(reader: Reader, n: Net, desk: Desk, injected: Option<Failure>)
    requires Turns(reader, n) && Enabled(n, Serve(desk, injected))
    ensures Turns(reader, Next(reader, n, Serve(desk, injected)))
  {
    var m := Next(reader, n, Serve(desk, injected));
    assert Outstanding(m) == Outstanding(n);
    assert forall i :: 0 <= i < |m.toServer| ==> m.toServer[i] == n.toServer[i + 1];
    assert m.toClient != n.toClient ==> Answerable(reader, n.toServer[0].record);
  }

  lemma TurnsKept(reader: Reader, n: Net, step: Step)
    requires Locked(n) && Turns(reader, n) && SoloQueries(reader, n) && Enabled(n, step)
    requires StepAsks(step, SoloOnly(reader))
    ensures var m := Next(reader, n, step); Locked(m) && Turns(reader, m) && SoloQueries(reader, m)
  {
    LockKept(reader, n, step);
    SoloKept(reader, n, step);
    match step
    case Connect(key, vendor) => WrittenTurns(reader, n.toServer, Request(n.issued, Login(key, vendor)));
    case Begin(task, query) => assert n.lock != Some(task);
    case Write(task) => WriteTurns(reader, n, task);
    case Serve(desk, injected) => ServedTurns(reader, n, desk, injected);
    case ReadReplies(task, count) => assert n.lock == Some(task);
    case _ =>
  }

  lemma SoloKept(reader: Reader, n: Net, step: Step)
    requires Locked(n) && SoloQueries(reader, n) && Enabled(n, step) && StepAsks(step, SoloOnly(reader))
    requires Locked(Next(reader, n, step))
    ensures SoloQueries(reader, Next(reader, n, step))
  {
  }

  lemma WriteTurns(reader: Reader, n: Net, task: nat)
    requires Locked(n) && Turns(reader, n) && SoloQueries(reader, n) && Enabled(n, Write(task))
    ensures Turns(reader, Next(reader, n, Write(task)))
  {
    assert n.lock == Some(task);
    WrittenTurns(reader, n.toServer, PhaseOf(n, task).request);
  }

  lemma PairsKept(reader: Reader, n: Net, step: Step)
    requires Locked(n) && Turns(reader, n) && Paired(n) && Enabled(n, step)
    ensures Paired(Next(reader, n, step))
  {
    match step
    case ReadReplies(task, count) =>
      assert n.lock == Some(task);
      assert count > 0 ==> n.toClient[..count] == n.toClient;
    case _ =>
  }

  lemma {:induction false} TurnsOverRun(reader: Reader, n: Net, steps: seq<Step>)
    requires Locked(n) && Turns(reader, n) && SoloQueries(reader, n) && Paired(n) && CanRun(reader, n, steps)
    requires OnlyAsks(steps, SoloOnly(reader))
    ensures var m := After(reader, n, steps); Locked(m) && Turns(reader, m) && SoloQueries(reader, m) && Paired(m)
    decreases |steps|
  {
    if steps != [] {
      assert StepAsks(steps[0], SoloOnly(reader));
      TurnsKept(reader, n, steps[0]);
      PairsKept(reader, n, steps[0]);
      assert forall i :: 0 <= i < |steps[1..]| ==> steps[1..][i] == steps[i + 1];
      TurnsOverRun(reader, Next(reader, n, steps[0]), steps[1..]);
    }
  }

  /**
   As long as every request has at most one record that can be answered: with the lock free
   no reply is on its way nor will be; only the lock's owner is half way through an exchange.
   */
  lemma FreeLockMeansQuiet(reader: Reader, steps: seq<Step>)
    requires CanRun(reader, START, steps) && OnlyAsks(steps, SoloOnly(reader))
    ensures var n := After(reader, START, steps);
            && (n.link.Up? && n.lock.None? ==> n.toClient == [] && NoneAnswerable(reader, n.toServer))
            && (forall t: nat :: Owning(PhaseOf(n, t)) <==> n.lock == Some(t))
            && |n.toClient| <= 1
  {
    TurnsOverRun(reader, START, steps);
  }

  /**
   ... and every read returns one reply, to the reader's own request, or nothing because the
   connection is closed, and no request is logged twice.
   */
  lemma EveryReplyIsItsOwn(reader: Reader, steps: seq<Step>)
    requires CanRun(reader, START, steps) && OnlyAsks(steps, SoloOnly(reader))
    ensures var log := After(reader, START, steps).log;
            && Paired(After(reader, START, steps))
            && (forall i, j :: 0 <= i < j < |log| ==> log[i].request.id != log[j].request.id)
  {
    TurnsOverRun(reader, START, steps);
    StartInv(reader);
    InvOverRun(reader, START, steps);
  }

  // ---- Both directions empty ----

  /** With one-record requests only, what is on its way is one record or one reply. */
  predicate OneOnTheWay(n: Net) {
    if Outstanding(n).None? then n.toServer == [] && n.toClient == [] else |n.toServer| + |n.toClient| <= 1
  }

  predicate OneRecordQueries(n: Net)
    requires Locked(n)
  {
    forall t :: t in n.phases && !n.phases[t].Idle? ==> NoBreaks(n.phases[t].request.query)
  }

  lemma OneOnTheWayKept(reader: Reader, n: Net, step: Step)
    requires Locked(n) && OneOnTheWay(n) && OneRecordQueries(n) && Enabled(n, step)
    requires StepAsks(step, OneLineOnly())
    ensures var m := Next(reader, n, step); Locked(m) && OneOnTheWay(m) && OneRecordQueries(m)
  {
    LockKept(reader, n, step);
    match step
    case Connect(key, vendor) => OneRecordIff(Login(key, vendor));
    case Begin(task, query) => assert n.lock != Some(task);
    case Write(task) =>
      assert n.lock == Some(task);
      OneRecordIff(PhaseOf(n, task).request.query);
    case ReadReplies(task, count) => assert n.lock == Some(task);
    case _ =>
  }

  lemma {:induction false} OneOnTheWayOverRun(reader: Reader, n: Net, steps: seq<Step>)
    requires Locked(n) && OneOnTheWay(n) && OneRecordQueries(n) && CanRun(reader, n, steps)
    requires OnlyAsks(steps, OneLineOnly())
    ensures var m := After(reader, n, steps); Locked(m) && OneOnTheWay(m) && OneRecordQueries(m)
    decreases |steps|
  {
    if steps != [] {
      assert StepAsks(steps[0], OneLineOnly());
      OneOnTheWayKept(reader, n, steps[0]);
      assert forall i :: 0 <= i < |steps[1..]| ==> steps[1..][i] == steps[i + 1];
      OneOnTheWayOverRun(reader, Next(reader, n, steps[0]), steps[1..]);
    }
  }

  /** As long as no request holds a line end, both directions are empty whenever the lock is free. */
  lemma FreeLockMeansEmpty(reader: Reader, steps: seq<Step>)
    requires CanRun(reader, START, steps) && OnlyAsks(steps, OneLineOnly())
    ensures var n := After(reader, START, steps);
            && (n.link.Up? && n.lock.None? ==> n.toServer == [] && n.toClient == [])
            && |n.toServer| + |n.toClient| <= 1
  {
    OneOnTheWayOverRun(reader, START, steps);
  }

  // ---- End to end ----

  function Joined(replies: seq<Reply>): string {
    if replies == [] then "" else replies[0].text + "\r\n" + Joined(replies[1..])
  }

  /** What _send_recv returns. */
  function Received(replies: seq<Reply>): string {
    Strip(Joined(replies))
  }

  lemma ReceivedOne(reply: Reply)
    requires reply.text != "" && Trimmed(reply.text)
    ensures Received([reply]) == reply.text
  {
    var text, end := reply.text, "\r\n";
    assert [reply][1..] == [];
    assert Joined([reply]) == text + end;
    assert Blank(end);
    assert TrimLeft(text + end) == text + end;
    TrimRightOfConcat(text, end);
  }

  lemma PrintedTrimmed(fields: seq<Field>, tag: string)
    ensures Trimmed(PrintTag(tag, fields)) && PrintTag(tag, fields) != ""
  {
    LastOfFields(fields);
    assert !IsBlank('<') && !IsBlank('>');
  }

  /** What the answer to a guest query parses to, from what the server finds. */
  predicate TellsGuest(text: string, found: Option<EmulatorGuest>) {
    match found
    case None => ParseGuest(text) == None
    case Some(g) => DatesOk(g) && (ParseGuest(text) == Some(Expected(g)) <==> Printable(g))
  }

  lemma GuestAnswer(reader: Reader, room: string, name: string, desk: Desk)
    requires Conforms(reader) && Faithful(room) && Faithful(name) && DeskOk(desk)
    ensures var text := Respond(reader, Encode(PrintRequest(GuestQuery(room, name))), desk, None);
            text != "" && Trimmed(text) && TellsGuest(text, FindGuest(desk.guests, room, name))
  {
    FaithfulQuery(reader, room, name);
    RespondRead(reader, GuestQuery(room, name), desk);
    match FindGuest(desk.guests, room, name)
    case None =>
      NotFoundParses();
      PrintedTrimmed([Field("Result", "NOT_FOUND")], "GI");
    case Some(g) =>
      GuestRoundTrip(g);
      PrintedTrimmed(Fields(g), "GI");
  }

  lemma FaithfulNoBreaks(room: string, name: string)
    requires Faithful(room) && Faithful(name)
    ensures NoBreaks(GuestQuery(room, name))
  {
    assert QueryFields(GuestQuery(room, name)) == [Field("RoomNumber", room), Field("LastName", name)];
    NoReturnsNoBreak(room);
    NoReturnsNoBreak(name);
  }

  /**
   End to end, over every run in which replies pair up: a completed query for a faithful room
   and name, answered without an injected failure, gives the asking task nothing when the
   server has no active guest of that room and name, and otherwise the guest it found,
   exactly when that guest is printable.  On a closed connection it gives nothing.
   */
  lemma GuestQueryEndToEnd(reader: Reader, steps: seq<Step>, i: nat, room: string, name: string)
    requires Conforms(reader) && CanRun(reader, START, steps) && OnlyAsks(steps, SoloOnly(reader))
    requires i < |After(reader, START, steps).log| && Faithful(room) && Faithful(name)
    requires After(reader, START, steps).log[i].request.query == GuestQuery(room, name)
    ensures var replies := After(reader, START, steps).log[i].replies;
            if replies == [] then After(reader, START, steps).server.Closed? && ParseGuest(Received(replies)) == None
            else
              && |replies| == 1
              && (replies[0].injected.None? ==>
                    TellsGuest(Received(replies), FindGuest(replies[0].desk.guests, room, name)))
  {
    EveryReplyIsItsOwn(reader, steps);
    if After(reader, START, steps).log[i].replies == [] {
      NothingParses();
    } else {
      var reply := OneReply(reader, steps, i);
      ReplyTells(reader, reply, room, name);
    }
  }

  lemma NothingParses()
    ensures Received([]) == "" && ParseGuest("") == None
  {
  }

  /** The one reply of an exchange, made from a record of its own request. */
  lemma OneReply(reader: Reader, steps: seq<Step>, i: nat) returns (reply: Reply)
    requires CanRun(reader, START, steps) && OnlyAsks(steps, SoloOnly(reader)) && i < |After(reader, START, steps).log|
    requires After(reader, START, steps).log[i].replies != []
    ensures var exchange := After(reader, START, steps).log[i];
            exchange.replies == [reply] && reply.to == exchange.request && Genuine(reader, reply)
  {
    EveryReplyIsItsOwn(reader, steps);
    StartInv(reader);
    InvOverRun(reader, START, steps);
    reply := OwnReply(reader, After(reader, START, steps), i);
  }

  lemma OwnReply(reader: Reader, n: Net, i: nat) returns (reply: Reply)
    requires Paired(n) && Honest(reader, n) && i < |n.log| && n.log[i].replies != []
    ensures n.log[i].replies == [reply] && reply.to == n.log[i].request && Genuine(reader, reply)
  {
    reply := n.log[i].replies[0];
  }

  lemma ReplyTells(reader: Reader, reply: Reply, room: string, name: string)
    requires Conforms(reader) && Faithful(room) && Faithful(name) && Genuine(reader, reply)
    requires reply.to.query == GuestQuery(room, name)
    ensures reply.injected.None? ==> TellsGuest(Received([reply]), FindGuest(reply.desk.guests, room, name))
  {
    FaithfulNoBreaks(room, name);
    OneRecordIff(GuestQuery(room, name));
    assert reply.record == Encode(PrintRequest(GuestQuery(room, name)));
    if reply.injected.None? {
      GuestAnswer(reader, room, name, reply.desk);
      ReceivedOne(reply);
    }
  }
}
