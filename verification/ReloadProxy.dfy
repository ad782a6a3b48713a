/**
 The hot-reload supervisor: a proxy between a JSON-RPC client and a worker that
 may crash or be replaced at any time, and that replays what was not answered.
 */
module ReloadProxy {
  import opened Basics

  /** The parts of a JSON-RPC message the proxy looks at. An id is its JSON text. */
  datatype Message = Message(rpcMethod: string, id: Option<string>)

  /** A line as read, with its message unless it is blank or not JSON. */
  datatype Line = Line(text: string, message: Option<Message>)

  datatype Request = Request(id: string, text: string)

  datatype State = State(
    initRequest: Option<string>, initNotification: Option<string>, pending: seq<Request>, generation: nat)

  const INITIAL := State(None, None, [], 0)

  // ----- Tracking -----

  predicate Holds(reqs: seq<Request>, id: string) {
    exists i :: 0 <= i < |reqs| && reqs[i].id == id
  }

  /** `IndexMap::insert`: a known key keeps its place, a new one goes last. */
  function Insert(reqs: seq<Request>, r: Request): seq<Request> {
    if reqs == [] then [r]
    else if reqs[0].id == r.id then [r] + reqs[1..]
    else [reqs[0]] + Insert(reqs[1..], r)
  }

  /** `IndexMap::shift_remove`: the rest keeps its order. */
  function ShiftRemove(reqs: seq<Request>, id: string): seq<Request> {
    if reqs == [] then []
    else if reqs[0].id == id then reqs[1..]
    else [reqs[0]] + ShiftRemove(reqs[1..], id)
  }

  function TrackRequest(s: State, line: Line): State {
    match line.message
    case None => s
    case Some(m) =>
      if m.rpcMethod == "initialize" then s.(initRequest := Some(line.text))
      else if m.rpcMethod == "notifications/initialized" then s.(initNotification := Some(line.text))
      else if m.id.Some? then s.(pending := Insert(s.pending, Request(m.id.value, line.text)))
      else s
  }

  function TrackResponse(s: State, line: Line): State {
    if line.message.Some? && line.message.value.id.Some?
    then s.(pending := ShiftRemove(s.pending, line.message.value.id.value)) else s
  }

  /** What a read of the dying worker's output gives. */
  datatype Read = Got(line: Line) | EndOfFile | Failed | TimedOut

  /** Lines are forwarded until one is no line or nothing is pending after one. */
  function Drained(s: State, arrivals: seq<Read>): (State, seq<Line>)
    decreases arrivals
  {
    if arrivals == [] || !arrivals[0].Got? then (s, []) else
      var s' := TrackResponse(s, arrivals[0].line);
      if s'.pending == [] then (s', [arrivals[0].line])
      else var (end, lines) := Drained(s', arrivals[1..]); (end, [arrivals[0].line] + lines)
  }

  /** What the proxy loop's select can find ready. */
  datatype Ready = FromClient(line: Line, written: bool) | FromWorker(line: Line) | WorkerGone | ReloadSignal

  datatype Exit = WorkerDied | Reload

  /** The loop's final state, the lines it forwarded to the client, and why it ended (none if nothing more is ready). */
  function Proxied(s: State, ready: seq<Ready>): (State, seq<Line>, Option<Exit>)
    decreases ready
  {
    if ready == [] then (s, [], None) else
      match ready[0]
      case FromClient(line, written) =>
        var s' := TrackRequest(s, line);
        if written then Proxied(s', ready[1..]) else (s', [], Some(WorkerDied))
      case FromWorker(line) =>
        var (end, lines, exit) := Proxied(TrackResponse(s, line), ready[1..]);
        (end, [line] + lines, exit)
      case WorkerGone => (s, [], Some(WorkerDied))
      case ReloadSignal => (s, [], Some(Reload))
  }

  function Texts(reqs: seq<Request>): seq<string> {
    seq(|reqs|, i requires 0 <= i < |reqs| => reqs[i].text)
  }

  function Accepted(reqs: seq<Request>, accepts: nat): seq<Request> {
    if accepts < |reqs| then reqs[..accepts] else reqs
  }

  // ----- What the loops forward -----

  /** What ends the proxy loop. */
  predicate Ends(r: Ready) { r.WorkerGone? || r.ReloadSignal? || (r.FromClient? && !r.written) }

  /** The first entry that ends the loop, or the number of entries. */
  function EndOf(ready: seq<Ready>): (k: nat)
    ensures k <= |ready| && (forall i :: 0 <= i < k ==> !Ends(ready[i])) && (k < |ready| ==> Ends(ready[k]))
  {
    if ready == [] || Ends(ready[0]) then 0 else 1 + EndOf(ready[1..])
  }

  function ExitAt(ready: seq<Ready>, k: nat): Option<Exit>
    requires k <= |ready|
  {
    if k == |ready| then None else if ready[k].ReloadSignal? then Some(Reload) else Some(WorkerDied)
  }

  /** The lines the worker wrote, answers or not. */
  function WorkerLines(ready: seq<Ready>): seq<Line> {
    if ready == [] then []
    else (match ready[0] case FromWorker(line) => [line] case _ => []) + WorkerLines(ready[1..])
  }

  lemma {:induction false} ProxiedForwards(s: State, ready: seq<Ready>)
    ensures Proxied(s, ready).1 == WorkerLines(ready[..EndOf(ready)])
    ensures Proxied(s, ready).2 == ExitAt(ready, EndOf(ready))
    decreases ready
  {
    if ready != [] && !Ends(ready[0]) {
      var rest, k := ready[1..], EndOf(ready[1..]);
      assert ready[..k + 1][1..] == rest[..k];
      match ready[0]
      case FromClient(line, _) => ProxiedForwards(TrackRequest(s, line), rest);
      case FromWorker(line) => ProxiedForwards(TrackResponse(s, line), rest);
    } else {
      assert ready[..0] == [];
    }
  }

  /** What stays pending after some lines have been forwarded. */
  function PendingAfter(pending: seq<Request>, lines: seq<Line>): seq<Request>
    decreases lines
  {
    if lines == [] then pending else
      var id := AnswerId(lines[0]);
      PendingAfter(if id.Some? then ShiftRemove(pending, id.value) else pending, lines[1..])
  }

  /**
   The drain forwards the lines that arrive, whole and in order, up to the first arrival that is none, or until
   after a line nothing is pending.
   */
  predicate DrainsWell(pending: seq<Request>, arrivals: seq<Read>, forwarded: seq<Line>) {
    var k := |forwarded|;
    && k <= |arrivals| && (forall i :: 0 <= i < k ==> arrivals[i] == Got(forwarded[i]))
    && (forall i :: 0 < i < k ==> PendingAfter(pending, forwarded[..i]) != [])
    && (k == |arrivals| || !arrivals[k].Got? || (k > 0 && PendingAfter(pending, forwarded) == []))
  }

  lemma {:induction false} DrainedForwards(s: State, arrivals: seq<Read>)
    ensures DrainsWell(s.pending, arrivals, Drained(s, arrivals).1)
    ensures Drained(s, arrivals).0 == s.(pending := PendingAfter(s.pending, Drained(s, arrivals).1))
    decreases arrivals
  {
    if arrivals != [] && arrivals[0].Got? {
      var line := arrivals[0].line;
      var s' := TrackResponse(s, line);
      if s'.pending == [] {
        assert Drained(s, arrivals).1 == [line] && [line][1..] == [];
      } else {
        DrainedForwards(s', arrivals[1..]);
        var rest := Drained(s', arrivals[1..]).1;
        var all := [line] + rest;
        assert Drained(s, arrivals).1 == all && all[1..] == rest;
        forall i | 0 < i < |all| ensures PendingAfter(s.pending, all[..i]) != [] {
          assert all[..i][1..] == rest[..i - 1] && all[..i][0] == line;
          if i > 1 { assert PendingAfter(s'.pending, rest[..i - 1]) != []; }
        }
      }
    }
  }

  lemma StatedDrain(s: State, arrivals: seq<Read>)
    ensures DrainsWell(s.pending, arrivals, Drained(s, arrivals).1)
  {
    DrainedForwards(s, arrivals);
    hide *;
  }

  /** What a new worker is sent first: the client's handshake, as far as there was one. */
  function Handshake(s: State): seq<string> {
    if s.initRequest.None? then []
    else [s.initRequest.value] + if s.initNotification.Some? then [s.initNotification.value] else []
  }

  class Supervisor {
    var initRequest: Option<string>
    var initNotification: Option<string>
    var pending: seq<Request>
    var generation: nat

    constructor ()
      ensures View() == INITIAL
    {
      initRequest, initNotification, pending, generation := None, None, [], 0;
    }

    function View(): State
      reads this
    {
      State(initRequest, initNotification, pending, generation)
    }

    method Track(line: Line)
      modifies this
      ensures View() == TrackRequest(old(View()), line)
    {
      if line.message.None? { return; }
      var m := line.message.value;
      if m.rpcMethod == "initialize" {
        initRequest := Some(line.text);
        return;
      }
      if m.rpcMethod == "notifications/initialized" {
        initNotification := Some(line.text);
        return;
      }
      if m.id.Some? {
        pending := Insert(pending, Request(m.id.value, line.text));
      }
    }

    method Untrack(line: Line)
      modifies this`pending
      ensures View() == TrackResponse(old(View()), line)
    {
      if line.message.Some? && line.message.value.id.Some? {
        pending := ShiftRemove(pending, line.message.value.id.value);
      }
    }

    /** The select loop: every worker line before its end goes to the client, whole and in order. */
    method ProxyLoop(ready: seq<Ready>) returns (forwarded: seq<Line>, exit: Option<Exit>)
      modifies this
      ensures (View(), forwarded, exit) == Proxied(old(View()), ready)
      ensures forwarded == WorkerLines(ready[..EndOf(ready)])
      ensures exit == ExitAt(ready, EndOf(ready))
    {
      ProxiedForwards(View(), ready);
      hide WorkerLines, EndOf, ExitAt;
      hide TrackResponse, TrackRequest;
      forwarded := [];
      var k := 0;
      assert ready[0..] == ready;
      while k < |ready|
        invariant k <= |ready|
        invariant Proxied(old(View()), ready).0 == Proxied(View(), ready[k..]).0
        invariant Proxied(old(View()), ready).1 == forwarded + Proxied(View(), ready[k..]).1
        invariant Proxied(old(View()), ready).2 == Proxied(View(), ready[k..]).2
      {
        assert ready[k..][0] == ready[k] && ready[k..][1..] == ready[k + 1..];
        assert forwarded + [] == forwarded;
        match ready[k] {
          case FromClient(line, written) =>
            Track(line);
            if !written { return forwarded, Some(WorkerDied); }
          case FromWorker(line) =>
            Untrack(line);
            forwarded := forwarded + [line];
          case WorkerGone => return forwarded, Some(WorkerDied);
          case ReloadSignal => return forwarded, Some(Reload);
        }
        k := k + 1;
      }
      assert forwarded + [] == forwarded;
      exit := None;
    }

    /** The drain loop; the deadline comes when the arrivals run out. */
    method DrainWorker(arrivals: seq<Read>) returns (forwarded: seq<Line>)
      modifies this`pending
      ensures (View(), forwarded) == Drained(old(View()), arrivals)
      ensures DrainsWell(old(pending), arrivals, forwarded)
    {
      StatedDrain(View(), arrivals);
      hide TrackResponse, DrainsWell;
      forwarded := [];
      var k := 0;
      assert arrivals[0..] == arrivals;
      while k < |arrivals|
        invariant k <= |arrivals|
        invariant Drained(old(View()), arrivals).0 == Drained(View(), arrivals[k..]).0
        invariant Drained(old(View()), arrivals).1 == forwarded + Drained(View(), arrivals[k..]).1
      {
        assert arrivals[k..][0] == arrivals[k] && arrivals[k..][1..] == arrivals[k + 1..];
        if !arrivals[k].Got? { break; }
        Untrack(arrivals[k].line);
        forwarded := forwarded + [arrivals[k].line];
        if pending == [] { return; }
        k := k + 1;
      }
      assert Drained(View(), arrivals[k..]) == (View(), []);
      assert forwarded + [] == forwarded;
    }

    /**
     The new generation: the stored handshake is sent again and its answer thrown away, the client is told that
     the tools changed, and what is pending is replayed. If the handshake or the notice fails the process ends.
     */
    method StartGeneration(initWritten: bool, initAnswered: bool, noticeWritten: bool, accepts: nat)
      returns (written: seq<string>, alive: bool)
      modifies this`generation
      ensures View() == old(View()).(generation := old(generation) + 1)
      ensures alive <==> (initRequest.Some? ==> initWritten && initAnswered) && noticeWritten
      ensures alive ==> written == Handshake(View()) + Texts(Accepted(pending, accepts))
      ensures !alive ==> written == if initRequest.Some? && !initWritten then [] else Handshake(View())
      ensures forall s: System :: s.proxy == old(View()) && alive ==>
                var t := Step(s, Respawn(accepts));
                View() == t.proxy && written == Handshake(s.proxy) + Texts(t.replays[|t.replays| - 1])
    {
      generation := generation + 1;
      written := [];
      if initRequest.Some? {
        if !initWritten { return written, false; }
        written := [initRequest.value];
        if initNotification.Some? { written := written + [initNotification.value]; }
        if !initAnswered { return written, false; }
      }
      if !noticeWritten { return written, false; }
      var replayed := Replay(accepts);
      return written + replayed, true;
    }

    /** The replay loop: write what is pending in order, up to the first write that fails. */
    method Replay(accepts: nat) returns (written: seq<string>)
      ensures written == Texts(Accepted(pending, accepts))
      ensures forall s: System :: s.proxy == View() ==>
                var replays := Step(s, Respawn(accepts)).replays;
                written == Texts(replays[|replays| - 1])
    {
      written := [];
      var k := 0;
      while k < |pending| && k < accepts
        invariant k <= |pending| && k <= accepts
        invariant written == Texts(pending[..k])
      {
        written := written + [pending[k].text];
        k := k + 1;
      }
      assert pending[..|pending|] == pending;
    }
  }

  // ----- The whole system -----

  /** A worker, by what reached it, what it has answered, and what it wrote that nobody read yet. */
  datatype Worker = Worker(received: seq<string>, answered: set<string>, outbox: seq<Line>)

  /**
   Beside the proxy and its worker: every tracked request in arrival order, the
   ids of initialize requests, the ids of answers the client got, and the
   requests offered at each replay.
   */
  datatype System = System(
    proxy: State, worker: Worker,
    tracked: seq<Request>, initIds: set<string>, delivered: seq<string>, replays: seq<seq<Request>>)

  const START := System(INITIAL, Worker([], {}, []), [], {}, [], [])

  datatype Event =
    | Client(line: Line, reached: bool)       // a client line; it may or may not reach the worker
    | Work(line: Line)                        // the worker writes a line
    | Lose(k: nat, garbled: bool)             // unread output vanishes or is torn
    | Deliver                                 // a line is read, in the proxy loop or in the drain
    | Respawn(accepts: nat)                   // the worker is replaced and the pending requests replayed

  /** The id a client line makes the proxy track. */
  function TrackedId(line: Line): Option<string> {
    if line.message.None? then None else
      var m := line.message.value;
      if m.rpcMethod == "initialize" || m.rpcMethod == "notifications/initialized" then None else m.id
  }

  function AnswerId(line: Line): Option<string> {
    if line.message.None? then None else line.message.value.id
  }

  /** Clients use a new id for each request; a worker answers each request it got at most once. */
  ghost predicate Enabled(s: System, e: Event) {
    match e
    case Client(line, _) =>
      line.message.Some? && line.message.value.id.Some? ==>
        !Holds(s.tracked, line.message.value.id.value) && line.message.value.id.value !in s.initIds
    case Work(line) =>
      AnswerId(line).Some? ==>
        var id := AnswerId(line).value;
        id in s.initIds || (id in s.worker.received && id !in s.worker.answered)
    case Lose(k, _) => k < |s.worker.outbox|
    case Deliver => s.worker.outbox != []
    case Respawn(_) => true
  }

  function Ids(reqs: seq<Request>): seq<string> {
    seq(|reqs|, i requires 0 <= i < |reqs| => reqs[i].id)
  }

  function Step(s: System, e: Event): System
    requires Enabled(s, e)
  {
    var w := s.worker;
    match e
    case Client(line, reached) =>
      var id := TrackedId(line);
      var t := s.(proxy := TrackRequest(s.proxy, line));
      if id.Some? then
        t.(tracked := s.tracked + [Request(id.value, line.text)],
           worker := if reached then w.(received := w.received + [id.value]) else w)
      else if AnswerId(line).Some? then t.(initIds := s.initIds + {AnswerId(line).value})
      else t
    case Work(line) =>
      s.(worker := w.(outbox := w.outbox + [line],
                      answered := w.answered + if AnswerId(line).Some? then {AnswerId(line).value} else {}))
    case Lose(k, garbled) =>
      var torn := if garbled then [Line("", None)] else [];
      s.(worker := w.(outbox := w.outbox[..k] + torn + w.outbox[k + 1..]))
    case Deliver =>
      var line := w.outbox[0];
      s.(proxy := TrackResponse(s.proxy, line), worker := w.(outbox := w.outbox[1..]),
         delivered := s.delivered + if AnswerId(line).Some? then [AnswerId(line).value] else [])
    case Respawn(accepts) =>
      var offered := Accepted(s.proxy.pending, accepts);
      s.(proxy := s.proxy.(generation := s.proxy.generation + 1),
         worker := Worker(Ids(offered), {}, []), replays := s.replays + [offered])
  }

  // ----- Invariant -----

  function Unanswered(reqs: seq<Request>, delivered: seq<string>): seq<Request> {
    if reqs == [] then [] else
      var rest := Unanswered(reqs[..|reqs| - 1], delivered);
      if reqs[|reqs| - 1].id in delivered then rest else rest + [reqs[|reqs| - 1]]
  }

  ghost predicate Distinct(reqs: seq<Request>) {
    forall i, j :: 0 <= i < j < |reqs| ==> reqs[i].id != reqs[j].id
  }

  /** If two lines answer the same request, it is an initialize request. */
  predicate SharedAnswersAre(a: Line, b: Line, ids: set<string>) {
    AnswerId(a).Some? && AnswerId(a) == AnswerId(b) ==> AnswerId(a).value in ids
  }

  ghost predicate OutboxSound(s: System) {
    && (forall i :: 0 <= i < |s.worker.outbox| && AnswerId(s.worker.outbox[i]).Some? ==>
          var id := AnswerId(s.worker.outbox[i]).value;
          id in s.initIds || (id in s.worker.received && id in s.worker.answered && id !in s.delivered))
    && (forall i, j :: 0 <= i < j < |s.worker.outbox| ==>
          SharedAnswersAre(s.worker.outbox[i], s.worker.outbox[j], s.initIds))
  }

  ghost predicate WorkerSound(s: System) {
    && (forall id :: id in s.worker.received ==> Holds(s.tracked, id))
    && (forall id :: id in s.worker.received && id in s.delivered ==> id in s.worker.answered)
    && OutboxSound(s)
  }

  ghost predicate DeliveredOnce(s: System) {
    && (forall id :: id in s.delivered ==> id in s.initIds || Holds(s.tracked, id))
    && (forall i, j :: 0 <= i < j < |s.delivered| && s.delivered[i] == s.delivered[j] ==>
          s.delivered[i] in s.initIds)
  }

  ghost predicate Inv(s: System) {
    && Distinct(s.tracked)
    && (forall id :: id in s.initIds ==> !Holds(s.tracked, id))
    && s.proxy.pending == Unanswered(s.tracked, s.delivered)
    && DeliveredOnce(s)
    && WorkerSound(s)
  }

  lemma {:induction false} UnansweredIds(reqs: seq<Request>, delivered: seq<string>, id: string)
    ensures Holds(Unanswered(reqs, delivered), id) <==> Holds(reqs, id) && id !in delivered
  {
    if reqs != [] {
      var init, last := reqs[..|reqs| - 1], reqs[|reqs| - 1];
      UnansweredIds(init, delivered, id);
      HoldsAppend(init, last, id);
      HoldsAppend(Unanswered(init, delivered), last, id);
      assert reqs == init + [last];
    }
  }

  lemma HoldsAppend(reqs: seq<Request>, r: Request, id: string)
    ensures Holds(reqs + [r], id) <==> Holds(reqs, id) || r.id == id
  {
    if Holds(reqs, id) {
      var i :| 0 <= i < |reqs| && reqs[i].id == id;
      assert (reqs + [r])[i].id == id;
    }
    assert (reqs + [r])[|reqs|] == r;
  }

  lemma {:induction false} InsertNew(reqs: seq<Request>, r: Request)
    requires !Holds(reqs, r.id)
    ensures Insert(reqs, r) == reqs + [r]
  {
    if reqs != [] {
      assert reqs[0].id != r.id;
      assert !Holds(reqs[1..], r.id) by {
        assert forall i :: 0 <= i < |reqs| - 1 ==> reqs[1..][i] == reqs[i + 1];
      }
      InsertNew(reqs[1..], r);
    }
  }

  /** A request sent again under a known id keeps its place and takes the new text; all others stay. */
  lemma {:induction false} InsertKnown(reqs: seq<Request>, r: Request, k: nat)
    requires k < |reqs| && reqs[k].id == r.id && forall i :: 0 <= i < k ==> reqs[i].id != r.id
    ensures Insert(reqs, r) == reqs[k := r]
  {
    if k > 0 { InsertKnown(reqs[1..], r, k - 1); }
  }

  lemma {:induction false} RemoveAppend(reqs: seq<Request>, r: Request, id: string)
    ensures ShiftRemove(reqs + [r], id)
         == if Holds(reqs, id) then ShiftRemove(reqs, id) + [r]
            else if r.id == id then reqs else reqs + [r]
  {
    if reqs == [] {
      assert [] + [r] == [r];
    } else {
      assert (reqs + [r])[0] == reqs[0] && (reqs + [r])[1..] == reqs[1..] + [r];
      RemoveAppend(reqs[1..], r, id);
      assert reqs == [reqs[0]] + reqs[1..];
      HoldsCons(reqs, id);
    }
  }

  lemma HoldsCons(reqs: seq<Request>, id: string)
    requires reqs != []
    ensures Holds(reqs, id) <==> reqs[0].id == id || Holds(reqs[1..], id)
  {
    if Holds(reqs, id) {
      var i :| 0 <= i < |reqs| && reqs[i].id == id;
      if i > 0 { assert reqs[1..][i - 1].id == id; }
    }
    if Holds(reqs[1..], id) {
      var i :| 0 <= i < |reqs| - 1 && reqs[1..][i].id == id;
      assert reqs[i + 1].id == id;
    }
  }

  lemma {:induction false} RemoveAbsent(reqs: seq<Request>, id: string)
    requires !Holds(reqs, id)
    ensures ShiftRemove(reqs, id) == reqs
  {
    if reqs != [] {
      HoldsCons(reqs, id);
      RemoveAbsent(reqs[1..], id);
    }
  }

  /** One more delivered answer takes exactly its request out of what is unanswered. */
  lemma {:induction false} AnswerOne(reqs: seq<Request>, delivered: seq<string>, id: string)
    requires Distinct(reqs)
    ensures Unanswered(reqs, delivered + [id]) == ShiftRemove(Unanswered(reqs, delivered), id)
  {
    if reqs != [] {
      var init, last := reqs[..|reqs| - 1], reqs[|reqs| - 1];
      AnswerOne(init, delivered, id);
      UnansweredIds(init, delivered, id);
      if last.id !in delivered {
        RemoveAppend(Unanswered(init, delivered), last, id);
        assert last.id == id ==> !Holds(init, id);
        if !Holds(Unanswered(init, delivered), id) {
          RemoveAbsent(Unanswered(init, delivered), id);
        }
      }
    }
  }

  lemma ClientKeepsInv(s: System, line: Line, reached: bool)
    requires Inv(s) && Enabled(s, Client(line, reached))
    ensures Inv(Step(s, Client(line, reached)))
  {
    var t := Step(s, Client(line, reached));
    if TrackedId(line).Some? {
      var r := Request(TrackedId(line).value, line.text);
      UnansweredIds(s.tracked, s.delivered, r.id);
      InsertNew(s.proxy.pending, r);
      assert t.tracked[..|t.tracked| - 1] == s.tracked;
      assert r.id !in s.delivered;
      assert r.id !in s.worker.received;
      forall id ensures Holds(t.tracked, id) <==> Holds(s.tracked, id) || id == r.id {
        HoldsAppend(s.tracked, r, id);
      }
      assert Distinct(t.tracked);
    }
  }

  lemma WorkKeepsInv(s: System, line: Line)
    requires Inv(s) && Enabled(s, Work(line))
    ensures Inv(Step(s, Work(line)))
  {
  }

  lemma LoseKeepsInv(s: System, k: nat, garbled: bool)
    requires Inv(s) && Enabled(s, Lose(k, garbled))
    ensures Inv(Step(s, Lose(k, garbled)))
  {
    var t := Step(s, Lose(k, garbled));
    var out, out' := s.worker.outbox, t.worker.outbox;
    var shift := if garbled then 0 else 1;
    forall i | 0 <= i < |out'| && AnswerId(out'[i]).Some?
      ensures var o := if i < k then i else i + shift;
              0 <= o < |out| && out'[i] == out[o]
    {
    }
    forall i, j | 0 <= i < j < |out'| ensures SharedAnswersAre(out'[i], out'[j], s.initIds) {
      if AnswerId(out'[i]).Some? && AnswerId(out'[j]).Some? {
        var oi, oj := if i < k then i else i + shift, if j < k then j else j + shift;
        assert SharedAnswersAre(out[oi], out[oj], s.initIds);
      }
    }
    assert OutboxSound(t);
  }

  lemma DeliverKeepsInv(s: System)
    requires Inv(s) && Enabled(s, Deliver)
    ensures Inv(Step(s, Deliver))
  {
    var line, t := s.worker.outbox[0], Step(s, Deliver);
    if AnswerId(line).Some? {
      AnswerOne(s.tracked, s.delivered, AnswerId(line).value);
    } else {
      assert t.delivered == s.delivered;
    }
    assert forall i :: 0 <= i < |t.worker.outbox| ==> t.worker.outbox[i] == s.worker.outbox[i + 1];
  }

  lemma RespawnKeepsInv(s: System, accepts: nat)
    requires Inv(s)
    ensures Inv(Step(s, Respawn(accepts)))
  {
    var t := Step(s, Respawn(accepts));
    forall id | id in t.worker.received ensures Holds(s.tracked, id) && id !in s.delivered {
      var i :| 0 <= i < |t.worker.received| && t.worker.received[i] == id;
      assert s.proxy.pending[i].id == id;
      UnansweredIds(s.tracked, s.delivered, id);
    }
  }

  lemma StepKeepsInv(s: System, e: Event)
    requires Inv(s) && Enabled(s, e)
    ensures Inv(Step(s, e))
  {
    match e
    case Client(line, reached) => ClientKeepsInv(s, line, reached);
    case Work(line) => WorkKeepsInv(s, line);
    case Lose(k, garbled) => LoseKeepsInv(s, k, garbled);
    case Deliver => DeliverKeepsInv(s);
    case Respawn(accepts) => RespawnKeepsInv(s, accepts);
  }

  // ----- Whole runs -----

  ghost predicate Enables(s: System, es: seq<Event>)
    decreases es
  {
    es == [] || (Enabled(s, es[0]) && Enables(Step(s, es[0]), es[1..]))
  }

  function Run(s: System, es: seq<Event>): System
    requires Enables(s, es)
    decreases es
  {
    if es == [] then s else Run(Step(s, es[0]), es[1..])
  }

  lemma {:induction false} RunKeepsInv(s: System, es: seq<Event>)
    requires Inv(s) && Enables(s, es)
    ensures Inv(Run(s, es))
    decreases es
  {
    if es != [] {
      StepKeepsInv(s, es[0]);
      RunKeepsInv(Step(s, es[0]), es[1..]);
    }
  }

  /** The last line of a kind that the client sent. */
  function LastSent(es: seq<Event>, rpcMethod: string): Option<string> {
    if es == [] then None else
      var e := es[|es| - 1];
      if e.Client? && e.line.message.Some? && e.line.message.value.rpcMethod == rpcMethod then Some(e.line.text)
      else LastSent(es[..|es| - 1], rpcMethod)
  }

  lemma {:induction false} RunOfLast(s: System, es: seq<Event>, e: Event)
    requires Enables(s, es + [e])
    ensures Enables(s, es) && Enabled(Run(s, es), e) && Run(s, es + [e]) == Step(Run(s, es), e)
    decreases es
  {
    hide Enabled, Step;
    if es == [] {
      assert es + [e] == [e] && [e][1..] == [];
      assert Run(Step(s, e), []) == Step(s, e);
    } else {
      assert (es + [e])[1..] == es[1..] + [e];
      RunOfLast(Step(s, es[0]), es[1..], e);
    }
  }

  /** The handshake that a new worker is sent is the last one the client sent, through any crashes and reloads. */
  lemma {:induction false} HandshakeIsLast(es: seq<Event>)
    requires Enables(START, es)
    ensures var s := Run(START, es).proxy;
            && s.initRequest == LastSent(es, "initialize")
            && s.initNotification == LastSent(es, "notifications/initialized")
            && Handshake(s) == match LastSent(es, "initialize")
                               case None => []
                               case Some(request) =>
                                 match LastSent(es, "notifications/initialized")
                                 case None => [request]
                                 case Some(notification) => [request, notification]
  {
    if es != [] {
      var before, e := es[..|es| - 1], es[|es| - 1];
      assert es == before + [e];
      RunOfLast(START, before, e);
      HandshakeIsLast(before);
      hide Run, Enables, Insert, ShiftRemove, Texts, Accepted, Ids;
    }
  }

  function Times(delivered: seq<string>, id: string): nat {
    if delivered == [] then 0
    else Times(delivered[1..], id) + if delivered[0] == id then 1 else 0
  }

  lemma {:induction false} OnceOrNever(delivered: seq<string>, id: string)
    requires forall i, j :: 0 <= i < j < |delivered| ==> !(delivered[i] == id && delivered[j] == id)
    ensures Times(delivered, id) == if id in delivered then 1 else 0
  {
    if delivered != [] {
      assert id in delivered <==> delivered[0] == id || id in delivered[1..];
      OnceOrNever(delivered[1..], id);
    }
  }

  /**
   Through any run of crashes, reloads and lost output: each tracked request is
   either answered once and no longer pending, or pending and not answered, and
   the pending list is the unanswered requests in arrival order.
   */
  lemma AnsweredOnceOrPending(es: seq<Event>, id: string)
    requires Enables(START, es)
    requires Holds(Run(START, es).tracked, id)
    ensures var s := Run(START, es);
            && Times(s.delivered, id) == (if Holds(s.proxy.pending, id) then 0 else 1)
            && s.proxy.pending == Unanswered(s.tracked, s.delivered)
  {
    RunKeepsInv(START, es);
    var s := Run(START, es);
    UnansweredIds(s.tracked, s.delivered, id);
    OnceOrNever(s.delivered, id);
  }

  /** A replay offers the unanswered requests in arrival order, all of them unless a write fails. */
  lemma ReplayOffersUnanswered(es: seq<Event>, accepts: nat)
    requires Enables(START, es)
    ensures var s := Run(START, es);
            var t := Step(s, Respawn(accepts));
            var offered := t.replays[|t.replays| - 1];
            && offered <= Unanswered(s.tracked, s.delivered)
            && |offered| == (if accepts < |s.proxy.pending| then accepts else |s.proxy.pending|)
            && t.worker.received == Ids(offered)
  {
    RunKeepsInv(START, es);
  }

  // ----- The loops are runs -----

  /** The system's steps behind a stretch of the proxy loop, up to where it ends. */
  function LoopEvents(ready: seq<Ready>): seq<Event> {
    if ready == [] then [] else
      match ready[0]
      case FromClient(line, written) =>
        [Client(line, written)] + if written then LoopEvents(ready[1..]) else []
      case FromWorker(line) => [Work(line), Deliver] + LoopEvents(ready[1..])
      case WorkerGone => []
      case ReloadSignal => []
  }

  function DrainEvents(s: State, arrivals: seq<Read>): seq<Event>
    decreases arrivals
  {
    if arrivals == [] || !arrivals[0].Got? then [] else
      var s' := TrackResponse(s, arrivals[0].line);
      [Work(arrivals[0].line), Deliver] + if s'.pending == [] then [] else DrainEvents(s', arrivals[1..])
  }

  /** The ids that a stretch of forwarded lines answers, in order. */
  function AnswerIds(lines: seq<Line>): seq<string> {
    if lines == [] then [] else
      (if AnswerId(lines[0]).Some? then [AnswerId(lines[0]).value] else []) + AnswerIds(lines[1..])
  }

  /** A line written by the worker and read at once. */
  lemma OneLine(s: System, line: Line, rest: seq<Event>) returns (u: System)
    requires s.worker.outbox == [] && Enables(s, [Work(line), Deliver] + rest)
    ensures Enables(u, rest) && Run(s, [Work(line), Deliver] + rest) == Run(u, rest)
    ensures u.proxy == TrackResponse(s.proxy, line) && u.worker.outbox == []
    ensures forall lines :: u.delivered + AnswerIds(lines) == s.delivered + AnswerIds([line] + lines)
  {
    var es := [Work(line), Deliver] + rest;
    assert es[0] == Work(line) && es[1..][0] == Deliver && es[1..][1..] == rest;
    var t := Step(s, es[0]);
    assert t.worker.outbox == [line];
    u := Step(t, Deliver);
    forall lines ensures u.delivered + AnswerIds(lines) == s.delivered + AnswerIds([line] + lines) {
      assert ([line] + lines)[1..] == lines;
    }
  }

  /** The select loop runs the system, and what it forwards is what the run delivers. */
  lemma {:induction false} ProxyLoopIsRun(s: System, ready: seq<Ready>)
    requires s.worker.outbox == [] && Enables(s, LoopEvents(ready))
    ensures Run(s, LoopEvents(ready)).proxy == Proxied(s.proxy, ready).0
    ensures Run(s, LoopEvents(ready)).delivered == s.delivered + AnswerIds(Proxied(s.proxy, ready).1)
    ensures Run(s, LoopEvents(ready)).worker.outbox == []
    decreases ready
  {
    var es := LoopEvents(ready);
    if ready != [] {
      match ready[0]
      case FromClient(line, written) =>
        var t := Step(s, es[0]);
        if written {
          assert es[1..] == LoopEvents(ready[1..]);
          ProxyLoopIsRun(t, ready[1..]);
        }
      case FromWorker(line) =>
        var u := OneLine(s, line, LoopEvents(ready[1..]));
        ProxyLoopIsRun(u, ready[1..]);
        hide Run, Enables;
      case WorkerGone =>
      case ReloadSignal =>
    }
  }

  /** So does the drain loop, and so is what it forwards. */
  lemma {:induction false} DrainIsRun(s: System, arrivals: seq<Read>)
    requires s.worker.outbox == [] && Enables(s, DrainEvents(s.proxy, arrivals))
    ensures Run(s, DrainEvents(s.proxy, arrivals)).proxy == Drained(s.proxy, arrivals).0
    ensures Run(s, DrainEvents(s.proxy, arrivals)).delivered == s.delivered + AnswerIds(Drained(s.proxy, arrivals).1)
    ensures Run(s, DrainEvents(s.proxy, arrivals)).worker.outbox == []
    decreases arrivals
  {
    if arrivals != [] && arrivals[0].Got? {
      var line := arrivals[0].line;
      var s' := TrackResponse(s.proxy, line);
      var rest := if s'.pending == [] then [] else DrainEvents(s', arrivals[1..]);
      var u := OneLine(s, line, rest);
      if s'.pending != [] {
        DrainIsRun(u, arrivals[1..]);
        hide Run, Enables;
      } else {
        assert Run(u, []) == u && AnswerIds([]) == [];
        assert [line] + [] == [line];
      }
    }
  }

  // ----- Nothing is lost for good -----

  /** A worker that has all pending requests, has answered none of them, and keeps no one waiting. */
  ghost predicate Fresh(s: System) {
    && s.worker.outbox == []
    && forall i :: 0 <= i < |s.proxy.pending| ==>
         s.proxy.pending[i].id in s.worker.received && s.proxy.pending[i].id !in s.worker.answered
  }

  function Answer(id: string): Line { Line("", Some(Message("", Some(id)))) }

  /** Answering and reading the pending requests one by one. */
  function Serve(reqs: seq<Request>): seq<Event> {
    if reqs == [] then [] else [Work(Answer(reqs[0].id)), Deliver] + Serve(reqs[1..])
  }

  lemma {:induction false} ServeEmpties(s: System)
    requires Inv(s) && Fresh(s)
    ensures Enables(s, Serve(s.proxy.pending))
    ensures Run(s, Serve(s.proxy.pending)).proxy.pending == []
    ensures Run(s, Serve(s.proxy.pending)).tracked == s.tracked
    decreases |s.proxy.pending|
  {
    var reqs := s.proxy.pending;
    if reqs != [] {
      var line := Answer(reqs[0].id);
      var es := Serve(reqs);
      var t := Step(s, Work(line));
      StepKeepsInv(s, Work(line));
      var u := Step(t, Deliver);
      StepKeepsInv(t, Deliver);
      assert t.worker.outbox == [line];
      assert u.proxy.pending == reqs[1..];
      PendingDistinct(s);
      assert Fresh(u);
      ServeEmpties(u);
      assert es[0] == Work(line) && es[1..][0] == Deliver && es[1..][1..] == Serve(reqs[1..]);
    }
  }

  lemma PendingDistinct(s: System)
    requires Inv(s)
    ensures Distinct(s.proxy.pending)
  {
    UnansweredDistinct(s.tracked, s.delivered);
  }

  lemma {:induction false} UnansweredDistinct(reqs: seq<Request>, delivered: seq<string>)
    requires Distinct(reqs)
    ensures Distinct(Unanswered(reqs, delivered))
  {
    if reqs != [] {
      var init, last := reqs[..|reqs| - 1], reqs[|reqs| - 1];
      UnansweredDistinct(init, delivered);
      UnansweredIds(init, delivered, last.id);
      assert !Holds(init, last.id);
    }
  }

  /** From any reachable state, a respawn and a worker that answers leave every tracked request answered. */
  lemma EveryRequestCanStillBeAnswered(es: seq<Event>)
    requires Enables(START, es)
    ensures var s := Run(START, es);
            var rest := [Respawn(|s.proxy.pending|)] + Serve(s.proxy.pending);
            && Enables(s, rest)
            && Run(s, rest).tracked == s.tracked
            && forall id :: Holds(s.tracked, id) ==> id in Run(s, rest).delivered
  {
    var s := Run(START, es);
    var rest := [Respawn(|s.proxy.pending|)] + Serve(s.proxy.pending);
    RunKeepsInv(START, es);
    var t := Step(s, rest[0]);
    StepKeepsInv(s, rest[0]);
    forall i | 0 <= i < |s.proxy.pending| ensures s.proxy.pending[i].id in t.worker.received {
      assert t.worker.received[i] == s.proxy.pending[i].id;
    }
    ServeEmpties(t);
    assert rest[1..] == Serve(s.proxy.pending);
    var u := Run(t, rest[1..]);
    RunKeepsInv(t, rest[1..]);
    forall id | Holds(s.tracked, id) ensures id in u.delivered {
      UnansweredIds(u.tracked, u.delivered, id);
    }
  }
}
