/**
 The client's chunked upload: one start, then every slice in order, stopping at
 the first that is not acknowledged.
 */
module Uploader {
  import opened Basics
  import opened Chunks
  import opened Transfers
  import opened TransferRuns
  import opened UploadRuns
  import opened TransferLaws

  const CHUNK_SIZE: nat := 256 * 1024

  datatype Outcome = Uploaded | ServerError(error: Error) | TransportError | Rejected(index: nat)

  /** One request on its way: whether and as what it arrives, how the disk does, and whether the answer comes back. */
  datatype Exchange = Exchange(reaches: bool, arrived: Bytes, io: Io, at: nat, answered: bool)

  /** What follows the last slash. */
  function LastSegment(path: string): string {
    if path == "" || path[|path| - 1] == '/' then ""
    else LastSegment(path[..|path| - 1]) + [path[|path| - 1]]
  }

  /** The name sent is what follows the last slash, and the whole path where there is none. */
  lemma {:induction false} LastSegmentIsName(path: string)
    ensures var at := |path| - |LastSegment(path)|;
            && at >= 0 && path == path[..at] + LastSegment(path)
            && '/' !in LastSegment(path) && (at > 0 ==> path[at - 1] == '/')
  {
    if path != "" && path[|path| - 1] != '/' {
      LastSegmentIsName(path[..|path| - 1]);
    }
  }

  /** Damage on the way shows in the hash; and nobody else starts under `id` or sends what is no slice. */
  ghost predicate Honest(c: Config, data: Bytes, id: string, net: nat -> Exchange, others: nat -> seq<Event>) {
    && (forall i: nat :: c.hash(net(i).arrived) == c.hash(Slice(data, CHUNK_SIZE, i)) ==>
                           net(i).arrived == Slice(data, CHUNK_SIZE, i))
    && forall i: nat :: Client(c, others(i), id, data, CHUNK_SIZE)
  }

  /** The chunk count fits 32 bits, nobody else asks for anything, and every slice arrives, is stored and answered. */
  ghost predicate Undisturbed(data: Bytes, net: nat -> Exchange, others: nat -> seq<Event>) {
    && DivCeil(|data|, CHUNK_SIZE) < U32
    && forall i: nat :: i < DivCeil(|data|, CHUNK_SIZE) ==>
         && others(i) == [] && net(i).reaches && net(i).answered
         && net(i).arrived == Slice(data, CHUNK_SIZE, i) && Works(net(i).io, net(i).arrived)
  }

  /** The whole path is sent as the directory, and its last segment as the file name. */
  function Request(c: Config, path: string, data: Bytes): UploadRequest {
    UploadRequest(path, LastSegment(path), |data|, c.hash(data), CHUNK_SIZE, DivCeil(|data|, CHUNK_SIZE) % U32)
  }

  lemma RequestAnnounces(c: Config, path: string, data: Bytes)
    ensures var r := Request(c, path, data);
            && r.fileSize == |data| && r.fileHash == c.hash(data) && UploadChunkSize(r.chunkSize) == 262144
  {
    hide LastSegment, DivCeil;
  }

  lemma EmptyIsRefused(c: Config, s: State, path: string, id: string, env: UploadEnv, now: nat)
    ensures InitUpload(c, s, Request(c, path, []), id, env, now).1.Err?
  {
  }

  /** Client and server count the chunks alike, 32-bit cut included, exactly for files that are not empty. */
  lemma CountsAgree(c: Config, path: string, data: Bytes)
    ensures var r := Request(c, path, data);
            r.totalChunks == ComputeChunks(r.fileSize, UploadChunkSize(r.chunkSize)) <==> data != []
  {
    hide LastSegment;
  }

  /** What an acknowledged slice leaves: one more chunk done, and after the last the file in place. */
  lemma SliceAcknowledged(c: Config, s: State, e: Event, temp: Path, f: Bytes)
    requires |f| > 0 && e.Receive? && SendsSlices(c, e, e.id, f, CHUNK_SIZE)
    requires e.id in s.transfers && OwnTemp(e.id, s.transfers[e.id]) && !CompleteUpload(s, e.id)
    requires Assembling(c, s, e.id, temp, f, CHUNK_SIZE) && Reply(c, s, e) == Ok(true)
    ensures var s' := Step(c, s, e);
            && e.id in s'.transfers && Assembling(c, s', e.id, temp, f, CHUNK_SIZE)
            && var t, t' := s.transfers[e.id], s'.transfers[e.id];
               && e.index < t.totalChunks && t'.done == t.done[e.index := true] && Evolves(t, t')
               && (AllDone(t'.done) ==> t'.phase.Complete? && Lookup(s'.files, t'.path) == Some(f))
               && (!AllDone(t'.done) ==> t'.phase == t.phase)
  {
    ReceiveEvolves(c, s, e.id, e.index, e.chunkHash, e.data, e.now, e.io);
    OwnChunkAssembles(c, s, e, temp, f, CHUNK_SIZE);
    ReceiveAcks(c, s, e);
    var s' := Step(c, s, e);
    assert e.index < s.transfers[e.id].totalChunks;
    if AllDone(s'.transfers[e.id].done) {
      OneStepCompletes(c, s, e);
    }
    hide Step, ReceiveChunk, Assembling;
  }

  lemma OneStepCompletes(c: Config, s: State, e: Event)
    requires e.Receive? && e.id in s.transfers && OwnTemp(e.id, s.transfers[e.id])
    requires !CompleteUpload(s, e.id) && CompleteUpload(Step(c, s, e), e.id)
    ensures Published(c, s, e).Some?
    ensures Lookup(Step(c, s, e).files, Step(c, s, e).transfers[e.id].path) == Some(Published(c, s, e).value.content)
  {
    hide WriteAt, RetryLimit;
  }

  /** After `i` acknowledged slices with nothing between them. */
  ghost predicate Progress(c: Config, s: State, id: string, path: string, data: Bytes, i: nat) {
    var n, temp := DivCeil(|data|, CHUNK_SIZE), TempPath(path, id);
    && id in s.transfers && OwnTemp(id, s.transfers[id])
    && var t := s.transfers[id];
    && t.path == Path(path, LastSegment(path)) && i <= n == t.totalChunks
    && Assembling(c, s, id, temp, data, CHUNK_SIZE)
    && (forall j :: 0 <= j < |t.done| ==> (t.done[j] <==> j < i))
    && (i < n ==> t.phase.Transferring?)
    && (i == n ==> t.phase.Complete? && Lookup(s.files, t.path) == Some(data))
  }

  lemma StartMakesProgress(c: Config, s: State, id: string, path: string, data: Bytes, env: UploadEnv, now: nat)
    requires data != [] && DivCeil(|data|, CHUNK_SIZE) < U32
    requires InitUpload(c, s, Request(c, path, data), id, env, now).1.Ok?
    ensures Progress(c, InitUpload(c, s, Request(c, path, data), id, env, now).0, id, path, data, 0)
  {
    LastChunk(|data|, CHUNK_SIZE);
    StartAssembles(c, s, StartUpload(id, Request(c, path, data), env, now), data);
    hide DivCeil, Agrees, Zeros;
  }

  lemma SliceMakesProgress(c: Config, s: State, e: Event, path: string, data: Bytes)
    requires data != [] && e.Receive? && SendsSlices(c, e, e.id, data, CHUNK_SIZE)
    requires e.index < DivCeil(|data|, CHUNK_SIZE) && Progress(c, s, e.id, path, data, e.index)
    requires c.hash(e.data) == e.chunkHash && Works(e.io, e.data)
    ensures Reply(c, s, e) == Ok(true)
    ensures Progress(c, Step(c, s, e), e.id, path, data, e.index + 1)
  {
    OwnChunkAssembles(c, s, e, TempPath(path, e.id), data, CHUNK_SIZE);
    SliceAcknowledged(c, s, e, TempPath(path, e.id), data);
    var t' := Step(c, s, e).transfers[e.id];
    assert e.index + 1 < |t'.done| ==> !t'.done[e.index + 1];
    hide Step, Reply, ReceiveChunk, Assembling, DivCeil;
  }

  /** The last content at a path where only `content` is published. */
  lemma {:induction false} LastIsOnly(pubs: seq<Publication>, p: Path, before: Option<Bytes>, content: Bytes)
    requires forall pub :: pub in pubs && pub.path == p ==> pub.content == content
    ensures (before == Some(content) || exists pub :: pub in pubs && pub.path == p) ==>
              LastAt(pubs, p, before) == Some(content)
  {
    if pubs != [] {
      LastIsOnly(pubs[1..], p, if pubs[0].path == p then Some(pubs[0].content) else before, content);
    }
  }

  /** With all slices acknowledged, among whatever else, the file was put in place. */
  lemma AllAcknowledged(
      c: Config, s: State, id: string, path: string, data: Bytes, env: UploadEnv, now: nat, es: seq<Event>)
    requires data != [] && WellFormed(s) && Client(c, es, id, data, CHUNK_SIZE)
    requires InitUpload(c, s, Request(c, path, data), id, env, now).1.Ok?
    requires var s1 := InitUpload(c, s, Request(c, path, data), id, env, now).0;
             forall j :: 0 <= j < DivCeil(|data|, CHUNK_SIZE) ==> j in Delivered(c, s1, es, id)
    ensures var s1 := InitUpload(c, s, Request(c, path, data), id, env, now).0;
            InPlace(c, s1, es, id, path, data)
  {
    var start := StartUpload(id, Request(c, path, data), env, now);
    var s1, final := Step(c, s, start), Path(path, LastSegment(path));
    StepKeepsWellFormed(c, s, start);
    AllOfThemFit(c, s, id, path, data, env, now, es);
    StartAnnounces(c, s, start, path, data);
    hide DivCeil, LastSegment, Step, InitUpload, WellFormed, Announces, AcceptsUpload, Client, NeverStarts;
    if NoneElseAt(Publications(c, s1, es), id, TempPath(path, id)) {
      UploadDeliversFile(c, s, start, es, data);
      PublishedIsThere(c, s1, es, id, final, data);
    }
  }

  lemma StartAnnounces(c: Config, s: State, start: Event, path: string, data: Bytes)
    requires data != [] && DivCeil(|data|, CHUNK_SIZE) < U32
    requires start.StartUpload? && start.req == Request(c, path, data)
    requires InitUpload(c, s, start.req, start.id, start.uploadEnv, start.now).1.Ok?
    ensures Announces(c, start, data) && AcceptsUpload(c, s, start)
    ensures Step(c, s, start) == InitUpload(c, s, start.req, start.id, start.uploadEnv, start.now).0
    ensures start.req.totalChunks == DivCeil(|data|, CHUNK_SIZE) && UploadChunkSize(start.req.chunkSize) == CHUNK_SIZE
  {
    hide InitUpload, DivCeil;
  }

  lemma PublishedIsThere(c: Config, s1: State, es: seq<Event>, id: string, final: Path, data: Bytes)
    requires WellFormed(s1)
    requires PublishesOnly(Publications(c, s1, es), id, data) && Publication(id, final, data) in Publications(c, s1, es)
    ensures NoneElseAt(Publications(c, s1, es), id, final) && NoTempAt(s1, final) && AllTempsElsewhere(es, final) ==>
              Lookup(Run(c, s1, es).files, final) == Some(data)
  {
    if NoneElseAt(Publications(c, s1, es), id, final) && NoTempAt(s1, final) && AllTempsElsewhere(es, final) {
      FinalPathsChangeOnlyByPublication(c, s1, es, final);
      var pubs := Publications(c, s1, es);
      hide Publications, Run, WellFormed;
      LastIsOnly(pubs, final, Lookup(s1.files, final), data);
    }
  }

  /** If every slice was acknowledged, their count was not cut. */
  lemma AllOfThemFit(
      c: Config, s: State, id: string, path: string, data: Bytes, env: UploadEnv, now: nat, es: seq<Event>)
    requires data != [] && WellFormed(s) && NeverStarts(es, id)
    requires InitUpload(c, s, Request(c, path, data), id, env, now).1.Ok?
    requires var s1 := InitUpload(c, s, Request(c, path, data), id, env, now).0;
             forall j :: 0 <= j < DivCeil(|data|, CHUNK_SIZE) ==> j in Delivered(c, s1, es, id)
    ensures DivCeil(|data|, CHUNK_SIZE) < U32
  {
    var start, n := StartUpload(id, Request(c, path, data), env, now), DivCeil(|data|, CHUNK_SIZE);
    var s1 := Step(c, s, start);
    StepKeepsWellFormed(c, s, start);
    LastChunk(|data|, CHUNK_SIZE);
    assert id in s1.transfers && s1.transfers[id].totalChunks == n % U32;
    hide Step, DivCeil, InitUpload;
    DeliveredInRange(c, s1, es, id);
    assert n - 1 in Delivered(c, s1, es, id);
    CountFits(n);
  }

  /** If no other upload ended at the temp file, the file was published; if none did at its path, it is there. */
  ghost predicate InPlace(c: Config, s1: State, es: seq<Event>, id: string, path: string, data: Bytes) {
    var pubs, final := Publications(c, s1, es), Path(path, LastSegment(path));
    NoneElseAt(pubs, id, TempPath(path, id)) ==>
      && Publication(id, final, data) in pubs
      && (NoneElseAt(pubs, id, final) && NoTempAt(s1, final) && AllTempsElsewhere(es, final) ==>
            Lookup(Run(c, s1, es).files, final) == Some(data))
  }

  // ----- The conversation -----

  /** The i-th slice as it arrives. */
  function OwnChunk(c: Config, id: string, data: Bytes, net: nat -> Exchange, i: nat): Event {
    Receive(id, i, c.hash(Slice(data, CHUNK_SIZE, i)), net(i).arrived, net(i).at, net(i).io)
  }

  /** What the server handles while the client sends the first `k` slices. */
  function Handled(
      c: Config, id: string, data: Bytes, net: nat -> Exchange, others: nat -> seq<Event>, k: nat): seq<Event>
  {
    if k == 0 then []
    else Handled(c, id, data, net, others, k - 1) + others(k - 1) + [OwnChunk(c, id, data, net, k - 1)]
  }

  /** What the server answers to the i-th slice. */
  function AnswerTo(
      c: Config, s1: State, id: string, data: Bytes, net: nat -> Exchange, others: nat -> seq<Event>, i: nat)
    : Result<bool>
  {
    Reply(c, Run(c, s1, Handled(c, id, data, net, others, i) + others(i)), OwnChunk(c, id, data, net, i))
  }

  /** The first `k` slices arrive, and their acknowledgements come back. */
  predicate Acknowledged(
      c: Config, s1: State, id: string, data: Bytes, net: nat -> Exchange, others: nat -> seq<Event>, k: nat)
  {
    forall i :: 0 <= i < k ==>
      net(i).reaches && net(i).answered && AnswerTo(c, s1, id, data, net, others, i) == Ok(true)
  }

  /** After `k` acknowledged slices the client is through, or its next one is lost, refused or rejected. */
  predicate StopsAt(
      c: Config, s1: State, id: string, data: Bytes, net: nat -> Exchange, others: nat -> seq<Event>, k: nat,
      r: Outcome, es: seq<Event>)
  {
    var sent := Handled(c, id, data, net, others, k);
    if k == DivCeil(|data|, CHUNK_SIZE) then r == Uploaded && es == sent
    else if !net(k).reaches then r == TransportError && es == sent + others(k)
    else
      && es == sent + others(k) + [OwnChunk(c, id, data, net, k)]
      && var answer := AnswerTo(c, s1, id, data, net, others, k);
         if !net(k).answered then r == TransportError
         else if answer.Err? then r == ServerError(answer.error)
         else r == Rejected(k) && answer == Ok(false)
  }

  ghost predicate Conversation(
      c: Config, s1: State, id: string, data: Bytes, net: nat -> Exchange, others: nat -> seq<Event>,
      r: Outcome, es: seq<Event>)
  {
    exists k: nat :: k <= DivCeil(|data|, CHUNK_SIZE)
      && Acknowledged(c, s1, id, data, net, others, k) && StopsAt(c, s1, id, data, net, others, k, r, es)
  }

  /** A slice damaged on the way to a transfer that takes it is answered as rejected, an unharmed one never is. */
  lemma DamageIsRejected(c: Config, s: State, id: string, data: Bytes, net: nat -> Exchange, i: nat)
    requires c.hash(net(i).arrived) == c.hash(Slice(data, CHUNK_SIZE, i)) ==>
               net(i).arrived == Slice(data, CHUNK_SIZE, i)
    ensures Reply(c, s, OwnChunk(c, id, data, net, i)) == Ok(false) <==>
              TakesChunk(s, id, i) && net(i).arrived != Slice(data, CHUNK_SIZE, i)
  {
    hide Slice, WriteAt;
  }

  /**
   The requests of others, `others(i)` before the i-th chunk, may be anything honest, and any request or answer
   may get lost: what was sent and how it ended is a `Conversation`. A success means that the file was put in
   place; a rejected chunk was damaged on the way; an empty file never succeeds, since client and server count its
   chunks differently; and an accepted, undisturbed upload succeeds. `es` is all that the server handled after the
   start that led to `s1`.
   */
  method FileWriteChunked(
      m: TransferManager, path: string, data: Bytes, id: string, env: UploadEnv, hello: Exchange,
      net: nat -> Exchange, others: nat -> seq<Event>) returns (r: Outcome, ghost s1: State, ghost es: seq<Event>)
    requires WellFormed(m.View()) && Honest(m.config, data, id, net, others)
    modifies m
    ensures Client(m.config, es, id, data, CHUNK_SIZE) && m.View() == Run(m.config, s1, es)
    ensures var start := InitUpload(m.config, old(m.View()), Request(m.config, path, data), id, env, hello.at);
            if !hello.reaches then r == TransportError && es == [] && s1 == old(m.View())
            else if !hello.answered then r == TransportError && es == [] && s1 == start.0
            else if start.1.Err? then r == ServerError(start.1.error) && es == [] && s1 == start.0
            else s1 == start.0 && Conversation(m.config, s1, id, data, net, others, r, es)
    ensures r.Uploaded? ==> InPlace(m.config, s1, es, id, path, data)
    ensures r.Rejected? ==> net(r.index).arrived != Slice(data, CHUNK_SIZE, r.index)
    ensures data == [] ==> r.ServerError? || r.TransportError?
    ensures && InitUpload(m.config, old(m.View()), Request(m.config, path, data), id, env, hello.at).1.Ok?
            && hello.reaches && hello.answered && Undisturbed(data, net, others)
            ==> r.Uploaded? && Lookup(m.files, Path(path, LastSegment(path))) == Some(data)
  {
    hide ReceiveChunk, InitUpload, Slice, LastSegment, OwnTemp, Works, DivCeil, InPlace, Progress, Step, Delivered;
    hide WellFormed, Client, Run, Publications, Conversation, Acknowledged, AnswerTo, Handled;
    ghost var c, was := m.config, m.View();
    s1, es := m.View(), [];
    NothingSent(c, id, data);
    if data == [] { EmptyIsRefused(c, was, path, id, env, hello.at); }
    if !hello.reaches { return TransportError, s1, es; }
    var start := m.InitiateUpload(Request(m.config, path, data), id, env, hello.at);
    s1 := m.View();
    if !hello.answered { return TransportError, s1, es; }
    if start.Err? { return ServerError(start.error), s1, es; }
    if Undisturbed(data, net, others) { StartMakesProgress(c, was, id, path, data, env, hello.at); }

    var n := DivCeil(|data|, CHUNK_SIZE);
    var i := 0;
    NothingHandled(c, s1, id, data, net, others);
    while i < n
      invariant i <= n
      invariant m.View() == Run(c, s1, es) && Client(c, es, id, data, CHUNK_SIZE)
      invariant es == Handled(c, id, data, net, others, i) && Acknowledged(c, s1, id, data, net, others, i)
      invariant forall j :: 0 <= j < i ==> j in Delivered(c, s1, es, id)
      invariant Undisturbed(data, net, others) ==> Progress(c, m.View(), id, path, data, i)
    {
      HandleAll(m, others(i));
      Longer(c, s1, es, others(i), id, data);
      es := es + others(i);
      ghost var e := OwnChunk(c, id, data, net, i);
      ghost var before := m.View();
      SliceHandled(c, s1, id, data, net, others, i, es, Reply(c, before, e));
      if !net(i).reaches { return TransportError, s1, es; }

      var chunkHash := m.config.hash(Slice(data, CHUNK_SIZE, i));
      var ack := m.Receive(id, i, chunkHash, net(i).arrived, net(i).at, net(i).io);
      ReceiveIsStep(c, before, e);
      OneMore(c, s1, es, e, data);
      es := es + [e];
      if Undisturbed(data, net, others) { SliceMakesProgress(c, before, e, path, data); }
      if !net(i).answered { return TransportError, s1, es; }
      if ack.Err? { return ServerError(ack.error), s1, es; }
      if !ack.value {
        AckedUnlessDamaged(c, before, e);
        return Rejected(i), s1, es;
      }
      i := i + 1;
    }
    Stopped(c, s1, id, data, net, others, n, Uploaded, es);
    AllAcknowledged(c, was, id, path, data, env, hello.at, es);
    if Undisturbed(data, net, others) { Landed(c, m.View(), id, path, data); }
    return Uploaded, s1, es;
  }

  lemma Landed(c: Config, s: State, id: string, path: string, data: Bytes)
    requires Progress(c, s, id, path, data, DivCeil(|data|, CHUNK_SIZE))
    ensures Lookup(s.files, Path(path, LastSegment(path))) == Some(data)
  {
  }

  lemma Stopped(
      c: Config, s1: State, id: string, data: Bytes, net: nat -> Exchange, others: nat -> seq<Event>, k: nat,
      r: Outcome, es: seq<Event>)
    requires k <= DivCeil(|data|, CHUNK_SIZE) && Acknowledged(c, s1, id, data, net, others, k)
    requires StopsAt(c, s1, id, data, net, others, k, r, es)
    ensures Conversation(c, s1, id, data, net, others, r, es)
  {
    hide Acknowledged, StopsAt;
  }

  lemma NothingHandled(
      c: Config, s1: State, id: string, data: Bytes, net: nat -> Exchange, others: nat -> seq<Event>)
    ensures Handled(c, id, data, net, others, 0) == [] && Acknowledged(c, s1, id, data, net, others, 0)
  {
  }

  /** Where the client goes on and where it stops, once others had their turn. */
  lemma SliceHandled(
      c: Config, s1: State, id: string, data: Bytes, net: nat -> Exchange, others: nat -> seq<Event>, k: nat,
      es: seq<Event>, ack: Result<bool>)
    requires k < DivCeil(|data|, CHUNK_SIZE) && Acknowledged(c, s1, id, data, net, others, k)
    requires es == Handled(c, id, data, net, others, k) + others(k)
    requires ack == Reply(c, Run(c, s1, es), OwnChunk(c, id, data, net, k))
    ensures !net(k).reaches ==> Conversation(c, s1, id, data, net, others, TransportError, es)
    ensures var es' := es + [OwnChunk(c, id, data, net, k)];
            && es' == Handled(c, id, data, net, others, k + 1)
            && (net(k).reaches && !net(k).answered ==>
                  Conversation(c, s1, id, data, net, others, TransportError, es'))
            && (net(k).reaches && net(k).answered ==>
                  && (ack.Err? ==> Conversation(c, s1, id, data, net, others, ServerError(ack.error), es'))
                  && (ack == Ok(false) ==> Conversation(c, s1, id, data, net, others, Rejected(k), es'))
                  && (ack == Ok(true) ==> Acknowledged(c, s1, id, data, net, others, k + 1)))
  {
    hide Reply, Run, OwnChunk, Conversation, DivCeil;
    var es' := es + [OwnChunk(c, id, data, net, k)];
    assert ack == AnswerTo(c, s1, id, data, net, others, k);
    if !net(k).reaches {
      Stopped(c, s1, id, data, net, others, k, TransportError, es);
    } else if !net(k).answered {
      Stopped(c, s1, id, data, net, others, k, TransportError, es');
    } else if ack.Err? {
      Stopped(c, s1, id, data, net, others, k, ServerError(ack.error), es');
    } else if !ack.value {
      Stopped(c, s1, id, data, net, others, k, Rejected(k), es');
    }
  }

  lemma NothingSent(c: Config, id: string, data: Bytes)
    ensures Client(c, [], id, data, CHUNK_SIZE)
    ensures forall s :: Run(c, s, []) == s
  {
  }

  lemma ReceiveIsStep(c: Config, s: State, e: Event)
    requires e.Receive?
    ensures Step(c, s, e) == ReceiveChunk(c, s, e.id, e.index, e.chunkHash, e.data, e.now, e.io).0
  {
    hide ReceiveChunk;
  }

  /** Handling more keeps what was acknowledged. */
  lemma Longer(c: Config, s1: State, es: seq<Event>, more: seq<Event>, id: string, data: Bytes)
    requires Client(c, es, id, data, CHUNK_SIZE) && Client(c, more, id, data, CHUNK_SIZE)
    ensures Client(c, es + more, id, data, CHUNK_SIZE)
    ensures Run(c, s1, es + more) == Run(c, Run(c, s1, es), more)
    ensures Delivered(c, s1, es, id) <= Delivered(c, s1, es + more, id)
    ensures more == [] ==> Run(c, s1, es + more) == Run(c, s1, es)
  {
    RunOfJoin(c, s1, es, more);
    DeliveredOfJoin(c, s1, es, more, id);
    hide Run, Delivered, SendsSlices, Starts;
    assert more == [] ==> es + more == es;
  }

  /** An own chunk more, acknowledged or not. */
  lemma OneMore(c: Config, s1: State, es: seq<Event>, e: Event, data: Bytes)
    requires e.Receive? && SendsSlices(c, e, e.id, data, CHUNK_SIZE) && Client(c, es, e.id, data, CHUNK_SIZE)
    ensures Client(c, es + [e], e.id, data, CHUNK_SIZE)
    ensures Run(c, s1, es + [e]) == Step(c, Run(c, s1, es), e)
    ensures Delivered(c, s1, es, e.id) <= Delivered(c, s1, es + [e], e.id)
    ensures Reply(c, Run(c, s1, es), e) == Ok(true) ==> e.index in Delivered(c, s1, es + [e], e.id)
  {
    RunOfJoin(c, s1, es, [e]);
    DeliveredOfJoin(c, s1, es, [e], e.id);
    JustOne(c, Run(c, s1, es), e);
    hide Step, ReceiveChunk, SendsSlices, Run, Delivered;
  }

  lemma JustOne(c: Config, s: State, e: Event)
    requires e.Receive?
    ensures Run(c, s, [e]) == Step(c, s, e)
    ensures Reply(c, s, e) == Ok(true) ==> e.index in Delivered(c, s, [e], e.id)
  {
    hide Step, ReceiveChunk;
    assert [e][1..] == [];
  }

  lemma CountFits(n: nat)
    requires n <= n % U32
    ensures n < U32
  {
  }

  lemma AckedUnlessDamaged(c: Config, s: State, e: Event)
    requires e.Receive? && Reply(c, s, e) == Ok(false)
    ensures c.hash(e.data) != e.chunkHash
  {
  }
}
