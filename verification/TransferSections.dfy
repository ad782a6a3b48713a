/**
 The transfer manager under interleaving: the table is locked only for single
 sections of a handler, so sections of many requests may alternate freely.
 */
module TransferSections {
  import opened Basics
  import opened Chunks
  import opened Transfers

  /** A request between two of its locked sections. */
  datatype Job =
    | Receiving(id: string, index: nat, len: nat, expected: string)
    | Serving(id: string, index: nat, len: nat)
    | Finalizing(id: string, expected: string)

  /** `used` holds every transfer id ever given out. */
  datatype Table = Table(transfers: map<string, Transfer>, jobs: map<nat, Job>, used: set<string>)

  datatype Section =
    | Insert(id: string, t: Transfer)
    | CheckReceive(job: nat, id: string, index: nat, len: nat)
    | RejectChunk(job: nat, now: nat)
    | StoreChunk(job: nat, now: nat)
    | CheckServe(job: nat, id: string, index: nat)
    | CountServed(job: nat, now: nat)
    | AdoptHash(job: nat, hash: string)
    | FailFinal(job: nat)
    | CompleteFinal(job: nat)
    | GiveUp(job: nat)
    | ResumeSection(id: string, now: nat)
    | AbortSection(id: string)
    | PauseSection
    | SweepSection(now: nat, timeout: nat)

  function At(m: Table, id: string, t: Transfer): Table { m.(transfers := m.transfers[id := t]) }

  function Without(m: Table, job: nat): Table { m.(jobs := m.jobs - {job}) }

  /** A section whose request is not at that point does nothing. The later sections do not look at the phase again. */
  function Next(m: Table, e: Section): Table {
    match e
    case Insert(id, t) =>
      if id in m.used then m else At(m, id, t).(used := m.used + {id})
    case CheckReceive(job, id, index, len) =>
      if job in m.jobs || !Receivable(State(m.transfers, map[]), id, index) then m
      else m.(jobs := m.jobs[job := Receiving(id, index, len, m.transfers[id].fileHash)])
    case RejectChunk(job, now) =>
      if job !in m.jobs || !m.jobs[job].Receiving? then m else
        var id := m.jobs[job].id;
        Without(if id in m.transfers then At(m, id, NoteBadHash(m.transfers[id], now)) else m, job)
    case StoreChunk(job, now) =>
      if job !in m.jobs || !m.jobs[job].Receiving? then m else
        var j := m.jobs[job];
        if j.id !in m.transfers then Without(m, job) else
          var t := MarkReceived(m.transfers[j.id], j.index, j.len, now);
          if AllDone(t.done) then At(m, j.id, t).(jobs := m.jobs[job := Finalizing(j.id, j.expected)])
          else Without(At(m, j.id, t), job)
    case CheckServe(job, id, index) =>
      if job in m.jobs || !Servable(State(m.transfers, map[]), id, index) then m
      else
        var t := m.transfers[id];
        m.(jobs := m.jobs[job := Serving(id, index, ChunkLen(t.fileSize, t.chunkSize, index))])
    case CountServed(job, now) =>
      if job !in m.jobs || !m.jobs[job].Serving? then m else
        var j := m.jobs[job];
        Without(if j.id in m.transfers then At(m, j.id, MarkServed(m.transfers[j.id], j.index, j.len, now)) else m, job)
    case AdoptHash(job, hash) =>
      if job !in m.jobs || !m.jobs[job].Finalizing? || m.jobs[job].expected != "" then m else
        var id := m.jobs[job].id;
        if id in m.transfers then At(m, id, m.transfers[id].(fileHash := hash)) else m
    case FailFinal(job) =>
      if job !in m.jobs || !m.jobs[job].Finalizing? then m else
        var id := m.jobs[job].id;
        Without(if id in m.transfers then At(m, id, m.transfers[id].(phase := Failed)) else m, job)
    case CompleteFinal(job) =>
      if job !in m.jobs || !m.jobs[job].Finalizing? then m else
        var id := m.jobs[job].id;
        Without(if id in m.transfers then At(m, id, m.transfers[id].(phase := Complete)) else m, job)
    case GiveUp(job) => Without(m, job)
    case ResumeSection(id, now) => m.(transfers := Resume(State(m.transfers, map[]), id, now).0.transfers)
    case AbortSection(id) => m.(transfers := Abort(State(m.transfers, map[]), id, {}).0.transfers)
    case PauseSection => m.(transfers := PauseAll(State(m.transfers, map[])).transfers)
    case SweepSection(now, timeout) => m.(transfers := m.transfers - StaleIds(State(m.transfers, map[]), now, timeout))
  }

  function Interleaved(m: Table, es: seq<Section>): Table
    decreases es
  {
    if es == [] then m else Interleaved(Next(m, es[0]), es[1..])
  }

  /** No chunk but this one is missing. */
  predicate OnlyMissing(done: seq<bool>, index: nat) {
    forall i :: 0 <= i < |done| && i != index ==> done[i]
  }

  lemma MarkingCompletes(done: seq<bool>, index: nat)
    requires index < |done|
    ensures AllDone(Marked(done, index)) <==> OnlyMissing(done, index)
  {
    var marked := Marked(done, index);
    assert forall i :: 0 <= i < |done| ==> (marked[i] <==> i == index || done[i]);
    if AllDone(marked) {
      forall i | 0 <= i < |done| && i != index ensures done[i] { assert marked[i]; }
    }
  }

  /** A request's later section counts in every phase, though others paused, aborted or completed the transfer. */
  lemma LateSectionCounts(m: Table, job: nat, now: nat)
    requires job in m.jobs && m.jobs[job].id in m.transfers
    ensures var j, t := m.jobs[job], m.transfers[m.jobs[job].id];
            && (j.Receiving? ==>
                  var errors := (t.errors + 1) % 0x1_0000_0000;
                  var failed := errors >= 3 * t.totalChunks % 0x1_0000_0000;
                  Next(m, RejectChunk(job, now)) == m.(jobs := m.jobs - {job}, transfers := m.transfers[j.id :=
                    t.(errors := errors, lastActivity := now, phase := if failed then Failed else t.phase)]))
            && (j.Receiving? && j.index < |t.done| ==>
                  var last := OnlyMissing(t.done, j.index);
                  Next(m, StoreChunk(job, now)) == m.(
                    jobs := if last then m.jobs[job := Finalizing(j.id, j.expected)] else m.jobs - {job},
                    transfers := m.transfers[j.id := t.(done := t.done[j.index := true], bytes := t.bytes + j.len,
                      lastActivity := now, phase := if last then Verifying else t.phase)]))
            && (j.Serving? && j.index < |t.done| ==>
                  Next(m, CountServed(job, now)) == m.(jobs := m.jobs - {job}, transfers := m.transfers[j.id :=
                    t.(done := t.done[j.index := true], bytes := t.bytes + j.len, lastActivity := now,
                       phase := if OnlyMissing(t.done, j.index) then Complete else t.phase)]))
  {
    var j, t := m.jobs[job], m.transfers[m.jobs[job].id];
    if (j.Receiving? || j.Serving?) && j.index < |t.done| { MarkingCompletes(t.done, j.index); }
    hide AllDone, OnlyMissing;
  }

  /** The sections that end an upload set its phase from any phase; if the transfer is gone the request just ends. */
  lemma LastSectionDecides(m: Table, job: nat, now: nat)
    requires job in m.jobs
    ensures var j := m.jobs[job];
            && (j.Finalizing? && j.id in m.transfers ==>
                  && Next(m, FailFinal(job)) == m.(jobs := m.jobs - {job},
                       transfers := m.transfers[j.id := m.transfers[j.id].(phase := Failed)])
                  && Next(m, CompleteFinal(job)) == m.(jobs := m.jobs - {job},
                       transfers := m.transfers[j.id := m.transfers[j.id].(phase := Complete)]))
            && (j.id !in m.transfers ==>
                  forall e :: e in {RejectChunk(job, now), StoreChunk(job, now), CountServed(job, now),
                                    FailFinal(job), CompleteFinal(job)} ==>
                    Next(m, e) == m || Next(m, e) == m.(jobs := m.jobs - {job}))
  {
  }

  // ----- What every interleaving keeps -----

  /** A running transfer has work left; a verified or complete one has none. */
  predicate PhaseFitsDone(t: Transfer) {
    && (Active(t.phase) ==> !AllDone(t.done))
    && (t.phase in {Verifying, Complete} ==> AllDone(t.done))
  }

  ghost predicate Inv(m: Table) {
    && (forall id :: id in m.transfers ==> id in m.used && PhaseFitsDone(m.transfers[id]))
    && (forall j :: j in m.jobs ==> m.jobs[j].id in m.used)
    && (forall j :: j in m.jobs && m.jobs[j].Finalizing? && m.jobs[j].id in m.transfers ==>
          AllDone(m.transfers[m.jobs[j].id].done))
  }

  /** Done chunks stay done, and a transfer that has stopped running does not run again. */
  predicate Grows(t: Transfer, t': Transfer) {
    && |t'.done| == |t.done| && (forall i :: 0 <= i < |t.done| && t.done[i] ==> t'.done[i])
    && (Active(t'.phase) ==> Active(t.phase))
  }

  /** A new transfer as both init handlers make it. */
  predicate New(t: Transfer) {
    t.phase.Transferring? && |t.done| == t.totalChunks && forall i :: 0 <= i < |t.done| ==> !t.done[i]
  }

  predicate InsertsNew(e: Section) { e.Insert? ==> New(e.t) && e.t.totalChunks > 0 }

  lemma NextGrows(m: Table, e: Section, id: string)
    requires Inv(m) && id in m.transfers
    ensures id in Next(m, e).transfers ==> Grows(m.transfers[id], Next(m, e).transfers[id])
  {
    hide RetryLimit, ChunkLen, AllDone;
  }

  lemma GrownStaysDone(t: Transfer, t': Transfer)
    requires Grows(t, t')
    ensures AllDone(t.done) ==> AllDone(t'.done)
  {
  }

  predicate OfJob(e: Section) {
    e.RejectChunk? || e.StoreChunk? || e.CountServed? || e.AdoptHash? || e.FailFinal? || e.CompleteFinal?
  }

  lemma JobSectionFits(m: Table, e: Section, id: string)
    requires Inv(m) && OfJob(e) && id in m.transfers
    ensures id in Next(m, e).transfers && PhaseFitsDone(Next(m, e).transfers[id])
  {
    NextGrows(m, e, id);
    GrownStaysDone(m.transfers[id], Next(m, e).transfers[id]);
    hide RetryLimit, AllDone, Marked, Grows;
  }

  lemma OtherSectionFits(m: Table, e: Section, id: string)
    requires Inv(m) && InsertsNew(e) && !OfJob(e) && id in Next(m, e).transfers
    ensures id in Next(m, e).used && PhaseFitsDone(Next(m, e).transfers[id])
  {
    if e.Insert? { assert !e.t.done[0]; }
    hide ChunkLen, AllDone, Receivable, Servable, Stale, DoneIndices;
  }

  lemma NextFits(m: Table, e: Section, id: string)
    requires Inv(m) && InsertsNew(e) && id in Next(m, e).transfers
    ensures id in Next(m, e).used && PhaseFitsDone(Next(m, e).transfers[id])
  {
    if OfJob(e) {
      if id in m.transfers { JobSectionFits(m, e, id); }
      NextKeepsUsed(m, e);
      hide PhaseFitsDone, AllDone, Marked;
    } else {
      OtherSectionFits(m, e, id);
    }
  }

  /** A job was there before, or has just been let in, or has just stored the last chunk. */
  lemma JobOrigin(m: Table, e: Section, j: nat)
    requires j in Next(m, e).jobs
    ensures var job, m' := Next(m, e).jobs[j], Next(m, e);
            || (j in m.jobs && m.jobs[j] == job)
            || (job.id in m.transfers && !job.Finalizing?)
            || (job.id in m.transfers && job.id in m'.transfers && AllDone(m'.transfers[job.id].done))
  {
    hide NoteBadHash, MarkReceived, MarkServed, ChunkLen, AllDone, Resume, Abort, PauseAll, StaleIds;
  }

  lemma NextJobFits(m: Table, e: Section, j: nat)
    requires Inv(m) && j in Next(m, e).jobs
    ensures var job, m' := Next(m, e).jobs[j], Next(m, e);
            && job.id in m'.used
            && (job.Finalizing? && job.id in m'.transfers ==> AllDone(m'.transfers[job.id].done))
  {
    var m' := Next(m, e);
    var id := m'.jobs[j].id;
    JobOrigin(m, e, j);
    NextKeepsUsed(m, e);
    if id in m.transfers && id in m'.transfers {
      NextGrows(m, e, id);
      GrownStaysDone(m.transfers[id], m'.transfers[id]);
    } else if id in m.used && id !in m.transfers {
      NextLeavesOut(m, e, id);
    }
    hide Next, AllDone, Grows;
  }

  lemma NextKeepsInv(m: Table, e: Section)
    requires Inv(m) && InsertsNew(e)
    ensures Inv(Next(m, e))
  {
    forall id | id in Next(m, e).transfers
      ensures id in Next(m, e).used && PhaseFitsDone(Next(m, e).transfers[id])
    {
      NextFits(m, e, id);
    }
    forall j | j in Next(m, e).jobs
      ensures Next(m, e).jobs[j].id in Next(m, e).used
      ensures Next(m, e).jobs[j].Finalizing? && Next(m, e).jobs[j].id in Next(m, e).transfers ==>
                AllDone(Next(m, e).transfers[Next(m, e).jobs[j].id].done)
    {
      NextJobFits(m, e, j);
    }
    hide Next, PhaseFitsDone, AllDone;
  }

  /** Under every interleaving a running transfer has a chunk to go, and a complete one has none. */
  lemma {:induction false} InterleavingsKeepInv(m: Table, es: seq<Section>)
    requires Inv(m) && forall i :: 0 <= i < |es| ==> InsertsNew(es[i])
    ensures Inv(Interleaved(m, es))
    decreases es
  {
    hide Next, Inv;
    if es != [] {
      NextKeepsInv(m, es[0]);
      InterleavingsKeepInv(Next(m, es[0]), es[1..]);
    }
  }

  /** An id that has left the table never comes back, whatever requests are still under way. */
  lemma NextLeavesOut(m: Table, e: Section, id: string)
    requires Inv(m) && id in m.used && id !in m.transfers
    ensures id in Next(m, e).used && id !in Next(m, e).transfers
  {
    hide RetryLimit, ChunkLen, AllDone, Marked, Stale;
  }

  lemma {:induction false} LeftForGood(m: Table, es: seq<Section>, id: string)
    requires Inv(m) && forall i :: 0 <= i < |es| ==> InsertsNew(es[i])
    requires id in m.used && id !in m.transfers
    ensures id !in Interleaved(m, es).transfers
    decreases es
  {
    hide Next, Inv;
    if es != [] {
      NextKeepsInv(m, es[0]);
      NextLeavesOut(m, es[0], id);
      LeftForGood(Next(m, es[0]), es[1..], id);
    }
  }

  /** Under every interleaving the done chunks only grow, and a transfer that stopped running never runs again. */
  lemma {:induction false} InterleavingsGrow(m: Table, es: seq<Section>, id: string)
    requires Inv(m) && id in m.transfers && forall i :: 0 <= i < |es| ==> InsertsNew(es[i])
    ensures id in Interleaved(m, es).transfers ==> Grows(m.transfers[id], Interleaved(m, es).transfers[id])
    decreases es
  {
    if es != [] {
      var m' := Next(m, es[0]);
      NextKeepsInv(m, es[0]);
      NextGrows(m, es[0], id);
      NextKeepsUsed(m, es[0]);
      hide Next;
      if id in m'.transfers { InterleavingsGrow(m', es[1..], id); } else { LeftForGood(m', es[1..], id); }
    }
  }

  lemma NextKeepsUsed(m: Table, e: Section)
    ensures m.used <= Next(m, e).used
  {
    hide RetryLimit, ChunkLen, AllDone, Marked, Stale;
  }

  // ----- When a new transfer has work left -----

  /** A new transfer fits its phase exactly when its chunk count was not cut to zero. */
  lemma NewFitsUnlessCutToZero(size: nat, cs: nat, t: Transfer)
    requires (size > 0 ==> cs > 0) && New(t) && t.totalChunks == ComputeChunks(size, cs)
    ensures PhaseFitsDone(t) <==> size == 0 || DivCeil(size, cs) % U32 != 0
  {
    if t.totalChunks > 0 { assert !t.done[0]; }
  }

  /** A file of `2^32` chunks is counted as having none. */
  lemma CutToZero(cs: nat)
    requires cs > 0
    ensures ComputeChunks(U32 * cs, cs) == 0
  {
    LastChunk(U32 * cs, cs);
    assert U32 * cs % cs == 0 && U32 * cs / cs == U32 by { MultipleDivides(U32, cs); }
  }

  lemma MultipleDivides(a: nat, b: nat)
    requires b > 0
    ensures a * b % b == 0 && a * b / b == a
  {
    ChunkOf(a * b, b, a);
  }

  // ----- How final Complete is -----

  predicate CompleteAt(m: Table, id: string) { id in m.transfers && m.transfers[id].phase.Complete? }

  /** No request of `id` is past its check and before its last section, but for requests to serve a chunk. */
  predicate OnlyServed(m: Table, id: string) {
    forall j :: j in m.jobs && m.jobs[j].id == id ==> m.jobs[j].Serving?
  }

  /** Sections that may follow: fresh inserts, and anything but an abort of `id`. */
  predicate Follows(e: Section, id: string) { InsertsNew(e) && e != AbortSection(id) }

  ghost predicate StaysComplete(m: Table, id: string) {
    forall es :: (forall i :: 0 <= i < |es| ==> Follows(es[i], id)) && id in Interleaved(m, es).transfers ==>
                   CompleteAt(Interleaved(m, es), id)
  }

  lemma NextStaysComplete(m: Table, e: Section, id: string)
    requires Inv(m) && CompleteAt(m, id) && OnlyServed(m, id) && Follows(e, id)
    ensures id in Next(m, e).transfers ==> CompleteAt(Next(m, e), id) && OnlyServed(Next(m, e), id)
  {
    if e.CountServed? && e.job in m.jobs && m.jobs[e.job].Serving? && m.jobs[e.job].id == id {
      NextGrows(m, e, id);
      assert AllDone(m.transfers[id].done);
      GrownStaysDone(m.transfers[id], MarkServed(m.transfers[id], m.jobs[e.job].index, m.jobs[e.job].len, e.now));
    }
    hide RetryLimit, ChunkLen, AllDone, Marked, Grows, Resume, PauseAll;
  }

  lemma {:induction false} CompleteStays(m: Table, es: seq<Section>, id: string)
    requires Inv(m) && CompleteAt(m, id) && OnlyServed(m, id)
    requires forall i :: 0 <= i < |es| ==> Follows(es[i], id)
    ensures id in Interleaved(m, es).transfers ==> CompleteAt(Interleaved(m, es), id)
    decreases es
  {
    if es != [] {
      var m' := Next(m, es[0]);
      NextKeepsInv(m, es[0]);
      NextStaysComplete(m, es[0], id);
      NextKeepsUsed(m, es[0]);
      hide Next;
      if id in m'.transfers { CompleteStays(m', es[1..], id); } else { LeftForGood(m', es[1..], id); }
    }
  }

  lemma One(m: Table, e: Section)
    ensures Interleaved(m, [e]) == Next(m, e)
  {
    hide Next;
    assert [e][1..] == [];
  }

  lemma LastStoreReopens(m: Table, j: nat)
    requires Inv(m) && j in m.jobs && m.jobs[j].Receiving? && CompleteAt(m, m.jobs[j].id)
    ensures var id, m' := m.jobs[j].id, Next(m, StoreChunk(j, 0));
            id in m'.transfers && m'.transfers[id].phase.Verifying?
  {
    var t := m.transfers[m.jobs[j].id];
    assert AllDone(Marked(t.done, m.jobs[j].index));
  }

  /**
   Under interleaving a complete transfer stays complete, whatever follows but an abort, if and only if no
   request of it is still receiving or finalizing; with one that is, a single section takes it back.
   */
  lemma CompleteIsFinal(m: Table, id: string)
    requires Inv(m) && CompleteAt(m, id)
    ensures StaysComplete(m, id) <==> OnlyServed(m, id)
  {
    if OnlyServed(m, id) {
      forall es | (forall i :: 0 <= i < |es| ==> Follows(es[i], id)) && id in Interleaved(m, es).transfers
        ensures CompleteAt(Interleaved(m, es), id)
      {
        CompleteStays(m, es, id);
      }
    } else {
      var j :| j in m.jobs && m.jobs[j].id == id && !m.jobs[j].Serving?;
      var e := if m.jobs[j].Receiving? then StoreChunk(j, 0) else FailFinal(j);
      if m.jobs[j].Receiving? { LastStoreReopens(m, j); }
      One(m, e);
      assert id in Next(m, e).transfers && !CompleteAt(Next(m, e), id);
      assert forall i :: 0 <= i < |[e]| ==> Follows([e][i], id);
    }
  }

  // ----- A run that reopens -----

  const EMPTY := Table(map[], map[], {})

  function OneChunk(phase: Phase, done: bool): Transfer {
    Transfer(Upload, Path("d", "x"), 1, "h", 1024, 1, None, Some(TempPath("d", "u")), phase, [done], 0, 0, 0)
  }

  function Stage(phase: Phase, done: bool, bytes: nat, jobs: map<nat, Job>): Table {
    Table(map["u" := OneChunk(phase, done).(bytes := bytes)], jobs, {"u"})
  }

  /** An upload of one chunk, requested twice before the first request gets to store it. */
  function Twice(): seq<Section> {
    [Insert("u", OneChunk(Transferring, false))]
    + ([CheckReceive(1, "u", 0, 1)] + ([CheckReceive(2, "u", 0, 1)] + ([StoreChunk(1, 0)] + [CompleteFinal(1)])))
  }

  lemma Unfold(m: Table, e: Section, es: seq<Section>)
    ensures Interleaved(m, [e] + es) == Interleaved(Next(m, e), es)
  {
    hide Next;
    assert ([e] + es)[1..] == es;
  }

  lemma Inserted()
    ensures Next(EMPTY, Insert("u", OneChunk(Transferring, false))) == Stage(Transferring, false, 0, map[])
  {
  }

  lemma LetIn(jobs: map<nat, Job>, j: nat)
    requires j !in jobs
    ensures Next(Stage(Transferring, false, 0, jobs), CheckReceive(j, "u", 0, 1))
         == Stage(Transferring, false, 0, jobs[j := Receiving("u", 0, 1, "h")])
  {
  }

  lemma FirstStores()
    ensures var job := Receiving("u", 0, 1, "h");
            Next(Stage(Transferring, false, 0, map[1 := job, 2 := job]), StoreChunk(1, 0))
            == Stage(Verifying, true, 1, map[1 := Finalizing("u", "h"), 2 := job])
  {
    var job := Receiving("u", 0, 1, "h");
    assert Marked([false], 0) == [true] && AllDone([true]);
    assert MarkReceived(OneChunk(Transferring, false), 0, 1, 0) == OneChunk(Verifying, true).(bytes := 1);
    hide MarkReceived, AllDone, Marked;
    assert map[1 := job, 2 := job][1 := Finalizing("u", "h")] == map[1 := Finalizing("u", "h"), 2 := job];
  }

  lemma FirstCompletes()
    ensures var job := Receiving("u", 0, 1, "h");
            Next(Stage(Verifying, true, 1, map[1 := Finalizing("u", "h"), 2 := job]), CompleteFinal(1))
            == Stage(Complete, true, 1, map[2 := job])
  {
    var job := Receiving("u", 0, 1, "h");
    assert map[1 := Finalizing("u", "h"), 2 := job] - {1} == map[2 := job];
    assert OneChunk(Verifying, true).(bytes := 1).(phase := Complete) == OneChunk(Complete, true).(bytes := 1);
  }

  /** From the empty table: the upload is complete, and the second request takes it back to verifying. */
  lemma OverlapReopens()
    ensures Inv(EMPTY)
    ensures forall i :: 0 <= i < |Twice()| ==> InsertsNew(Twice()[i])
    ensures var m := Interleaved(EMPTY, Twice());
            && CompleteAt(m, "u") && !StaysComplete(m, "u")
            && "u" in Next(m, StoreChunk(2, 0)).transfers
            && Next(m, StoreChunk(2, 0)).transfers["u"].phase.Verifying?
  {
    var job := Receiving("u", 0, 1, "h");
    var es := Twice();
    var s0 := Stage(Transferring, false, 0, map[]);
    Inserted();
    LetIn(map[], 1);
    LetIn(map[1 := job], 2);
    FirstStores();
    FirstCompletes();
    hide Next;
    Unfold(EMPTY, es[0], es[1..]);
    Unfold(s0, es[1], es[2..]);
    Unfold(Stage(Transferring, false, 0, map[1 := job]), es[2], es[3..]);
    Unfold(Stage(Transferring, false, 0, map[1 := job, 2 := job]), es[3], es[4..]);
    One(Stage(Verifying, true, 1, map[1 := Finalizing("u", "h"), 2 := job]), es[4]);
    assert es == [es[0]] + ([es[1]] + ([es[2]] + ([es[3]] + [es[4]])));
    assert es[1..] == [es[1]] + es[2..] && es[2..] == [es[2]] + es[3..] && es[3..] == [es[3]] + es[4..];
    assert es[4..] == [es[4]];
    var m := Interleaved(EMPTY, es);
    assert m == Stage(Complete, true, 1, map[2 := job]);
    InterleavingsKeepInv(EMPTY, es);
    LastStoreReopens(m, 2);
    CompleteIsFinal(m, "u");
    assert m.jobs[2].id == "u";
  }
}
