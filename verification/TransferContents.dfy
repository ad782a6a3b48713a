/**
 The file behind one upload under interleaving. A chunk is written between two
 locked sections, to a file that was opened by name before; a rename moves the
 file under those who have it open.
 */
module TransferContents {
  import opened Basics
  import opened Chunks
  import opened Transfers
  import opened TransferSections
  import opened UploadRuns

  /** Where the file of the upload is. The request that renamed it is remembered. */
  datatype Place = AtTemp | AtFinal(renamer: nat) | Removed

  /** A request that has the file open: what it writes where, and whether it has written it all. */
  datatype Handle = Handle(offset: nat, data: Bytes, whole: bool)

  datatype Disk = Disk(table: Table, file: Bytes, place: Place, handles: map<nat, Handle>)

  datatype Move =
    | Locked(section: Section)
    | OpenTemp(job: nat, data: Bytes)
    | WritePart(job: nat, part: nat)
    | RenameTemp(job: nat)
    | RemoveTemp

  predicate Holds(m: Table, job: nat, id: string) { job in m.jobs && m.jobs[job].id == id }

  predicate ReceivingAt(m: Table, job: nat, id: string) { Holds(m, job, id) && m.jobs[job].Receiving? }

  /** Storing waits for the whole write, completing for the request's own rename. */
  predicate MayRun(d: Disk, id: string, e: Section) {
    && (e.StoreChunk? && ReceivingAt(d.table, e.job, id) ==> e.job in d.handles && d.handles[e.job].whole)
    && (e.CompleteFinal? && Holds(d.table, e.job, id) ==> d.place == AtFinal(e.job))
  }

  /** A move that is not at its point does nothing. */
  function After(d: Disk, id: string, cs: nat, e: Move): Disk {
    match e
    case Locked(section) =>
      if !MayRun(d, id, section) then d else
        var table := Next(d.table, section);
        d.(table := table, handles := map j | j in d.handles && ReceivingAt(table, j, id) :: d.handles[j])
    case OpenTemp(job, data) =>
      if !ReceivingAt(d.table, job, id) || job in d.handles || d.place != AtTemp then d
      else d.(handles := d.handles[job := Handle(d.table.jobs[job].index * cs, data, false)])
    case WritePart(job, part) =>
      if job !in d.handles then d else
        var h := d.handles[job];
        d.(file := WriteAt(d.file, h.offset, h.data[..Min(part, |h.data|)]),
           handles := d.handles[job := h.(whole := part >= |h.data|)])
    case RenameTemp(job) =>
      if Holds(d.table, job, id) && d.table.jobs[job].Finalizing? && d.place == AtTemp
      then d.(place := AtFinal(job)) else d
    case RemoveTemp =>
      if d.place == AtTemp then d.(place := Removed) else d
  }

  function Moved(d: Disk, id: string, cs: nat, es: seq<Move>): Disk
    decreases es
  {
    if es == [] then d else Moved(After(d, id, cs, es[0]), id, cs, es[1..])
  }

  // ----- A client that sends one file -----

  /** Chunks that get past their hash check are slices of `f`; starts are fresh. */
  predicate Sends(d: Disk, id: string, f: Bytes, cs: nat, e: Move) {
    && (e.Locked? ==> InsertsNew(e.section))
    && (e.OpenTemp? && ReceivingAt(d.table, e.job, id) ==> e.data == Slice(f, cs, d.table.jobs[e.job].index))
  }

  predicate AllSend(d: Disk, id: string, f: Bytes, cs: nat, es: seq<Move>)
    decreases es
  {
    es != [] ==> Sends(d, id, f, cs, es[0]) && AllSend(After(d, id, cs, es[0]), id, f, cs, es[1..])
  }

  function Only(n: nat, i: nat): seq<bool> { seq(n, k => k == i) }

  /** What is known of one open file: it belongs to a request, and what has been written whole is there. */
  ghost predicate HandleFits(d: Disk, id: string, f: Bytes, cs: nat, j: nat)
    requires cs > 0 && j in d.handles
  {
    && ReceivingAt(d.table, j, id)
    && var i, h := d.table.jobs[j].index, d.handles[j];
       && i < DivCeil(|f|, cs) && h.offset == i * cs && h.data == Slice(f, cs, i)
       && (h.whole ==> Agrees(d.file, f, cs, Only(DivCeil(|f|, cs), i)))
  }

  ghost predicate TableFits(m: Table, id: string, f: Bytes, cs: nat)
    requires cs > 0
  {
    && Inv(m) && id in m.used
    && (id in m.transfers ==>
          var t := m.transfers[id];
          t.direction.Upload? && t.chunkSize == cs && |t.done| == t.totalChunks == DivCeil(|f|, cs))
    && (forall j :: Holds(m, j, id) ==> !m.jobs[j].Serving?)
    && (forall j :: ReceivingAt(m, j, id) ==> m.jobs[j].index < DivCeil(|f|, cs))
  }

  ghost predicate Fits(d: Disk, id: string, f: Bytes, cs: nat)
    requires cs > 0
  {
    && TableFits(d.table, id, f, cs)
    && |d.file| == |f|
    && (id in d.table.transfers ==> Agrees(d.file, f, cs, d.table.transfers[id].done))
    && (forall j :: j in d.handles ==> HandleFits(d, id, f, cs, j))
    && ((d.place.AtFinal? || exists j :: Holds(d.table, j, id) && d.table.jobs[j].Finalizing?) ==> d.file == f)
  }

  // ----- Locked sections -----

  lemma NextKeepsTableFits(m: Table, e: Section, id: string, f: Bytes, cs: nat)
    requires cs > 0 && TableFits(m, id, f, cs) && InsertsNew(e)
    ensures TableFits(Next(m, e), id, f, cs)
  {
    NextKeepsInv(m, e);
    NextKeepsUsed(m, e);
    if id in m.transfers { NextKeepsSpec(m, e, id); } else { NextLeavesOut(m, e, id); }
    forall j | Holds(Next(m, e), j, id)
      ensures !Next(m, e).jobs[j].Serving?
      ensures Next(m, e).jobs[j].Receiving? ==> Next(m, e).jobs[j].index < DivCeil(|f|, cs)
    {
      JobStays(m, e, j);
    }
    hide Next, Inv, DivCeil;
  }

  lemma NextKeepsSpec(m: Table, e: Section, id: string)
    requires Inv(m) && id in m.transfers
    ensures id in Next(m, e).transfers ==>
              var t, t' := m.transfers[id], Next(m, e).transfers[id];
              && t'.direction == t.direction && t'.chunkSize == t.chunkSize
              && t'.totalChunks == t.totalChunks && |t'.done| == |t.done|
  {
    hide RetryLimit, ChunkLen, AllDone;
  }

  /** A job is as it was, or has just been let in by a check, or has just stored the last chunk. */
  lemma JobStays(m: Table, e: Section, j: nat)
    requires j in Next(m, e).jobs
    ensures var job := Next(m, e).jobs[j];
            || (j in m.jobs && m.jobs[j] == job)
            || (j !in m.jobs && job.Receiving? && job.id in m.transfers && m.transfers[job.id].phase.Transferring?
                && job.index < m.transfers[job.id].totalChunks)
            || (j !in m.jobs && job.Serving? && job.id in m.transfers && m.transfers[job.id].direction.Download?)
            || (job.Finalizing? && e.StoreChunk? && job.id in Next(m, e).transfers)
  {
    hide NoteBadHash, MarkReceived, MarkServed, ChunkLen, AllDone, Resume, Abort, PauseAll, StaleIds;
  }

  lemma DoneStays(m: Table, e: Section, id: string)
    requires id in m.transfers && id in Next(m, e).transfers && (e.Insert? ==> e.id in m.used || e.id != id)
    ensures var done, done' := m.transfers[id].done, Next(m, e).transfers[id].done;
            || done' == done
            || (e.StoreChunk? && ReceivingAt(m, e.job, id) && done' == Marked(done, m.jobs[e.job].index))
            || (e.CountServed? && Holds(m, e.job, id) && m.jobs[e.job].Serving?)
  {
    hide RetryLimit, ChunkLen, AllDone, Marked, DoneIndices;
  }

  lemma MarkAgreed(file: Bytes, f: Bytes, cs: nat, done: seq<bool>, i: nat)
    requires cs > 0 && i < |done| && Agrees(file, f, cs, done) && Agrees(file, f, cs, Only(|done|, i))
    ensures Agrees(file, f, cs, Marked(done, i))
  {
    hide IndexOf;
  }

  lemma LockedFits(d: Disk, id: string, f: Bytes, cs: nat, e: Section)
    requires cs > 0 && |f| > 0 && Fits(d, id, f, cs) && InsertsNew(e) && MayRun(d, id, e)
    ensures Fits(After(d, id, cs, Locked(e)), id, f, cs)
  {
    var m, m', d' := d.table, Next(d.table, e), After(d, id, cs, Locked(e));
    NextKeepsTableFits(m, e, id, f, cs);
    LockedKeepsAgreement(d, id, f, cs, e);
    forall j | j in d'.handles ensures HandleFits(d', id, f, cs, j) {
      JobStays(m, e, j);
      assert HandleFits(d, id, f, cs, j);
    }
    if j :| Holds(m', j, id) && m'.jobs[j].Finalizing? {
      JobStays(m, e, j);
      if e.StoreChunk? && id in m'.transfers { FinalizingIsDone(d.file, m', j, f, cs); }
    }
    hide Next, Inv, TableFits, Agrees, DivCeil, Slice, Only;
  }

  lemma FinalizingIsDone(file: Bytes, m: Table, j: nat, f: Bytes, cs: nat)
    requires cs > 0 && |f| > 0 && Inv(m) && j in m.jobs && m.jobs[j].Finalizing? && m.jobs[j].id in m.transfers
    requires |m.transfers[m.jobs[j].id].done| == DivCeil(|f|, cs)
    requires Agrees(file, f, cs, m.transfers[m.jobs[j].id].done)
    ensures file == f
  {
    hide Agrees;
    AllDoneIsFile(file, f, cs, m.transfers[m.jobs[j].id].done);
  }

  lemma LockedKeepsAgreement(d: Disk, id: string, f: Bytes, cs: nat, e: Section)
    requires cs > 0 && |f| > 0 && Fits(d, id, f, cs) && MayRun(d, id, e)
    ensures id in Next(d.table, e).transfers ==> Agrees(d.file, f, cs, Next(d.table, e).transfers[id].done)
  {
    var m, m' := d.table, Next(d.table, e);
    if id in m.transfers && id in m'.transfers {
      DoneStays(m, e, id);
      if e.StoreChunk? && ReceivingAt(m, e.job, id) {
        assert HandleFits(d, id, f, cs, e.job);
        MarkAgreed(d.file, f, cs, m.transfers[id].done, m.jobs[e.job].index);
      }
      hide Next, Agrees, Inv, Marked, DivCeil;
    } else if id in m'.transfers {
      NextLeavesOut(m, e, id);
    }
  }

  // ----- Writes -----

  /** A slice of `f`, whole or in part, changes nothing that agrees, and nothing at all once all agrees. */
  lemma SliceOntoFile(file: Bytes, f: Bytes, cs: nat, i: nat, part: nat)
    requires cs > 0 && |f| > 0 && |file| == |f| && i < DivCeil(|f|, cs) && part <= |Slice(f, cs, i)|
    ensures var file' := WriteAt(file, i * cs, Slice(f, cs, i)[..part]);
            && |file'| == |f| && (file == f ==> file' == f)
            && (part == |Slice(f, cs, i)| ==> Agrees(file', f, cs, Only(DivCeil(|f|, cs), i)))
  {
    var n := DivCeil(|f|, cs);
    var none, all := seq(n, _ => false), seq(n, _ => true);
    assert Marked(none, i) == Only(n, i);
    assert Agrees(file, f, cs, none);
    SliceKeepsAgreement(file, f, cs, none, i, part);
    if file == f {
      assert Agrees(file, f, cs, all);
      SliceKeepsAgreement(file, f, cs, all, i, part);
      hide WriteAt, Slice;
      AllDoneIsFile(WriteAt(file, i * cs, Slice(f, cs, i)[..part]), f, cs, all);
    }
    hide WriteAt, Slice, Agrees;
    assert Agrees(WriteAt(file, i * cs, Slice(f, cs, i)[..part]), f, cs, none);
  }

  lemma WriteFits(d: Disk, id: string, f: Bytes, cs: nat, job: nat, part: nat)
    requires cs > 0 && |f| > 0 && Fits(d, id, f, cs) && job in d.handles
    ensures Fits(After(d, id, cs, WritePart(job, part)), id, f, cs)
  {
    var d', n := After(d, id, cs, WritePart(job, part)), DivCeil(|f|, cs);
    assert HandleFits(d, id, f, cs, job);
    var i := d.table.jobs[job].index;
    var p := Min(part, |Slice(f, cs, i)|);
    SliceOntoFile(d.file, f, cs, i, p);
    if id in d.table.transfers { SliceKeepsAgreement(d.file, f, cs, d.table.transfers[id].done, i, p); }
    forall j | j in d'.handles ensures HandleFits(d', id, f, cs, j) {
      assert HandleFits(d, id, f, cs, j);
      if j != job && d.handles[j].whole {
        SliceKeepsAgreement(d.file, f, cs, Only(n, d.table.jobs[j].index), i, p);
      }
    }
    hide WriteAt, Slice, Agrees, TableFits, DivCeil, Only;
  }

  // ----- Runs -----

  lemma AfterFits(d: Disk, id: string, f: Bytes, cs: nat, e: Move)
    requires cs > 0 && |f| > 0 && Fits(d, id, f, cs) && Sends(d, id, f, cs, e)
    ensures Fits(After(d, id, cs, e), id, f, cs)
  {
    match e
    case Locked(section) =>
      if MayRun(d, id, section) { LockedFits(d, id, f, cs, section); }
    case WritePart(job, part) =>
      if job in d.handles { WriteFits(d, id, f, cs, job, part); }
    case _ =>
      forall j | j in After(d, id, cs, e).handles ensures HandleFits(After(d, id, cs, e), id, f, cs, j) {
        assert j in d.handles ==> HandleFits(d, id, f, cs, j);
      }
      hide Next, Agrees, DivCeil, Slice, Inv, WriteAt;
  }

  lemma {:induction false} MovedFits(d: Disk, id: string, f: Bytes, cs: nat, es: seq<Move>)
    requires cs > 0 && |f| > 0 && Fits(d, id, f, cs) && AllSend(d, id, f, cs, es)
    ensures Fits(Moved(d, id, cs, es), id, f, cs)
    decreases es
  {
    hide After, Fits, Sends;
    if es != [] {
      AfterFits(d, id, f, cs, es[0]);
      MovedFits(After(d, id, cs, es[0]), id, f, cs, es[1..]);
    }
  }

  /** The upload of `f` as a start leaves it: a temp file of zeros that nobody has open. */
  function Begun(m: Table, id: string, t: Transfer): Disk {
    Disk(Next(m, Insert(id, t)), Zeros(t.fileSize), AtTemp, map[])
  }

  lemma BegunFits(m: Table, id: string, t: Transfer, f: Bytes)
    requires Inv(m) && id !in m.used && New(t) && t.direction.Upload? && t.fileSize == |f| > 0 && t.chunkSize > 0
    requires t.totalChunks == DivCeil(|f|, t.chunkSize)
    ensures Fits(Begun(m, id, t), id, f, t.chunkSize)
  {
    LastChunk(|f|, t.chunkSize);
    NextKeepsInv(m, Insert(id, t));
  }

  /**
   Under every interleaving of sections, opens, writes and renames in which the client sends slices of `f`: while
   a request finalizes, so whenever the hash is taken, and once all chunks are done, the file is `f`; and from the
   rename on it is `f` for good, whatever late requests still write to it.
   */
  lemma InterleavedUploadIsExact(m: Table, id: string, t: Transfer, f: Bytes, es: seq<Move>)
    requires Inv(m) && id !in m.used && New(t) && t.direction.Upload? && t.fileSize == |f| > 0 && t.chunkSize > 0
    requires t.totalChunks == DivCeil(|f|, t.chunkSize)
    requires AllSend(Begun(m, id, t), id, f, t.chunkSize, es)
    ensures var d := Moved(Begun(m, id, t), id, t.chunkSize, es);
            && (forall j :: Holds(d.table, j, id) && d.table.jobs[j].Finalizing? ==> d.file == f)
            && (id in d.table.transfers && d.table.transfers[id].phase in {Verifying, Complete} ==> d.file == f)
            && (d.place.AtFinal? ==> d.file == f)
  {
    var cs := t.chunkSize;
    BegunFits(m, id, t, f);
    MovedFits(Begun(m, id, t), id, f, cs, es);
    var d := Moved(Begun(m, id, t), id, cs, es);
    if id in d.table.transfers && d.table.transfers[id].phase in {Verifying, Complete} {
      assert PhaseFitsDone(d.table.transfers[id]);
      hide Moved, Agrees;
      AllDoneIsFile(d.file, f, cs, d.table.transfers[id].done);
    }
    hide Moved, AllSend, Agrees;
  }

  // ----- Other contents -----

  /** What an open file would write is there already. */
  predicate NothingNew(file: Bytes, h: Handle) { WriteAt(file, h.offset, h.data) == file }

  lemma PartOfNothingNew(file: Bytes, offset: nat, data: Bytes, part: nat)
    requires WriteAt(file, offset, data) == file && part <= |data|
    ensures WriteAt(file, offset, data[..part]) == file
  {
    if data != [] {
      assert |file| >= offset + |data|;
      assert forall k :: 0 <= k < |data| ==> file[offset + k] == data[k] by {
        forall k | 0 <= k < |data| ensures file[offset + k] == data[k] {
          assert WriteAt(file, offset, data)[offset + k] == data[k];
        }
      }
      assert file[..offset] + data[..part] + file[offset + part..] == file;
    }
  }

  lemma AfterRename(d: Disk, id: string, cs: nat, e: Move)
    requires d.place.AtFinal? && forall j :: j in d.handles ==> NothingNew(d.file, d.handles[j])
    ensures var d' := After(d, id, cs, e);
            && d'.place == d.place && d'.file == d.file
            && forall j :: j in d'.handles ==> NothingNew(d'.file, d'.handles[j])
  {
    if e.WritePart? && e.job in d.handles {
      var h := d.handles[e.job];
      assert NothingNew(d.file, h);
      PartOfNothingNew(d.file, h.offset, h.data, Min(e.part, |h.data|));
    }
    hide Next, WriteAt;
  }

  lemma {:induction false} StaysAsRenamed(d: Disk, id: string, cs: nat, es: seq<Move>)
    requires d.place.AtFinal? && forall j :: j in d.handles ==> NothingNew(d.file, d.handles[j])
    ensures Moved(d, id, cs, es).file == d.file
    decreases es
  {
    hide After, NothingNew;
    if es != [] {
      AfterRename(d, id, cs, es[0]);
      StaysAsRenamed(After(d, id, cs, es[0]), id, cs, es[1..]);
    }
  }

  /**
   Whatever was sent, the renamed file keeps its content through all that may follow if and only if every request
   that still has it open would write what is there already.
   */
  lemma RenamedContentIsFinal(d: Disk, id: string, cs: nat)
    requires d.place.AtFinal?
    ensures (forall es :: Moved(d, id, cs, es).file == d.file)
       <==> (forall j :: j in d.handles ==> NothingNew(d.file, d.handles[j]))
  {
    if forall j :: j in d.handles ==> NothingNew(d.file, d.handles[j]) {
      forall es ensures Moved(d, id, cs, es).file == d.file { StaysAsRenamed(d, id, cs, es); }
    } else {
      var j :| j in d.handles && !NothingNew(d.file, d.handles[j]);
      LateWriteShows(d, id, cs, j);
    }
    hide Moved, NothingNew;
  }

  lemma LateWriteShows(d: Disk, id: string, cs: nat, j: nat)
    requires j in d.handles && !NothingNew(d.file, d.handles[j])
    ensures Moved(d, id, cs, [WritePart(j, |d.handles[j].data|)]).file != d.file
  {
    var e := WritePart(j, |d.handles[j].data|);
    assert d.handles[j].data[..|d.handles[j].data|] == d.handles[j].data;
    assert After(d, id, cs, e).file != d.file;
    hide After;
    assert [e][1..] == [];
    assert Moved(d, id, cs, [e]) == After(d, id, cs, e);
  }

  // ----- From the hash on -----

  /** No chunk of `id` is let in any more. */
  ghost predicate Closed(m: Table, id: string) {
    Inv(m) && id in m.used && (id in m.transfers ==> !Active(m.transfers[id].phase))
  }

  /** Nobody who has the file open would change it, and nobody who still may open it is left. */
  predicate Settled(d: Disk, id: string) {
    && (forall j :: j in d.handles ==> NothingNew(d.file, d.handles[j]))
    && (d.place == AtTemp ==> forall j :: j in d.table.jobs && ReceivingAt(d.table, j, id) ==> j in d.handles)
  }

  predicate FreshInserts(es: seq<Move>) { forall i :: 0 <= i < |es| && es[i].Locked? ==> InsertsNew(es[i].section) }

  lemma NextStaysClosed(m: Table, e: Section, id: string)
    requires Closed(m, id) && InsertsNew(e)
    ensures Closed(Next(m, e), id)
    ensures forall j :: j in Next(m, e).jobs && ReceivingAt(Next(m, e), j, id) ==> ReceivingAt(m, j, id)
  {
    NextKeepsInv(m, e);
    NextKeepsUsed(m, e);
    if id in m.transfers { NextGrows(m, e, id); } else { NextLeavesOut(m, e, id); }
    forall j | j in Next(m, e).jobs && ReceivingAt(Next(m, e), j, id) ensures ReceivingAt(m, j, id) {
      JobStays(m, e, j);
    }
    hide Next, Inv;
  }

  lemma AfterStaysSettled(d: Disk, id: string, cs: nat, e: Move)
    requires Closed(d.table, id) && Settled(d, id) && (e.Locked? ==> InsertsNew(e.section))
    ensures var d' := After(d, id, cs, e); Closed(d'.table, id) && Settled(d', id) && d'.file == d.file
  {
    if e.Locked? {
      NextStaysClosed(d.table, e.section, id);
    } else if e.WritePart? && e.job in d.handles {
      var h := d.handles[e.job];
      assert NothingNew(d.file, h);
      PartOfNothingNew(d.file, h.offset, h.data, Min(e.part, |h.data|));
    }
    hide Next, WriteAt, Inv;
  }

  lemma {:induction false} StaysSettled(d: Disk, id: string, cs: nat, es: seq<Move>)
    requires Closed(d.table, id) && Settled(d, id) && FreshInserts(es)
    ensures Moved(d, id, cs, es).file == d.file
    decreases es
  {
    hide After, Settled, Closed;
    if es != [] {
      AfterStaysSettled(d, id, cs, es[0]);
      StaysSettled(After(d, id, cs, es[0]), id, cs, es[1..]);
    }
  }

  lemma MoveOne(d: Disk, id: string, cs: nat, e: Move, es: seq<Move>)
    ensures Moved(d, id, cs, [e] + es) == Moved(After(d, id, cs, e), id, cs, es)
  {
    hide After;
    assert ([e] + es)[1..] == es;
  }

  /** A byte that is not there. */
  function OtherByte(file: Bytes, offset: nat): Byte { if offset < |file| && file[offset] == 0 then 1 else 0 }

  lemma OtherByteShows(file: Bytes, offset: nat)
    ensures WriteAt(file, offset, [OtherByte(file, offset)]) != file
  {
    WriteSeen(file, offset, [OtherByte(file, offset)]);
    assert offset < |file| ==> Seen(WriteAt(file, offset, [OtherByte(file, offset)]), offset) != Seen(file, offset);
    hide WriteAt;
  }

  /** A request that was let in and has not opened the file yet can still change it. */
  lemma LateOpenShows(d: Disk, id: string, cs: nat, j: nat)
    requires d.place == AtTemp && ReceivingAt(d.table, j, id) && j !in d.handles
    ensures var byte := OtherByte(d.file, d.table.jobs[j].index * cs);
            Moved(d, id, cs, [OpenTemp(j, [byte]), WritePart(j, 1)]).file != d.file
  {
    var offset := d.table.jobs[j].index * cs;
    var byte := OtherByte(d.file, offset);
    var open := OpenTemp(j, [byte]);
    var d1 := After(d, id, cs, open);
    assert d1.file == d.file && d1.handles[j] == Handle(offset, [byte], false);
    OtherByteShows(d.file, offset);
    LateWriteShows(d1, id, cs, j);
    hide After;
    MoveOne(d, id, cs, open, [WritePart(j, 1)]);
    assert [open] + [WritePart(j, 1)] == [open, WritePart(j, 1)];
  }

  /**
   Once no chunk is let in any more, as when the hash is taken, and from then on through the rename and after: the
   file keeps its content, whatever follows, if and only if every request that has it open would write what is
   there, and every other that was let in can no longer open it.
   */
  lemma HashedContentIsFinal(d: Disk, id: string, cs: nat)
    requires Closed(d.table, id)
    ensures (forall es :: FreshInserts(es) ==> Moved(d, id, cs, es).file == d.file) <==> Settled(d, id)
  {
    if Settled(d, id) {
      forall es | FreshInserts(es) ensures Moved(d, id, cs, es).file == d.file { StaysSettled(d, id, cs, es); }
    } else if j :| j in d.handles && !NothingNew(d.file, d.handles[j]) {
      LateWriteShows(d, id, cs, j);
      assert FreshInserts([WritePart(j, |d.handles[j].data|)]);
    } else {
      var j :| j in d.table.jobs && ReceivingAt(d.table, j, id) && j !in d.handles;
      LateOpenShows(d, id, cs, j);
      assert FreshInserts([OpenTemp(j, [OtherByte(d.file, d.table.jobs[j].index * cs)]), WritePart(j, 1)]);
    }
    hide Moved, After, NothingNew, Inv;
  }

  // ----- A run that overwrites what was hashed -----

  function Chunk(): Job { Receiving("u", 0, 1, "h") }

  /** An upload of one byte; two requests for its chunk have opened the temp file, and one has stored `[1]`. */
  function Opening(): seq<Move> {
    [Locked(CheckReceive(1, "u", 0, 1))] + ([Locked(CheckReceive(2, "u", 0, 1))] + ([OpenTemp(1, [1])]
    + ([OpenTemp(2, [9])] + ([WritePart(1, 1)] + ([Locked(StoreChunk(1, 0))] + [])))))
  }

  /** The other writes; only then the first renames, the other gives up, and the first completes. */
  function Closing(): seq<Move> {
    [WritePart(2, 1)] + ([RenameTemp(1)] + ([Locked(GiveUp(2))] + ([Locked(CompleteFinal(1))] + [])))
  }

  function Fresh(): Disk { Begun(EMPTY, "u", OneChunk(Transferring, false)) }

  function Hashed(): Disk {
    Disk(Stage(Verifying, true, 1, map[1 := Finalizing("u", "h"), 2 := Chunk()]), [1], AtTemp,
         map[2 := Handle(0, [9], false)])
  }

  function Published(): Disk { Disk(Stage(Complete, true, 1, map[]), [9], AtFinal(1), map[]) }

  /** Two requests let in, with the file open as `handles` says. */
  function LetInBoth(file: Bytes, handles: map<nat, Handle>): Disk {
    Disk(Stage(Transferring, false, 0, map[1 := Chunk(), 2 := Chunk()]), file, AtTemp, handles)
  }

  lemma BothAreLetIn()
    ensures After(After(Fresh(), "u", 1024, Locked(CheckReceive(1, "u", 0, 1))), "u", 1024,
                  Locked(CheckReceive(2, "u", 0, 1))) == LetInBoth([0], map[])
  {
    Inserted();
    LetIn(map[], 1);
    LetIn(map[1 := Chunk()], 2);
    assert Zeros(1) == [0];
    hide Next;
  }

  lemma BothOpen()
    ensures After(After(LetInBoth([0], map[]), "u", 1024, OpenTemp(1, [1])), "u", 1024, OpenTemp(2, [9]))
         == LetInBoth([0], map[1 := Handle(0, [1], false), 2 := Handle(0, [9], false)])
  {
    hide Next;
  }

  lemma OneWrites()
    ensures After(LetInBoth([0], map[1 := Handle(0, [1], false), 2 := Handle(0, [9], false)]), "u", 1024,
                  WritePart(1, 1)) == LetInBoth([1], map[1 := Handle(0, [1], true), 2 := Handle(0, [9], false)])
  {
    assert WriteAt([0], 0, [1]) == [1] && [1][..1] == [1];
    hide Next, WriteAt;
  }

  lemma OneStored()
    ensures After(LetInBoth([1], map[1 := Handle(0, [1], true), 2 := Handle(0, [9], false)]), "u", 1024,
                  Locked(StoreChunk(1, 0))) == Hashed()
  {
    FirstStores();
    hide Next, WriteAt;
  }

  lemma OtherWrites()
    ensures After(After(Hashed(), "u", 1024, WritePart(2, 1)), "u", 1024, RenameTemp(1))
         == Hashed().(file := [9], place := AtFinal(1), handles := map[2 := Handle(0, [9], true)])
  {
    assert WriteAt([1], 0, [9]) == [9] && [9][..1] == [9];
    hide Next, WriteAt;
  }

  lemma FirstEnds()
    ensures var d := Hashed().(file := [9], place := AtFinal(1), handles := map[2 := Handle(0, [9], true)]);
            After(After(d, "u", 1024, Locked(GiveUp(2))), "u", 1024, Locked(CompleteFinal(1))) == Published()
  {
    var m := Stage(Verifying, true, 1, map[1 := Finalizing("u", "h"), 2 := Chunk()]);
    var m1 := Stage(Verifying, true, 1, map[1 := Finalizing("u", "h")]);
    assert map[1 := Finalizing("u", "h"), 2 := Chunk()] - {2} == map[1 := Finalizing("u", "h")];
    assert Next(m, GiveUp(2)) == m1;
    assert map[1 := Finalizing("u", "h")] - {1} == map[];
    assert OneChunk(Verifying, true).(bytes := 1).(phase := Complete) == OneChunk(Complete, true).(bytes := 1);
    assert Next(m1, CompleteFinal(1)) == Stage(Complete, true, 1, map[]);
    hide Next;
  }

  /**
   From a fresh upload: after `Opening` a request finalizes over the content `[1]`, and the file is not settled;
   after `Closing` the upload is complete, nobody has the file open, and it holds `[9]`.
   */
  lemma HashedThenOverwritten()
    ensures Moved(Fresh(), "u", 1024, Opening()) == Hashed() && Moved(Hashed(), "u", 1024, Closing()) == Published()
    ensures Closed(Hashed().table, "u") && !Settled(Hashed(), "u") && Settled(Published(), "u")
    ensures Holds(Hashed().table, 1, "u") && Hashed().table.jobs[1].Finalizing? && Hashed().file == [1]
    ensures CompleteAt(Published().table, "u") && Published().file == [9] && Published().handles == map[]
  {
    ReachesHashed();
    ReachesPublished();
    HashedIsUnsettled();
    PublishedIsSettled();
    hide *;
  }

  lemma ReachesHashed()
    ensures Moved(Fresh(), "u", 1024, Opening()) == Hashed()
  {
    BothAreLetIn();
    BothOpen();
    OneWrites();
    OneStored();
    hide After, Fresh, LetInBoth, Hashed;
    FollowSix(Fresh(), Opening());
  }

  lemma ReachesPublished()
    ensures Moved(Hashed(), "u", 1024, Closing()) == Published()
  {
    OtherWrites();
    FirstEnds();
    hide After, Hashed, Published;
    FollowFour(Hashed(), Closing());
  }

  lemma HashedIsUnsettled()
    ensures Closed(Hashed().table, "u") && !Settled(Hashed(), "u")
    ensures Holds(Hashed().table, 1, "u") && Hashed().table.jobs[1].Finalizing? && Hashed().file == [1]
  {
    var d := Hashed();
    assert WriteAt([1], 0, [9])[0] == 9;
    assert 2 in d.handles && !NothingNew(d.file, d.handles[2]);
    hide WriteAt;
  }

  lemma PublishedIsSettled()
    ensures Settled(Published(), "u") && CompleteAt(Published().table, "u")
    ensures Published().file == [9] && Published().handles == map[]
  {
  }

  lemma FollowFour(d: Disk, es: seq<Move>)
    requires |es| == 4
    ensures Moved(d, "u", 1024, es)
         == After(After(After(After(d, "u", 1024, es[0]), "u", 1024, es[1]), "u", 1024, es[2]), "u", 1024, es[3])
  {
    hide After;
    var d1 := After(d, "u", 1024, es[0]);
    var d2 := After(d1, "u", 1024, es[1]);
    var d3 := After(d2, "u", 1024, es[2]);
    assert es == [es[0]] + es[1..] && es[1..] == [es[1]] + es[2..] && es[2..] == [es[2]] + es[3..];
    assert es[3..] == [es[3]] + [];
    MoveOne(d, "u", 1024, es[0], es[1..]);
    MoveOne(d1, "u", 1024, es[1], es[2..]);
    MoveOne(d2, "u", 1024, es[2], es[3..]);
    MoveOne(d3, "u", 1024, es[3], []);
  }

  lemma FollowSix(d: Disk, es: seq<Move>)
    requires |es| == 6
    ensures var d2 := After(After(d, "u", 1024, es[0]), "u", 1024, es[1]);
            var d4 := After(After(d2, "u", 1024, es[2]), "u", 1024, es[3]);
            Moved(d, "u", 1024, es) == After(After(d4, "u", 1024, es[4]), "u", 1024, es[5])
  {
    hide After;
    var d1 := After(d, "u", 1024, es[0]);
    assert es == [es[0]] + es[1..] && es[1..] == [es[1]] + es[2..];
    MoveOne(d, "u", 1024, es[0], es[1..]);
    MoveOne(d1, "u", 1024, es[1], es[2..]);
    FollowFour(After(d1, "u", 1024, es[1]), es[2..]);
  }
}
