/**
 What each request of the transfer manager comes to, branch by branch, and how
 damaged chunks fail an upload over a whole run.
 */
module TransferLaws {
  import opened Basics
  import opened Chunks
  import opened Transfers
  import opened TransferRuns
  import opened UploadRuns

  // ----- Chunks of an upload -----

  /** The upload takes a chunk with this index. */
  predicate TakesChunk(s: State, id: string, index: nat) {
    && id in s.transfers
    && var t := s.transfers[id];
       t.direction == Upload && t.phase == Transferring && index < t.totalChunks
  }

  /** Only the transfer of `id` differs, and it is `t'`; files may differ. */
  predicate Becomes(s: State, s': State, id: string, t': Transfer) {
    && s'.transfers.Keys == s.transfers.Keys && id in s'.transfers && s'.transfers[id] == t'
    && forall k :: k in s.transfers && k != id ==> s'.transfers[k] == s.transfers[k]
  }

  /** Only the file at `p` differs, and it holds `content` or is gone. */
  ghost predicate Holds(s: State, s': State, p: Path, content: Option<Bytes>) {
    && Lookup(s'.files, p) == content
    && forall q :: q != p ==> Lookup(s'.files, q) == Lookup(s.files, q)
  }

  /** A chunk is refused exactly if the upload does not take it, and then nothing changes. */
  lemma RefusedChunk(c: Config, s: State, e: Event)
    requires e.Receive?
    ensures Reply(c, s, e) == Err(TransferNotFound) <==> e.id !in s.transfers
    ensures Reply(c, s, e) == Err(InvalidRequest) <==> e.id in s.transfers && !TakesChunk(s, e.id, e.index)
    ensures !TakesChunk(s, e.id, e.index) ==> Step(c, s, e) == s
  {
    hide WriteAt;
  }

  /** A damaged chunk is reported, counted, and fails the upload at three per chunk, in 32-bit arithmetic. */
  lemma DamagedChunkCounts(c: Config, s: State, e: Event)
    requires e.Receive? && TakesChunk(s, e.id, e.index) && c.hash(e.data) != e.chunkHash
    ensures var t := s.transfers[e.id];
            var errors := (t.errors + 1) % 0x1_0000_0000;
            var failed := errors >= 3 * t.totalChunks % 0x1_0000_0000;
            && Reply(c, s, e) == Ok(false) && Step(c, s, e).files == s.files
            && Becomes(s, Step(c, s, e), e.id,
                       t.(errors := errors, lastActivity := e.now, phase := if failed then Failed else Transferring))
  {
  }

  /** A chunk that cannot be written whole leaves the table as it is, and at most part of itself in the temp file. */
  lemma UnwrittenChunk(c: Config, s: State, e: Event, temp: Path)
    requires e.Receive? && TakesChunk(s, e.id, e.index) && c.hash(e.data) == e.chunkHash
    requires s.transfers[e.id].temp == Some(temp)
    requires temp !in s.files || !e.io.opens || e.io.written < |e.data| || !e.io.syncs
    ensures Reply(c, s, e) == Err(IoError) && Step(c, s, e).transfers == s.transfers
    ensures var part := if e.io.written < |e.data| then e.data[..e.io.written] else e.data;
            if temp !in s.files || !e.io.opens then Step(c, s, e) == s
            else Holds(s, Step(c, s, e), temp,
                       Some(WriteAt(s.files[temp], e.index * s.transfers[e.id].chunkSize, part)))
  {
    assert e.data[..|e.data|] == e.data;
    hide WriteAt;
  }

  /** A chunk is written whole. */
  predicate Lands(c: Config, s: State, e: Event, temp: Path)
    requires e.Receive?
  {
    && TakesChunk(s, e.id, e.index) && c.hash(e.data) == e.chunkHash
    && s.transfers[e.id].temp == Some(temp) && temp in s.files
    && e.io.opens && |e.data| <= e.io.written && e.io.syncs
  }

  /** The chunk is the only one that was missing, or none was. */
  predicate Completes(done: seq<bool>, index: nat) {
    forall i :: 0 <= i < |done| && i != index ==> done[i]
  }

  function With(done: seq<bool>, index: nat): seq<bool> {
    if index < |done| then done[..index] + [true] + done[index + 1..] else done
  }

  lemma WithIsMarked(done: seq<bool>, index: nat)
    ensures With(done, index) == Marked(done, index)
    ensures index < |done| ==> (AllDone(Marked(done, index)) <==> Completes(done, index))
  {
    if index < |done| {
      var marked := Marked(done, index);
      assert forall i :: 0 <= i < |done| ==> (marked[i] <==> i == index || done[i]);
      if AllDone(marked) {
        forall i | 0 <= i < |done| && i != index ensures done[i] { assert marked[i]; }
      }
    }
  }

  /** A chunk that lands is marked and counted by its length; if others are missing that is all. */
  lemma StoredChunk(c: Config, s: State, e: Event, temp: Path)
    requires e.Receive? && Lands(c, s, e, temp) && |s.transfers[e.id].done| == s.transfers[e.id].totalChunks
    requires !Completes(s.transfers[e.id].done, e.index)
    ensures var t, s' := s.transfers[e.id], Step(c, s, e);
            && Reply(c, s, e) == Ok(true)
            && Becomes(s, s', e.id,
                       t.(done := With(t.done, e.index), bytes := t.bytes + |e.data|, lastActivity := e.now))
            && Holds(s, s', temp, Some(WriteAt(s.files[temp], e.index * t.chunkSize, e.data)))
  {
    WithIsMarked(s.transfers[e.id].done, e.index);
    assert e.data[..|e.data|] == e.data;
    hide WriteAt, AllDone, Marked, With, Completes;
  }

  /**
   The last chunk decides: the content stays unverified if it cannot be hashed, fails with the temp file removed
   if it has another hash than announced, stays unverified and is removed if it cannot be renamed, and else is at
   the final path, complete, with its hash on record.
   */
  lemma LastChunkDecides(c: Config, s: State, e: Event, temp: Path)
    requires e.Receive? && Lands(c, s, e, temp) && |s.transfers[e.id].done| == s.transfers[e.id].totalChunks
    requires Completes(s.transfers[e.id].done, e.index) && s.transfers[e.id].path != temp
    ensures var t, s', io := s.transfers[e.id], Step(c, s, e), e.io;
            var content := WriteAt(s.files[temp], e.index * t.chunkSize, e.data);
            var actual := c.hash(content);
            var stored := t.(done := With(t.done, e.index), bytes := t.bytes + |e.data|, lastActivity := e.now);
            var checked := stored.(fileHash := if t.fileHash == "" then actual else t.fileHash);
            var left := if temp in io.stuck then Some(content) else None;
            if !io.hashes then
              && Reply(c, s, e) == Err(IoError)
              && Becomes(s, s', e.id, stored.(phase := Verifying)) && Holds(s, s', temp, Some(content))
            else if t.fileHash != "" && t.fileHash != actual then
              && Reply(c, s, e) == Err(HashMismatch)
              && Becomes(s, s', e.id, stored.(phase := Failed)) && Holds(s, s', temp, left)
            else if !io.renames then
              && Reply(c, s, e) == Err(IoError)
              && Becomes(s, s', e.id, checked.(phase := Verifying)) && Holds(s, s', temp, left)
            else
              && Reply(c, s, e) == Ok(true)
              && Becomes(s, s', e.id, checked.(phase := Complete))
              && Lookup(s'.files, t.path) == Some(content) && Lookup(s'.files, temp) == None
              && forall q :: q != temp && q != t.path ==> Lookup(s'.files, q) == Lookup(s.files, q)
  {
    WithIsMarked(s.transfers[e.id].done, e.index);
    assert e.data[..|e.data|] == e.data;
    hide WriteAt, AllDone, Marked, With, Completes;
  }

  // ----- Damage over a run -----

  /** The damaged chunks that the upload took. */
  function DamageTaken(c: Config, s: State, es: seq<Event>, id: string): nat
    decreases es
  {
    if es == [] then 0 else
      var e := es[0];
      (if e.Receive? && e.id == id && TakesChunk(s, id, e.index) && c.hash(e.data) != e.chunkHash then 1 else 0)
      + DamageTaken(c, Step(c, s, e), es[1..], id)
  }

  /** What is known of an upload in which `damage` chunks were damaged. */
  predicate Damaged(t: Transfer, damage: nat) {
    && t.direction == Upload && t.errors == damage <= 3 * t.totalChunks
    && (damage == 3 * t.totalChunks ==> t.phase in {Failed, Aborted})
  }

  lemma StepDamages(c: Config, s: State, e: Event, id: string, damage: nat)
    requires id in s.transfers && Damaged(s.transfers[id], damage) && !Starts(e, id)
    requires 3 * s.transfers[id].totalChunks < 0x1_0000_0000
    ensures var one := if e.Receive? && e.id == id && TakesChunk(s, id, e.index) && c.hash(e.data) != e.chunkHash
                       then 1 else 0;
            id in Step(c, s, e).transfers ==> Damaged(Step(c, s, e).transfers[id], damage + one)
  {
    if e.Receive? && e.id == id {
      RefusedChunk(c, s, e);
      if TakesChunk(s, id, e.index) && c.hash(e.data) != e.chunkHash {
        DamagedChunkCounts(c, s, e);
      } else if TakesChunk(s, id, e.index) {
        CleanChunkKeepsErrors(c, s, e);
        hide Step;
      }
    } else {
      OthersKeepUpload(c, s, e, id);
      if !Active(s.transfers[id].phase) { StepKeepsStopped(c, s, e, id); }
      hide Step;
    }
  }

  lemma CleanChunkKeepsErrors(c: Config, s: State, e: Event)
    requires e.Receive? && TakesChunk(s, e.id, e.index) && c.hash(e.data) == e.chunkHash
    ensures var s' := Step(c, s, e);
            && e.id in s'.transfers && s'.transfers[e.id].errors == s.transfers[e.id].errors
            && s'.transfers[e.id].totalChunks == s.transfers[e.id].totalChunks
            && s'.transfers[e.id].direction == s.transfers[e.id].direction
  {
    hide WriteAt, AllDone, Marked;
  }

  /**
   Over every run from the start of an upload, its error count is the number of damaged chunks it took; it never
   takes more than three per chunk, and with the last of them it fails for good.
   */
  lemma {:induction false} DamageFails(c: Config, s: State, es: seq<Event>, id: string, damage: nat)
    requires id in s.transfers && Damaged(s.transfers[id], damage) && NeverStarts(es, id)
    requires 3 * s.transfers[id].totalChunks < 0x1_0000_0000
    ensures id in Run(c, s, es).transfers ==>
              Damaged(Run(c, s, es).transfers[id], damage + DamageTaken(c, s, es, id))
    decreases es
  {
    hide Step, Damaged, TakesChunk;
    if es != [] {
      var s' := Step(c, s, es[0]);
      StepDamages(c, s, es[0], id, damage);
      StepEvolves(c, s, es[0], id);
      var one := DamageTaken(c, s, es, id) - DamageTaken(c, s', es[1..], id);
      if id in s'.transfers {
        DamageFails(c, s', es[1..], id, damage + one);
      } else {
        GoneStaysGone(c, s', es[1..], id);
      }
    }
  }

  lemma StartedUndamaged(c: Config, s: State, start: Event)
    requires AcceptsUpload(c, s, start) && start.req.totalChunks > 0
    ensures start.id in Step(c, s, start).transfers && Damaged(Step(c, s, start).transfers[start.id], 0)
    ensures Step(c, s, start).transfers[start.id].totalChunks == start.req.totalChunks
  {
    hide ComputeChunks, Zeros;
  }

  /** From an accepted start: at three damaged chunks per chunk the upload is failed, and by damage not before. */
  lemma UploadFailsByDamage(c: Config, s: State, start: Event, es: seq<Event>)
    requires AcceptsUpload(c, s, start) && 0 < 3 * start.req.totalChunks < 0x1_0000_0000
    requires NeverStarts(es, start.id)
    ensures var s1, id := Step(c, s, start), start.id;
            var damage := DamageTaken(c, s1, es, id);
            id in Run(c, s1, es).transfers ==>
              var t := Run(c, s1, es).transfers[id];
              && t.errors == damage <= 3 * start.req.totalChunks
              && (damage == 3 * start.req.totalChunks ==> t.phase in {Failed, Aborted})
              && (t.phase == Failed ==> damage == 3 * start.req.totalChunks || !NeverMismatched(c, s1, es, id))
  {
    var s1 := Step(c, s, start);
    StartedUndamaged(c, s, start);
    hide Step;
    DamageFails(c, s1, es, start.id, 0);
    RunEvolves(c, s1, es, start.id);
    if NeverMismatched(c, s1, es, start.id) { FailsOnlyByDamage(c, s1, es, start.id, 0); }
  }

  lemma {:induction false} FailsOnlyByDamage(c: Config, s: State, es: seq<Event>, id: string, damage: nat)
    requires id in s.transfers && Damaged(s.transfers[id], damage) && NeverStarts(es, id)
    requires 3 * s.transfers[id].totalChunks < 0x1_0000_0000
    requires s.transfers[id].phase == Failed ==> damage == 3 * s.transfers[id].totalChunks
    requires NeverMismatched(c, s, es, id)
    ensures id in Run(c, s, es).transfers && Run(c, s, es).transfers[id].phase == Failed ==>
              damage + DamageTaken(c, s, es, id) == 3 * s.transfers[id].totalChunks
    decreases es
  {
    hide Step, TakesChunk, Reply;
    if es != [] {
      var s' := Step(c, s, es[0]);
      StepDamages(c, s, es[0], id, damage);
      StepEvolves(c, s, es[0], id);
      if id in s'.transfers && s'.transfers[id].phase == Failed { StepFails(c, s, es[0], id); }
      var one := DamageTaken(c, s, es, id) - DamageTaken(c, s', es[1..], id);
      if id in s'.transfers {
        FailsOnlyByDamage(c, s', es[1..], id, damage + one);
      } else {
        GoneStaysGone(c, s', es[1..], id);
      }
    }
  }

  /** A step fails an upload only by damage or by a hash mismatch. */
  lemma StepFails(c: Config, s: State, e: Event, id: string)
    requires id in s.transfers && s.transfers[id].direction == Upload && !Starts(e, id)
    requires id in Step(c, s, e).transfers && Step(c, s, e).transfers[id].phase == Failed
    requires 3 * s.transfers[id].totalChunks < 0x1_0000_0000
    requires s.transfers[id].phase == Transferring ==> s.transfers[id].errors < 0xFFFF_FFFF
    ensures || s.transfers[id].phase == Failed
            || (e.Receive? && e.id == id && Reply(c, s, e) == Err(HashMismatch))
            || (e.Receive? && e.id == id && TakesChunk(s, id, e.index) && c.hash(e.data) != e.chunkHash
                && s.transfers[id].errors + 1 >= 3 * s.transfers[id].totalChunks)
  {
    if e.Receive? && e.id == id {
      RefusedChunk(c, s, e);
      hide WriteAt, AllDone, Marked;
    } else {
      OthersKeepUpload(c, s, e, id);
      hide Step;
    }
  }

  // ----- Chunks of a download -----

  predicate ServesChunk(s: State, id: string, index: nat) {
    && id in s.transfers
    && var t := s.transfers[id];
       t.direction == Download && t.phase in {Transferring, Paused} && index < t.totalChunks
  }

  /** The source is as new as it was, as far as one can tell. */
  predicate Unchanged(t: Transfer, stat: Stat) {
    t.sourceMtime == None || stat == StatFails || stat == Stat(t.sourceMtime)
  }

  /** The bytes of a chunk, if the file still has them all. */
  predicate HasChunk(s: State, t: Transfer, index: nat) {
    t.path in s.files
    && (index * t.chunkSize >= t.fileSize
        || |s.files[t.path]| >= index * t.chunkSize + Min(t.chunkSize, t.fileSize - index * t.chunkSize))
  }

  /** Why a chunk is not served: each refusal exactly when it applies and none before it does; nothing changes then. */
  lemma UnservedChunk(s: State, id: string, index: nat, stat: Stat, readable: bool, now: nat)
    ensures var (s', r) := ServeChunk(s, id, index, stat, readable, now);
            && (r == Err(TransferNotFound) <==> id !in s.transfers)
            && (r == Err(InvalidRequest) <==> id in s.transfers && !ServesChunk(s, id, index))
            && (r == Err(FileChanged) <==> ServesChunk(s, id, index) && !Unchanged(s.transfers[id], stat))
            && (r == Err(IoError) <==> ServesChunk(s, id, index) && Unchanged(s.transfers[id], stat)
                                       && !(readable && HasChunk(s, s.transfers[id], index)))
            && (r.Err? ==> s' == s)
  {
  }

  /** A served chunk is read, marked and counted; with none missing the download is complete. */
  lemma ServedChunk(s: State, id: string, index: nat, stat: Stat, readable: bool, now: nat)
    requires ServesChunk(s, id, index) && Unchanged(s.transfers[id], stat)
    requires readable && HasChunk(s, s.transfers[id], index)
    requires |s.transfers[id].done| == s.transfers[id].totalChunks
    ensures var (s', r) := ServeChunk(s, id, index, stat, readable, now);
            var t := s.transfers[id];
            var offset := index * t.chunkSize;
            var len := if offset >= t.fileSize then 0 else Min(t.chunkSize, t.fileSize - offset);
            && r == Ok(if len == 0 then [] else s.files[t.path][offset..offset + len]) && s'.files == s.files
            && Becomes(s, s', id,
                       t.(done := With(t.done, index), bytes := t.bytes + len, lastActivity := now,
                          phase := if Completes(t.done, index) then Complete else t.phase))
  {
    WithIsMarked(s.transfers[id].done, index);
    hide AllDone, Marked, With, Completes;
  }

  // ----- Resuming, aborting, pausing, sweeping -----

  lemma ResumeLaw(s: State, id: string, now: nat)
    ensures var (s', r) := Resume(s, id, now);
            && (r == Err(TransferNotFound) <==> id !in s.transfers)
            && (r == Err(InvalidRequest) <==> id in s.transfers && s.transfers[id].phase !in {Paused, Transferring})
            && (r.Err? ==> s' == s && r.error in {TransferNotFound, InvalidRequest})
            && (r.Ok? ==>
                  var t := s.transfers[id];
                  && s'.files == s.files && Becomes(s, s', id, t.(phase := Transferring, lastActivity := now))
                  && forall i :: i in r.value <==> 0 <= i < |t.done| && t.done[i])
  {
    if id in s.transfers { ListsDone(s.transfers[id].done, |s.transfers[id].done|); }
    hide DoneIndices;
  }

  lemma {:induction false} ListsDone(done: seq<bool>, k: nat)
    requires k <= |done|
    ensures forall i :: i in DoneIndices(done, k) <==> 0 <= i < k && done[i]
  {
    if k > 0 { ListsDone(done, k - 1); }
  }

  lemma AbortLaw(s: State, id: string, stuck: set<Path>)
    ensures var (s', error) := Abort(s, id, stuck);
            && (error == None <==> id in s.transfers) && (error.Some? ==> error == Some(TransferNotFound) && s' == s)
            && (error == None ==>
                  var t := s.transfers[id];
                  && Becomes(s, s', id, t.(phase := Aborted))
                  && if t.temp == None || t.temp.value in stuck then s'.files == s.files
                     else Holds(s, s', t.temp.value, None))
  {
  }

  /** Running transfers are paused, all others left alone. */
  lemma PauseLaw(s: State)
    ensures var s' := PauseAll(s);
            && s'.files == s.files && s'.transfers.Keys == s.transfers.Keys
            && forall id :: id in s.transfers ==>
                 var t := s.transfers[id];
                 s'.transfers[id] == if t.phase in {Init, Transferring} then t.(phase := Paused) else t
  {
  }

  /** A transfer is swept exactly if it is paused or over, and untouched for longer than the timeout. */
  predicate Sweepable(c: Config, t: Transfer, now: nat) {
    t.phase in {Paused, Failed, Aborted, Complete} && now > t.lastActivity + c.staleTimeout
  }

  lemma SweepLaw(c: Config, s: State, now: nat, stuck: set<Path>)
    ensures var (s', ids) := SweepStale(c, s, now, stuck);
            && (forall id :: id in ids <==> id in s.transfers && Sweepable(c, s.transfers[id], now))
            && (forall id :: id in s'.transfers <==> id in s.transfers && id !in ids)
            && (forall id :: id in s'.transfers ==> s'.transfers[id] == s.transfers[id])
            && (forall p :: Lookup(s'.files, p) ==
                  if p !in stuck && exists id :: id in ids && s.transfers[id].temp == Some(p) then None
                  else Lookup(s.files, p))
  {
    var ids := SweepStale(c, s, now, stuck).1;
    forall p ensures p in TempsOf(s.transfers, ids) <==> exists id :: id in ids && s.transfers[id].temp == Some(p) {
      if id :| id in ids && s.transfers[id].temp == Some(p) {
        assert s.transfers[id].temp.value == p;
      }
    }
    hide TempsOf;
  }

  // ----- Starting -----

  function Running(s: State): nat { |set id | id in s.transfers && s.transfers[id].phase in {Init, Transferring}| }

  /** The first objection to an upload, in the order in which the client hears of them. */
  function UploadObjection(c: Config, s: State, req: UploadRequest, env: UploadEnv): Option<Error> {
    var size := Max(req.chunkSize, 1024);
    var count := if req.fileSize == 0 then 1 else (req.fileSize + size - 1) / size % 0x1_0000_0000;
    if env.pathError != None then env.pathError
    else if req.filename in {"", ".."} || '/' in req.filename || '\\' in req.filename then Some(InvalidPath)
    else if c.maxFileSize < req.fileSize then Some(FileTooLarge)
    else if Running(s) >= c.maxConcurrent then Some(MaxTransfers)
    else if !env.hasSpace then Some(DiskFull)
    else if req.totalChunks != count then Some(InvalidRequest)
    else if !env.creates then Some(IoError)
    else if !env.allocates then Some(DiskFull)
    else None
  }

  lemma RoundedUp(a: nat, b: nat)
    requires b > 0
    ensures DivCeil(a, b) == (a + b - 1) / b
  {
    var q, r := a / b, a % b;
    assert a == q * b + r;
    if r == 0 {
      assert a + b - 1 == q * b + (b - 1);
      ChunkOf(a + b - 1, b, q);
    } else {
      assert a + b - 1 == (q + 1) * b + (r - 1);
      ChunkOf(a + b - 1, b, q + 1);
    }
  }

  /** An upload is accepted exactly if there is no objection; it then starts with nothing done, on a file of zeros. */
  lemma UploadStarts(c: Config, s: State, req: UploadRequest, id: string, env: UploadEnv, now: nat)
    ensures var (s', r) := InitUpload(c, s, req, id, env, now);
            var objection, temp := UploadObjection(c, s, req, env), Path(req.dir, ".gx_tmp_" + id);
            var size := Max(req.chunkSize, 1024);
            && (objection.Some? <==> r.Err?)
            && (objection.Some? ==> r == Err(objection.value) && s'.transfers == s.transfers)
            && (UploadObjection(c, s, req, env.(allocates := true)).Some? ==> s' == s)
            && (r.Err? && UploadObjection(c, s, req, env.(allocates := true)) == None ==>
                  Lookup(s'.files, temp) == if temp in env.stuck then Some([]) else None)
            && (forall p :: p != temp ==> Lookup(s'.files, p) == Lookup(s.files, p))
            && (r.Ok? ==>
                  && r.value == Accepted(size, req.totalChunks)
                  && Lookup(s'.files, temp) == Some(seq(req.fileSize, _ => 0))
                  && s'.transfers == s.transfers[id := Transfer(
                       Upload, Path(req.dir, req.filename), req.fileSize, req.fileHash, size, req.totalChunks, None,
                       Some(temp), Transferring, seq(req.totalChunks, _ => false), 0, 0, now)])
  {
    RoundedUp(req.fileSize, UploadChunkSize(req.chunkSize));
    assert Running(s) == RunningCount(s.transfers);
    hide RunningCount, Running, DivCeil;
  }

  function DownloadObjection(c: Config, s: State, path: Path, env: DownloadEnv): Option<Error> {
    if env.pathError != None then env.pathError
    else if path !in s.files then Some(FileNotFound)
    else if c.maxFileSize < |s.files[path]| then Some(FileTooLarge)
    else if Running(s) >= c.maxConcurrent then Some(MaxTransfers)
    else if !env.hashes then Some(IoError)
    else None
  }

  /** So with a download, which starts with the size, hash and time of the file, and leaves the files alone. */
  lemma DownloadStarts(
      c: Config, s: State, path: Path, requested: Option<nat>, id: string, env: DownloadEnv, now: nat)
    requires !DividesByZero(c, s, path, requested, env)
    ensures var (s', r) := InitDownload(c, s, path, requested, id, env, now);
            var objection := DownloadObjection(c, s, path, env);
            && (objection.Some? <==> r.Err?) && (objection.Some? ==> r == Err(objection.value) && s' == s)
            && s'.files == s.files
            && (r.Ok? ==>
                  var file, size := s.files[path], if requested == None then c.chunkSize else requested.value;
                  && (file != [] ==> size > 0)
                  && var count := if file == [] then 1 else (|file| + size - 1) / size % 0x1_0000_0000;
                  && r.value == Accepted(size, count)
                  && s'.transfers == s.transfers[id := Transfer(
                       Download, path, |file|, c.hash(file), size, count, env.mtime, None,
                       Transferring, seq(count, _ => false), 0, 0, now)])
  {
    if path in s.files && DownloadChunkSize(c, requested) > 0 {
      RoundedUp(|s.files[path]|, DownloadChunkSize(c, requested));
    }
    assert Running(s) == RunningCount(s.transfers);
    hide RunningCount, Running, DivCeil;
  }
}
