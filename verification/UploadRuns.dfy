/**
 A client uploads one file in slices. Its chunks may arrive in any order, more
 than once, or damaged, among pauses and other transfers.
 */
module UploadRuns {
  import opened Basics
  import opened Chunks
  import opened Transfers
  import opened TransferRuns

  /** A chunk of `id` that gets past its hash check is the slice of `f` at its index. */
  predicate SendsSlices(c: Config, e: Event, id: string, f: Bytes, cs: nat) {
    e.Receive? && e.id == id && c.hash(e.data) == e.chunkHash ==> e.data == Slice(f, cs, e.index)
  }

  predicate DamagedChunk(c: Config, e: Event, id: string) {
    e.Receive? && e.id == id && c.hash(e.data) != e.chunkHash
  }

  function DamagedChunks(c: Config, es: seq<Event>, id: string): nat {
    if es == [] then 0 else (if DamagedChunk(c, es[0], id) then 1 else 0) + DamagedChunks(c, es[1..], id)
  }

  /** What the owner of `id` sees to: no second start under the same id, and only slices of `f`. */
  ghost predicate Client(c: Config, es: seq<Event>, id: string, f: Bytes, cs: nat) {
    forall i :: 0 <= i < |es| ==> SendsSlices(c, es[i], id, f, cs) && !Starts(es[i], id)
  }

  /** No other upload ends at `temp`. */
  ghost predicate NoneElseAt(pubs: seq<Publication>, id: string, temp: Path) {
    forall pub :: pub in pubs && pub.path == temp ==> pub.id == id
  }

  /** While it runs, the upload's temp file agrees with `f` on the done chunks and some chunk is not done. */
  ghost predicate Assembling(c: Config, s: State, id: string, temp: Path, f: Bytes, cs: nat)
    requires cs > 0
  {
    id in s.transfers ==>
      var t := s.transfers[id];
      && t.direction.Upload? && t.temp == Some(temp) && t.chunkSize == cs
      && |t.done| == t.totalChunks == DivCeil(|f|, cs)
      && t.fileHash in {"", c.hash(f)}
      && (Active(t.phase) ==> temp in s.files && Agrees(s.files[temp], f, cs, t.done) && !AllDone(t.done))
      && (t.phase.Failed? ==> t.errors >= RetryLimit(t.totalChunks))
  }

  /** What holds of the upload apart from its temp file. */
  predicate Announced(c: Config, t: Transfer, temp: Path, f: Bytes, cs: nat)
    requires cs > 0
  {
    && t.direction.Upload? && t.temp == Some(temp) && t.chunkSize == cs
    && |t.done| == t.totalChunks == DivCeil(|f|, cs) > 0
    && t.fileHash in {"", c.hash(f)}
  }

  /** As `Assembling`, but of the temp file only that slices still to come turn it into `f`. */
  ghost predicate Mendable(c: Config, s: State, id: string, temp: Path, f: Bytes, cs: nat)
    requires cs > 0
  {
    id in s.transfers ==>
      var t := s.transfers[id];
      && Announced(c, t, temp, f, cs)
      && (Active(t.phase) ==> temp in s.files && Mends(s.files[temp], f, cs, t.done) && !AllDone(t.done))
      && (t.phase.Failed? ==> t.errors >= RetryLimit(t.totalChunks))
  }

  /** The temp file of a running upload has its full length. */
  predicate FullLength(s: State, id: string, temp: Path, f: Bytes) {
    id in s.transfers && Active(s.transfers[id].phase) ==> temp in s.files && |s.files[temp]| == |f|
  }

  lemma AssemblingIsMendable(c: Config, s: State, id: string, temp: Path, f: Bytes, cs: nat)
    requires cs > 0 && |f| > 0
    ensures Assembling(c, s, id, temp, f, cs) <==> Mendable(c, s, id, temp, f, cs) && FullLength(s, id, temp, f)
  {
    LastChunk(|f|, cs);
    if id in s.transfers && temp in s.files && |s.transfers[id].done| == DivCeil(|f|, cs) {
      AgreesIsMends(s.files[temp], f, cs, s.transfers[id].done);
    }
    hide Agrees, Mends, DivCeil;
  }

  lemma TempPathsDiffer(d: string, d': string, id: string, id': string)
    requires id != id'
    ensures TempPath(d, id) != TempPath(d', id')
  {
    assert (TEMP_PREFIX + id)[|TEMP_PREFIX|..] == id;
    assert (TEMP_PREFIX + id')[|TEMP_PREFIX|..] == id';
  }

  /** Steps of other transfers change the temp file only by publishing there, and then to what they publish. */
  lemma OthersAtTemp(c: Config, s: State, e: Event, id: string, dir: string)
    requires WellFormed(s) && id in s.transfers && !Starts(e, id)
    requires (e.Receive? || e.AbortOne?) ==> e.id != id
    requires e.Sweep? ==> id in Step(c, s, e).transfers
    ensures var temp := TempPath(dir, id);
            Lookup(Step(c, s, e).files, temp) == LastAt(AsSeq(Published(c, s, e)), temp, Lookup(s.files, temp))
  {
    forall d: string, k: string | k != id ensures TempPath(d, k) != TempPath(dir, id) {
      TempPathsDiffer(d, dir, k, id);
    }
    assert forall k :: k in s.transfers ==> OwnTemp(k, s.transfers[k]);
    if e.Receive? && e.id in s.transfers {
      OtherChunkAtTemp(c, s, e, TempPath(dir, id));
    } else if e.Receive? {
      UnknownChunk(c, s, e);
    } else {
      hide TempPath, ReceiveChunk, NewUpload, NewDownload;
    }
  }

  lemma OtherChunkAtTemp(c: Config, s: State, e: Event, temp: Path)
    requires e.Receive? && e.id in s.transfers
    requires s.transfers[e.id].temp.Some? ==> s.transfers[e.id].temp.value != temp
    ensures Lookup(Step(c, s, e).files, temp) == LastAt(AsSeq(Published(c, s, e)), temp, Lookup(s.files, temp))
  {
    hide WriteAt, RetryLimit, AllDone, Marked;
  }

  function Reply(c: Config, s: State, e: Event): Result<bool>
    requires e.Receive?
  {
    ReceiveChunk(c, s, e.id, e.index, e.chunkHash, e.data, e.now, e.io).1
  }

  lemma SliceStartsInFile(f: Bytes, cs: nat, i: nat)
    requires |f| > 0 && cs > 0 && i < DivCeil(|f|, cs)
    ensures i * cs <= |f|
  {
    LastChunk(|f|, cs);
    MulMonotone(i, DivCeil(|f|, cs) - 1, cs);
  }

  lemma SliceKeepsAgreement(temp: Bytes, f: Bytes, cs: nat, done: seq<bool>, i: nat, part: nat)
    requires |f| > 0 && cs > 0 && |done| == DivCeil(|f|, cs) && i < |done|
    requires Agrees(temp, f, cs, done) && part <= |Slice(f, cs, i)|
    ensures var temp' := WriteAt(temp, i * cs, Slice(f, cs, i)[..part]);
            && Agrees(temp', f, cs, done)
            && (part == |Slice(f, cs, i)| ==>
                  && Agrees(temp', f, cs, Marked(done, i))
                  && (AllDone(Marked(done, i)) ==> temp' == f))
  {
    SliceStartsInFile(f, cs, i);
    WritingSliceKeepsAgreement(temp, f, cs, done, i, part);
    var temp' := WriteAt(temp, i * cs, Slice(f, cs, i)[..part]);
    if part == |Slice(f, cs, i)| && AllDone(Marked(done, i)) {
      hide WriteAt, Agrees;
      AllDoneIsFile(temp', f, cs, Marked(done, i));
    }
  }

  lemma SliceMends(g: Bytes, f: Bytes, cs: nat, done: seq<bool>, i: nat, part: nat)
    requires |f| > 0 && cs > 0 && |done| == DivCeil(|f|, cs) && i < |done|
    requires Mends(g, f, cs, done) && part <= |Slice(f, cs, i)|
    ensures var g' := WriteAt(g, i * cs, Slice(f, cs, i)[..part]);
            && Mends(g', f, cs, done) && (|g| == |f| ==> |g'| == |f|)
            && (part == |Slice(f, cs, i)| ==>
                  && Mends(g', f, cs, Marked(done, i))
                  && (AllDone(Marked(done, i)) ==> g' == f))
  {
    WritingSliceMends(g, f, cs, done, i, part);
    var g' := WriteAt(g, i * cs, Slice(f, cs, i)[..part]);
    if AllDone(Marked(done, i)) { AllDoneMends(g', f, cs, Marked(done, i)); }
    hide WriteAt, Mends, Slice, DivCeil;
  }

  lemma OwnChunkKeepsAnnouncement(c: Config, s: State, e: Event, temp: Path, f: Bytes, cs: nat)
    requires |f| > 0 && cs > 0 && e.Receive? && SendsSlices(c, e, e.id, f, cs)
    requires Mendable(c, s, e.id, temp, f, cs) && e.id in s.transfers
    ensures e.id in Step(c, s, e).transfers && Announced(c, Step(c, s, e).transfers[e.id], temp, f, cs)
  {
    if Receivable(s, e.id, e.index) && c.hash(e.data) == e.chunkHash {
      var part := Min(e.io.written, |e.data|);
      SliceMends(s.files[temp], f, cs, s.transfers[e.id].done, e.index, part);
      assert part == |e.data| ==> e.data[..part] == e.data;
    }
    ReceiveEvolves(c, s, e.id, e.index, e.chunkHash, e.data, e.now, e.io);
    hide Remove, Rename, WriteAt, Mends, RetryLimit, Slice, DivCeil;
  }

  lemma OwnChunkKeepsFile(c: Config, s: State, e: Event, temp: Path, f: Bytes, cs: nat)
    requires |f| > 0 && cs > 0 && e.Receive? && SendsSlices(c, e, e.id, f, cs)
    requires Mendable(c, s, e.id, temp, f, cs) && e.id in s.transfers
    requires e.id in Step(c, s, e).transfers && |Step(c, s, e).transfers[e.id].done| == |s.transfers[e.id].done|
    ensures var s' := Step(c, s, e);
            var t' := s'.transfers[e.id];
            && (Active(t'.phase) ==> temp in s'.files && Mends(s'.files[temp], f, cs, t'.done) && !AllDone(t'.done))
            && (t'.phase.Failed? ==> t'.errors >= RetryLimit(t'.totalChunks))
            && (FullLength(s, e.id, temp, f) ==> FullLength(s', e.id, temp, f))
  {
    if Receivable(s, e.id, e.index) && c.hash(e.data) == e.chunkHash {
      var part := Min(e.io.written, |e.data|);
      SliceMends(s.files[temp], f, cs, s.transfers[e.id].done, e.index, part);
      assert part == |e.data| ==> e.data[..part] == e.data;
    }
    hide Remove, Rename, WriteAt, Mends, RetryLimit, Slice, DivCeil;
  }

  lemma OwnChunkKeeps(c: Config, s: State, e: Event, temp: Path, f: Bytes, cs: nat)
    requires |f| > 0 && cs > 0 && e.Receive? && SendsSlices(c, e, e.id, f, cs)
    requires Mendable(c, s, e.id, temp, f, cs)
    ensures Mendable(c, Step(c, s, e), e.id, temp, f, cs)
    ensures FullLength(s, e.id, temp, f) ==> FullLength(Step(c, s, e), e.id, temp, f)
  {
    if e.id in s.transfers {
      OwnChunkKeepsAnnouncement(c, s, e, temp, f, cs);
      OwnChunkKeepsFile(c, s, e, temp, f, cs);
    } else {
      UnknownChunk(c, s, e);
    }
    hide Step, Mends, DivCeil;
  }

  lemma OwnChunkAnswers(c: Config, s: State, e: Event, temp: Path, f: Bytes, cs: nat)
    requires |f| > 0 && cs > 0 && e.Receive? && SendsSlices(c, e, e.id, f, cs)
    requires Mendable(c, s, e.id, temp, f, cs)
    ensures Reply(c, s, e) != Err(HashMismatch)
    ensures Published(c, s, e).Some? ==> Published(c, s, e).value.content == f
    ensures Receivable(s, e.id, e.index) && c.hash(e.data) == e.chunkHash && Works(e.io, e.data)
            ==> Reply(c, s, e) == Ok(true)
  {
    if Receivable(s, e.id, e.index) && c.hash(e.data) == e.chunkHash {
      var part := Min(e.io.written, |e.data|);
      SliceMends(s.files[temp], f, cs, s.transfers[e.id].done, e.index, part);
      assert part == |e.data| ==> e.data[..part] == e.data;
    }
    hide Remove, WriteAt, Mends, RetryLimit, Slice, DivCeil;
  }

  /** A chunk of the upload keeps it assembling, never fails the whole-file hash, and publishes nothing but `f`. */
  lemma OwnChunkAssembles(c: Config, s: State, e: Event, temp: Path, f: Bytes, cs: nat)
    requires |f| > 0 && cs > 0 && e.Receive? && SendsSlices(c, e, e.id, f, cs)
    requires Assembling(c, s, e.id, temp, f, cs)
    ensures Assembling(c, Step(c, s, e), e.id, temp, f, cs)
    ensures Reply(c, s, e) != Err(HashMismatch)
    ensures Published(c, s, e).Some? ==> Published(c, s, e).value.content == f
    ensures Receivable(s, e.id, e.index) && c.hash(e.data) == e.chunkHash && Works(e.io, e.data)
            ==> Reply(c, s, e) == Ok(true)
  {
    AssemblingIsMendable(c, s, e.id, temp, f, cs);
    AssemblingIsMendable(c, Step(c, s, e), e.id, temp, f, cs);
    OwnChunkKeeps(c, s, e, temp, f, cs);
    OwnChunkAnswers(c, s, e, temp, f, cs);
    hide *;
  }

  /** Only its own chunks touch more of an upload than its phase and its time stamp. */
  lemma OthersKeepUpload(c: Config, s: State, e: Event, id: string)
    requires id in s.transfers && s.transfers[id].direction.Upload?
    requires !Starts(e, id) && !(e.Receive? && e.id == id)
    ensures id in Step(c, s, e).transfers ==>
              var t, t' := s.transfers[id], Step(c, s, e).transfers[id];
              && t' == t.(phase := t'.phase, lastActivity := t'.lastActivity)
              && (Active(t'.phase) ==> Active(t.phase)) && (t'.phase.Failed? ==> t.phase.Failed?)
  {
    hide ReceiveChunk, Remove, Rename, NewUpload, NewDownload;
    if e.Receive? && e.id in s.transfers {
      ReceiveEvolves(c, s, e.id, e.index, e.chunkHash, e.data, e.now, e.io);
    } else if e.Receive? {
      UnknownChunk(c, s, e);
    }
  }

  lemma StepMends(c: Config, s: State, e: Event, id: string, dir: string, f: Bytes, cs: nat)
    requires |f| > 0 && cs > 0
    requires SendsSlices(c, e, id, f, cs) && !Starts(e, id)
    requires WellFormed(s) && Mendable(c, s, id, TempPath(dir, id), f, cs)
    requires NoneElseAt(AsSeq(Published(c, s, e)), id, TempPath(dir, id))
    ensures Mendable(c, Step(c, s, e), id, TempPath(dir, id), f, cs)
    ensures FullLength(s, id, TempPath(dir, id), f) ==> FullLength(Step(c, s, e), id, TempPath(dir, id), f)
  {
    var temp, s' := TempPath(dir, id), Step(c, s, e);
    if e.Receive? && e.id == id {
      OwnChunkKeeps(c, s, e, temp, f, cs);
    } else if id !in s.transfers {
      UnstartedStaysOut(c, s, e, id);
    } else if id in s'.transfers {
      OthersKeepUpload(c, s, e, id);
      if Active(s'.transfers[id].phase) {
        if e.AbortOne? && e.id == id { AbortIsFinal(c, s, e, id); }
        OthersAtTemp(c, s, e, id, dir);
        PublishedIsOwn(c, s, e);
        assert Published(c, s, e).Some? ==> Published(c, s, e).value in AsSeq(Published(c, s, e));
        hide Step, Mends, Published;
      } else {
        hide Step, Mends, Published;
      }
    }
  }

  lemma OtherChunkLeavesTransfer(c: Config, s: State, e: Event, id: string)
    requires id in s.transfers && e.Receive? && e.id != id
    ensures id in Step(c, s, e).transfers && Step(c, s, e).transfers[id] == s.transfers[id]
  {
    if e.id in s.transfers {
      ReceiveEvolves(c, s, e.id, e.index, e.chunkHash, e.data, e.now, e.io);
    } else {
      UnknownChunk(c, s, e);
    }
    hide ReceiveChunk;
  }

  lemma AbortIsFinal(c: Config, s: State, e: Event, id: string)
    requires id in s.transfers && e.AbortOne? && e.id == id
    ensures !Active(Step(c, s, e).transfers[id].phase)
  {
  }

  lemma StepCountsDamage(c: Config, s: State, e: Event, id: string)
    requires id in s.transfers && s.transfers[id].direction.Upload? && !Starts(e, id)
    ensures id in Step(c, s, e).transfers ==>
              Step(c, s, e).transfers[id].errors
              <= s.transfers[id].errors + if DamagedChunk(c, e, id) then 1 else 0
  {
    if e.Receive? && e.id == id {
      hide WriteAt, RetryLimit, Rename, Remove;
    } else {
      OthersKeepUpload(c, s, e, id);
    }
  }

  /** No chunk of `id` is answered with a whole-file hash mismatch. */
  predicate NeverMismatched(c: Config, s: State, es: seq<Event>, id: string)
    decreases es
  {
    es != [] ==>
      && (es[0].Receive? && es[0].id == id ==> Reply(c, s, es[0]) != Err(HashMismatch))
      && NeverMismatched(c, Step(c, s, es[0]), es[1..], id)
  }

  ghost predicate PublishesOnly(pubs: seq<Publication>, id: string, f: Bytes) {
    forall i :: 0 <= i < |pubs| && pubs[i].id == id ==> pubs[i].content == f
  }

  lemma {:induction false} SlicesMend(
      c: Config, s: State, es: seq<Event>, id: string, dir: string, f: Bytes, cs: nat)
    requires |f| > 0 && cs > 0 && Client(c, es, id, f, cs)
    requires WellFormed(s) && Mendable(c, s, id, TempPath(dir, id), f, cs)
    requires NoneElseAt(Publications(c, s, es), id, TempPath(dir, id))
    ensures Mendable(c, Run(c, s, es), id, TempPath(dir, id), f, cs)
    ensures FullLength(s, id, TempPath(dir, id), f) ==> FullLength(Run(c, s, es), id, TempPath(dir, id), f)
    ensures NeverMismatched(c, s, es, id)
    ensures PublishesOnly(Publications(c, s, es), id, f)
    decreases es
  {
    hide Step, Reply, Published, Mendable, FullLength, WellFormed, Starts, SendsSlices, TempPath;
    if es != [] {
      var e, s', temp := es[0], Step(c, s, es[0]), TempPath(dir, id);
      assert Publications(c, s, es) == AsSeq(Published(c, s, e)) + Publications(c, s', es[1..]);
      StepMends(c, s, e, id, dir, f, cs);
      StepKeepsWellFormed(c, s, e);
      if e.Receive? && e.id == id { OwnChunkAnswers(c, s, e, temp, f, cs); }
      PublishedIsOwn(c, s, e);
      SlicesMend(c, s', es[1..], id, dir, f, cs);
    }
  }

  /** Over every run of client slices the upload assembles, is never answered with a mismatch, publishes only `f`. */
  lemma SlicesAssemble(
      c: Config, s: State, es: seq<Event>, id: string, dir: string, f: Bytes, cs: nat)
    requires |f| > 0 && cs > 0 && Client(c, es, id, f, cs)
    requires WellFormed(s) && Assembling(c, s, id, TempPath(dir, id), f, cs)
    requires NoneElseAt(Publications(c, s, es), id, TempPath(dir, id))
    ensures Assembling(c, Run(c, s, es), id, TempPath(dir, id), f, cs)
    ensures NeverMismatched(c, s, es, id)
    ensures PublishesOnly(Publications(c, s, es), id, f)
  {
    AssemblingIsMendable(c, s, id, TempPath(dir, id), f, cs);
    AssemblingIsMendable(c, Run(c, s, es), id, TempPath(dir, id), f, cs);
    SlicesMend(c, s, es, id, dir, f, cs);
    hide *;
  }

  lemma PublishedIsOwn(c: Config, s: State, e: Event)
    ensures Published(c, s, e).Some? ==> e.Receive? && Published(c, s, e).value.id == e.id
  {
    hide Step;
  }

  lemma {:induction false} DamageIsCounted(c: Config, s: State, es: seq<Event>, id: string)
    requires id in s.transfers && s.transfers[id].direction.Upload? && NeverStarts(es, id)
    ensures id in Run(c, s, es).transfers ==>
              Run(c, s, es).transfers[id].errors <= s.transfers[id].errors + DamagedChunks(c, es, id)
    decreases es
  {
    hide Step;
    if es != [] {
      var s' := Step(c, s, es[0]);
      StepCountsDamage(c, s, es[0], id);
      StepEvolves(c, s, es[0], id);
      if id in s'.transfers { DamageIsCounted(c, s', es[1..], id); } else { GoneStaysGone(c, s', es[1..], id); }
    }
  }

  ghost predicate PublishedAt(pubs: seq<Publication>, id: string, path: Path) {
    exists i :: 0 <= i < |pubs| && pubs[i].id == id && pubs[i].path == path
  }

  lemma {:induction false} EverCompleteIsPublished(c: Config, s: State, es: seq<Event>, id: string)
    requires WellFormed(s) && NeverStarts(es, id)
    requires id in s.transfers && s.transfers[id].direction.Upload? && !CompleteUpload(s, id)
    requires EverComplete(c, s, es, id)
    ensures PublishedAt(Publications(c, s, es), id, s.transfers[id].path)
    decreases es
  {
    hide Step, Published;
    var s' := Step(c, s, es[0]);
    StepKeepsWellFormed(c, s, es[0]);
    StepEvolves(c, s, es[0], id);
    if id !in s'.transfers {
      GoneNeverCompletes(c, s', es[1..], id);
    } else if CompleteUpload(s', id) {
      StepCompletes(c, s, es[0], id);
      assert Publications(c, s, es)[0] == Published(c, s, es[0]).value;
    } else {
      EverCompleteIsPublished(c, s', es[1..], id);
      var rest := Publications(c, s', es[1..]);
      var i :| 0 <= i < |rest| && rest[i].id == id && rest[i].path == s.transfers[id].path;
      var first := AsSeq(Published(c, s, es[0]));
      assert Publications(c, s, es) == first + rest;
      assert (first + rest)[|first| + i] == rest[i];
    }
  }

  lemma {:induction false} GoneNeverCompletes(c: Config, s: State, es: seq<Event>, id: string)
    requires id !in s.transfers && NeverStarts(es, id)
    ensures !EverComplete(c, s, es, id)
    decreases es
  {
    hide Step;
    if es != [] {
      UnstartedStaysOut(c, s, es[0], id);
      GoneNeverCompletes(c, Step(c, s, es[0]), es[1..], id);
    }
  }

  // ----- The upload of a file -----

  /** The start announces `f` as a client would: its size, its hash or none, and a chunk count that fits. */
  predicate Announces(c: Config, start: Event, f: Bytes) {
    && start.StartUpload? && start.req.fileSize == |f| && start.req.fileHash in {"", c.hash(f)}
    && |f| > 0 && DivCeil(|f|, UploadChunkSize(start.req.chunkSize)) < U32
  }

  lemma StartAssembles(c: Config, s: State, start: Event, f: Bytes)
    requires Announces(c, start, f) && AcceptsUpload(c, s, start)
    ensures var s' := Step(c, s, start);
            && start.id in s'.transfers && s'.transfers[start.id] == NewUpload(start.req, start.id, start.now)
            && s'.transfers[start.id].totalChunks > 0
            && Assembling(c, s', start.id, TempPath(start.req.dir, start.id), f, UploadChunkSize(start.req.chunkSize))
  {
    LastChunk(|f|, UploadChunkSize(start.req.chunkSize));
    var done := NewUpload(start.req, start.id, start.now).done;
    assert |done| > 0 && !done[0];
  }

  /**
   Every run after the start in which the client sends slices of `f`, in any order and as often as it likes,
   and no other upload ends at the temp file, never fails the whole-file hash; it fails at all only by too many
   damaged chunks; and once every chunk has been acknowledged, `f` has been put at the final path.
   */
  lemma UploadDeliversFile(c: Config, s: State, start: Event, es: seq<Event>, f: Bytes)
    requires WellFormed(s) && Announces(c, start, f) && AcceptsUpload(c, s, start)
    requires Client(c, es, start.id, f, UploadChunkSize(start.req.chunkSize))
    requires NoneElseAt(Publications(c, Step(c, s, start), es), start.id, TempPath(start.req.dir, start.id))
    ensures var s1, id := Step(c, s, start), start.id;
            && NeverMismatched(c, s1, es, id)
            && PublishesOnly(Publications(c, s1, es), id, f)
            && (DamagedChunks(c, es, id) < RetryLimit(start.req.totalChunks) ==>
                  id in Run(c, s1, es).transfers ==> !Run(c, s1, es).transfers[id].phase.Failed?)
            && ((forall i :: 0 <= i < start.req.totalChunks ==> i in Delivered(c, s1, es, id)) ==>
                  Publication(id, Path(start.req.dir, start.req.filename), f) in Publications(c, s1, es))
  {
    var s1, id := Step(c, s, start), start.id;
    var path, cs := Path(start.req.dir, start.req.filename), UploadChunkSize(start.req.chunkSize);
    StartAssembles(c, s, start, f);
    StepKeepsWellFormed(c, s, start);
    hide Step, Agrees;
    SlicesAssemble(c, s1, es, id, start.req.dir, f, cs);
    DamageIsCounted(c, s1, es, id);
    RunEvolves(c, s1, es, id);
    var pubs := Publications(c, s1, es);
    if forall i :: 0 <= i < start.req.totalChunks ==> i in Delivered(c, s1, es, id) {
      assert !s1.transfers[id].done[0];
      AllDeliveredCompletes(c, s1, es, id);
      EverCompleteIsPublished(c, s1, es, id);
      var i :| 0 <= i < |pubs| && pubs[i].id == id && pubs[i].path == path;
      assert pubs[i] == Publication(id, path, f);
    }
  }
}
