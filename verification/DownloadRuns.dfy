/**
 Downloads: what is served, how it is counted, and what resuming leaves to fetch.
 */
module DownloadRuns {
  import opened Basics
  import opened Chunks
  import opened Transfers
  import opened TransferRuns

  // ----- Counting -----

  /** The summed length of the done chunks among the first `k`. */
  function DoneBytes(size: nat, cs: nat, done: seq<bool>, k: nat): nat
    requires k <= |done|
  {
    if k == 0 then 0
    else DoneBytes(size, cs, done, k - 1) + if done[k - 1] then ChunkLen(size, cs, k - 1) else 0
  }

  function BytesOf(t: Transfer): nat { DoneBytes(t.fileSize, t.chunkSize, t.done, |t.done|) }

  lemma {:induction false} MarkingAddsLength(size: nat, cs: nat, done: seq<bool>, k: nat, i: nat)
    requires k <= |done| && i < |done| && !done[i]
    ensures DoneBytes(size, cs, done[i := true], k)
         == DoneBytes(size, cs, done, k) + if i < k then ChunkLen(size, cs, i) else 0
  {
    if k > 0 { MarkingAddsLength(size, cs, done, k - 1, i); }
  }

  /** A step serves a chunk that was already done. */
  predicate RepeatsNow(c: Config, s: State, e: Event, id: string) {
    var a := Acked(c, s, e, id);
    id in s.transfers && a.Some? && a.value < |s.transfers[id].done| && s.transfers[id].done[a.value]
  }

  function RepeatedNow(c: Config, s: State, e: Event, id: string): nat {
    if RepeatsNow(c, s, e, id)
    then ChunkLen(s.transfers[id].fileSize, s.transfers[id].chunkSize, Acked(c, s, e, id).value) else 0
  }

  function RepeatedBytes(c: Config, s: State, es: seq<Event>, id: string): nat
    decreases es
  {
    if es == [] then 0
    else RepeatedNow(c, s, es[0], id) + RepeatedBytes(c, Step(c, s, es[0]), es[1..], id)
  }

  predicate NoneRepeats(c: Config, s: State, es: seq<Event>, id: string)
    decreases es
  {
    es != [] ==> !RepeatsNow(c, s, es[0], id) && NoneRepeats(c, Step(c, s, es[0]), es[1..], id)
  }

  lemma StepAccounts(c: Config, s: State, e: Event, id: string)
    requires id in s.transfers && s.transfers[id].direction.Download? && OwnTemp(id, s.transfers[id])
    requires !Starts(e, id)
    ensures id in Step(c, s, e).transfers ==>
              var t, t' := s.transfers[id], Step(c, s, e).transfers[id];
              t'.bytes + BytesOf(t) == t.bytes + BytesOf(t') + RepeatedNow(c, s, e, id)
  {
    var t, s' := s.transfers[id], Step(c, s, e);
    if id in s'.transfers {
      StepEvolves(c, s, e, id);
      if e.Serve? && e.id == id {
        if e.index < |t.done| && !t.done[e.index] {
          MarkingAddsLength(t.fileSize, t.chunkSize, t.done, |t.done|, e.index);
        } else if e.index < |t.done| {
          assert t.done[e.index := true] == t.done;
        }
        hide DoneBytes, ReceiveChunk, ChunkLen;
      } else {
        OthersKeepCount(c, s, e, id);
        hide DoneBytes, Step;
      }
    }
  }

  lemma OthersKeepCount(c: Config, s: State, e: Event, id: string)
    requires id in s.transfers && s.transfers[id].direction.Download?
    requires !Starts(e, id) && !(e.Serve? && e.id == id)
    ensures id in Step(c, s, e).transfers ==>
              s.transfers[id].bytes == Step(c, s, e).transfers[id].bytes
              && s.transfers[id].done == Step(c, s, e).transfers[id].done
    ensures Acked(c, s, e, id).None?
  {
    if e.Receive? && e.id in s.transfers && e.id != id {
      ReceiveEvolves(c, s, e.id, e.index, e.chunkHash, e.data, e.now, e.io);
      hide ReceiveChunk;
    } else if e.Receive? && e.id != id {
      UnknownChunk(c, s, e);
    } else {
      hide WriteAt, Finalize, Remove, NewUpload, NewDownload;
    }
  }

  /** Over every run: bytes counted = bytes of done chunks + bytes of chunks served again. */
  lemma {:induction false} BytesAreAccounted(c: Config, s: State, es: seq<Event>, id: string)
    requires WellFormed(s) && NeverStarts(es, id)
    requires id in s.transfers && s.transfers[id].direction.Download?
    ensures id in Run(c, s, es).transfers ==>
              var t, t' := s.transfers[id], Run(c, s, es).transfers[id];
              t'.bytes + BytesOf(t) == t.bytes + BytesOf(t') + RepeatedBytes(c, s, es, id)
    decreases es
  {
    hide Step, RepeatedNow, BytesOf;
    if es != [] {
      var s' := Step(c, s, es[0]);
      StepKeepsWellFormed(c, s, es[0]);
      StepAccounts(c, s, es[0], id);
      StepEvolves(c, s, es[0], id);
      if id in s'.transfers { BytesAreAccounted(c, s', es[1..], id); } else { GoneStaysGone(c, s', es[1..], id); }
    }
  }

  lemma {:induction false} RepeatsCost(c: Config, s: State, es: seq<Event>, id: string)
    requires id in s.transfers && NeverStarts(es, id)
    requires var t := s.transfers[id];
             t.fileSize > 0 && t.chunkSize > 0 && |t.done| == DivCeil(t.fileSize, t.chunkSize)
    ensures RepeatedBytes(c, s, es, id) == 0 <==> NoneRepeats(c, s, es, id)
    decreases es
  {
    hide Step, Acked, ChunkLen, DivCeil;
    if es != [] {
      var s' := Step(c, s, es[0]);
      ChunksTile(s.transfers[id].fileSize, s.transfers[id].chunkSize);
      StepEvolves(c, s, es[0], id);
      if id in s'.transfers { RepeatsCost(c, s', es[1..], id); } else { GoneRepeatsNothing(c, s', es[1..], id); }
    }
  }

  lemma {:induction false} GoneRepeatsNothing(c: Config, s: State, es: seq<Event>, id: string)
    requires id !in s.transfers && NeverStarts(es, id)
    ensures RepeatedBytes(c, s, es, id) == 0 && NoneRepeats(c, s, es, id)
    decreases es
  {
    hide Step, Acked;
    if es != [] {
      UnstartedStaysOut(c, s, es[0], id);
      GoneRepeatsNothing(c, Step(c, s, es[0]), es[1..], id);
    }
  }

  lemma {:induction false} NothingDone(size: nat, cs: nat, done: seq<bool>, k: nat)
    requires k <= |done| && forall i :: 0 <= i < |done| ==> !done[i]
    ensures DoneBytes(size, cs, done, k) == 0
  {
    if k > 0 { NothingDone(size, cs, done, k - 1); }
  }

  predicate AcceptsDownload(c: Config, s: State, e: Event) {
    && e.StartDownload? && !DividesByZero(c, s, e.path, e.requested, e.downloadEnv)
    && InitDownload(c, s, e.path, e.requested, e.id, e.downloadEnv, e.now).1.Ok?
  }

  lemma StartIsFresh(c: Config, s: State, start: Event)
    requires AcceptsDownload(c, s, start)
    ensures start.path in s.files
    ensures var s', f, cs := Step(c, s, start), s.files[start.path], DownloadChunkSize(c, start.requested);
            && s'.files == s.files && start.id in s'.transfers
            && var t := s'.transfers[start.id];
               && t.direction.Download? && t.path == start.path && t.fileSize == |f| && t.chunkSize == cs
               && (|f| > 0 ==> cs > 0) && |t.done| == t.totalChunks == ComputeChunks(|f|, cs)
               && t.phase.Transferring? && t.bytes == 0 && (forall i :: 0 <= i < |t.done| ==> !t.done[i])
  {
    hide ComputeChunks;
  }

  /** From the start on, the count is at least the done chunks' length, and equal exactly when none was served twice. */
  lemma CountIsDoneUnlessRepeated(c: Config, s: State, start: Event, es: seq<Event>)
    requires WellFormed(s) && AcceptsDownload(c, s, start) && NeverStarts(es, start.id)
    requires var f, cs := s.files[start.path], DownloadChunkSize(c, start.requested);
             |f| > 0 && DivCeil(|f|, cs) < U32
    ensures var s1, id := Step(c, s, start), start.id;
            id in Run(c, s1, es).transfers ==>
              var t := Run(c, s1, es).transfers[id];
              && t.bytes == BytesOf(t) + RepeatedBytes(c, s1, es, id)
              && (t.bytes == BytesOf(t) <==> NoneRepeats(c, s1, es, id))
  {
    var s1, id := Step(c, s, start), start.id;
    StepKeepsWellFormed(c, s, start);
    StartIsFresh(c, s, start);
    hide Step, Run, RepeatedBytes, NoneRepeats;
    var t := s1.transfers[id];
    NothingDone(t.fileSize, t.chunkSize, t.done, |t.done|);
    BytesAreAccounted(c, s1, es, id);
    RepeatsCost(c, s1, es, id);
  }

  // ----- Content -----

  /** Every chunk of `id` that is served is the slice of `f` at its index. */
  predicate ServesSlices(c: Config, s: State, es: seq<Event>, id: string, f: Bytes, cs: nat)
    decreases es
  {
    es != [] ==>
      && (es[0].Serve? && es[0].id == id ==>
            var r := ServeChunk(s, id, es[0].index, es[0].stat, es[0].readable, es[0].now).1;
            r.Ok? ==> r.value == Slice(f, cs, es[0].index))
      && ServesSlices(c, Step(c, s, es[0]), es[1..], id, f, cs)
  }

  lemma ServedIsSlice(s: State, id: string, index: nat, stat: Stat, readable: bool, now: nat)
    requires id in s.transfers && s.transfers[id].path in s.files
    requires s.transfers[id].fileSize == |s.files[s.transfers[id].path]|
    ensures var r := ServeChunk(s, id, index, stat, readable, now).1;
            r.Ok? ==> r.value == Slice(s.files[s.transfers[id].path], s.transfers[id].chunkSize, index)
  {
    var t := s.transfers[id];
    var len := ChunkLen(t.fileSize, t.chunkSize, index);
    assert len == |Slice(s.files[t.path], t.chunkSize, index)|;
  }

  ghost predicate NothingPublishedAt(pubs: seq<Publication>, p: Path) {
    forall i :: 0 <= i < |pubs| ==> pubs[i].path != p
  }

  /** As long as no upload replaces the source, every served chunk is the slice of the file as it was at the start. */
  lemma {:induction false} DownloadsServeTheFile(
      c: Config, s: State, es: seq<Event>, id: string, path: Path, f: Bytes, cs: nat)
    requires WellFormed(s) && NeverStarts(es, id) && NoTempAt(s, path) && AllTempsElsewhere(es, path)
    requires Lookup(s.files, path) == Some(f)
    requires id in s.transfers ==>
               s.transfers[id].path == path && s.transfers[id].fileSize == |f| && s.transfers[id].chunkSize == cs
    requires NothingPublishedAt(Publications(c, s, es), path)
    ensures ServesSlices(c, s, es, id, f, cs)
    decreases es
  {
    hide Published, ServeChunk;
    if es != [] {
      var e, s' := es[0], Step(c, s, es[0]);
      StepKeepsWellFormed(c, s, e);
      StepPublishes(c, s, e, path);
      StepKeepsNoTemp(c, s, e, path);
      var rest := Publications(c, s', es[1..]);
      assert Publications(c, s, es) == AsSeq(Published(c, s, e)) + rest;
      assert NothingPublishedAt(rest, path) by {
        forall i | 0 <= i < |rest| ensures rest[i].path != path {
          assert (AsSeq(Published(c, s, e)) + rest)[|AsSeq(Published(c, s, e))| + i] == rest[i];
        }
      }
      assert Published(c, s, e).Some? ==> Publications(c, s, es)[0] == Published(c, s, e).value;
      assert Lookup(s'.files, path) == Some(f);
      if id in s.transfers {
        StepEvolves(c, s, e, id);
        if e.Serve? && e.id == id { ServedIsSlice(s, id, e.index, e.stat, e.readable, e.now); }
      } else {
        UnstartedStaysOut(c, s, e, id);
        if e.Serve? && e.id == id { UnknownServe(s, e); }
      }
      hide Step;
      DownloadsServeTheFile(c, s', es[1..], id, path, f, cs);
    }
  }

  lemma UnknownServe(s: State, e: Event)
    requires e.Serve? && e.id !in s.transfers
    ensures ServeChunk(s, e.id, e.index, e.stat, e.readable, e.now).1.Err?
  {
  }

  // ----- Resuming -----

  /** The list names exactly the done chunks, in increasing order. */
  lemma {:induction false} ResumeListsDone(done: seq<bool>, k: nat)
    requires k <= |done|
    ensures var list := DoneIndices(done, k);
            && (forall i :: i in list <==> 0 <= i < k && done[i])
            && (forall a, b :: 0 <= a < b < |list| ==> list[a] < list[b])
  {
    if k > 0 {
      ResumeListsDone(done, k - 1);
      var before := DoneIndices(done, k - 1);
      var list := before + if done[k - 1] then [k - 1] else [];
      assert list == DoneIndices(done, k);
      hide DoneIndices;
      forall a, b | 0 <= a < b < |list| ensures list[a] < list[b] {
        assert list[a] == before[a] && before[a] in before;
      }
    }
  }

  /** Fetching the chunks that a resume did not list completes the download. */
  lemma ServingTheRestCompletes(c: Config, s: State, id: string, now: nat, es: seq<Event>)
    requires WellFormed(s) && NeverStarts(es, id)
    requires Resume(s, id, now).1.Ok? && !AllDone(s.transfers[id].done)
    requires var list := Resume(s, id, now).1.value;
             forall i :: 0 <= i < s.transfers[id].totalChunks ==>
               i in list || i in Delivered(c, Resume(s, id, now).0, es, id)
    ensures EverComplete(c, Resume(s, id, now).0, es, id)
  {
    var t := s.transfers[id];
    ResumeListsDone(t.done, |t.done|);
    StepKeepsWellFormed(c, s, ResumeOne(id, now));
    AllDeliveredCompletes(c, Resume(s, id, now).0, es, id);
  }
}
