/**
 Runs of the transfer manager: what every sequence of handler calls keeps,
 what lands at the final paths, and when a transfer is bound to complete.
 */
module TransferRuns {
  import opened Basics
  import opened Chunks
  import opened Transfers

  datatype Event =
    | StartUpload(id: string, req: UploadRequest, uploadEnv: UploadEnv, now: nat)
    | StartDownload(id: string, path: Path, requested: Option<nat>, downloadEnv: DownloadEnv, now: nat)
    | Receive(id: string, index: nat, chunkHash: string, data: Bytes, now: nat, io: Io)
    | Serve(id: string, index: nat, stat: Stat, readable: bool, now: nat)
    | ResumeOne(id: string, now: nat)
    | AbortOne(id: string, stuck: set<Path>)
    | Pause
    | Sweep(now: nat, stuck: set<Path>)

  /** A download that divides by zero dies before it touches the table. */
  function Step(c: Config, s: State, e: Event): State {
    match e
    case StartUpload(id, req, env, now) => InitUpload(c, s, req, id, env, now).0
    case StartDownload(id, path, requested, env, now) =>
      if DividesByZero(c, s, path, requested, env) then s else InitDownload(c, s, path, requested, id, env, now).0
    case Receive(id, index, chunkHash, data, now, io) => ReceiveChunk(c, s, id, index, chunkHash, data, now, io).0
    case Serve(id, index, stat, readable, now) => ServeChunk(s, id, index, stat, readable, now).0
    case ResumeOne(id, now) => Resume(s, id, now).0
    case AbortOne(id, stuck) => Abort(s, id, stuck).0
    case Pause => PauseAll(s)
    case Sweep(now, stuck) => SweepStale(c, s, now, stuck).0
  }

  function Run(c: Config, s: State, es: seq<Event>): State
    decreases es
  {
    if es == [] then s else Run(c, Step(c, s, es[0]), es[1..])
  }

  /** The server answers one request. */
  method Handle(m: TransferManager, e: Event)
    modifies m
    ensures m.View() == Step(m.config, old(m.View()), e)
  {
    match e {
      case StartUpload(id, req, env, now) =>
        var _ := m.InitiateUpload(req, id, env, now);
      case StartDownload(id, path, requested, env, now) =>
        if !DividesByZero(m.config, m.View(), path, requested, env) {
          var _ := m.InitiateDownload(path, requested, id, env, now);
        }
      case Receive(id, index, chunkHash, data, now, io) =>
        var _ := m.Receive(id, index, chunkHash, data, now, io);
      case Serve(id, index, stat, readable, now) =>
        var _ := m.Serve(id, index, stat, readable, now);
      case ResumeOne(id, now) =>
        var _ := m.ResumeTransfer(id, now);
      case AbortOne(id, stuck) =>
        var _ := m.AbortTransfer(id, stuck);
      case Pause =>
        m.PauseEverything();
      case Sweep(now, stuck) =>
        var _ := m.Sweep(now, stuck);
    }
  }

  method HandleAll(m: TransferManager, es: seq<Event>)
    modifies m
    ensures m.View() == Run(m.config, old(m.View()), es)
  {
    hide Step;
    for k := 0 to |es|
      invariant Run(m.config, m.View(), es[k..]) == Run(m.config, old(m.View()), es)
    {
      assert es[k..][0] == es[k] && es[k..][1..] == es[k + 1..];
      Handle(m, es[k]);
    }
  }

  lemma {:induction false} RunOfJoin(c: Config, s: State, a: seq<Event>, b: seq<Event>)
    ensures Run(c, s, a + b) == Run(c, Run(c, s, a), b)
    decreases a
  {
    hide Step;
    if a == [] {
      assert a + b == b;
    } else {
      assert (a + b)[1..] == a[1..] + b;
      RunOfJoin(c, Step(c, s, a[0]), a[1..], b);
    }
  }

  predicate Starts(e: Event, id: string) { (e.StartUpload? || e.StartDownload?) && e.id == id }

  predicate NeverStarts(es: seq<Event>, id: string) { forall i :: 0 <= i < |es| ==> !Starts(es[i], id) }

  // ----- What every step keeps -----

  ghost predicate WellFormed(s: State) { forall id :: id in s.transfers ==> OwnTemp(id, s.transfers[id]) }

  predicate OwnTemp(id: string, t: Transfer) {
    && |t.done| == t.totalChunks
    && t.temp == (if t.direction.Upload? then Some(TempPath(t.path.dir, id)) else None)
  }

  /** What no handler changes about a transfer, and the directions in which it may change. */
  predicate Evolves(t: Transfer, t': Transfer) {
    && t'.direction == t.direction && t'.path == t.path && t'.temp == t.temp
    && t'.fileSize == t.fileSize && t'.chunkSize == t.chunkSize && t'.totalChunks == t.totalChunks
    && (t.fileHash != "" || !Active(t.phase) ==> t'.fileHash == t.fileHash)
    && |t'.done| == |t.done| && (forall i :: 0 <= i < |t.done| && t.done[i] ==> t'.done[i])
    && (Active(t'.phase) ==> Active(t.phase))
  }

  lemma EvolvesTransitively(a: Transfer, b: Transfer, c: Transfer)
    requires Evolves(a, b) && Evolves(b, c)
    ensures Evolves(a, c)
  {
  }

  lemma ReceiveEvolves(
      c: Config, s: State, id: string, index: nat, chunkHash: string, data: Bytes, now: nat, io: Io)
    requires id in s.transfers
    ensures var s' := ReceiveChunk(c, s, id, index, chunkHash, data, now, io).0;
            id in s'.transfers && s'.transfers == s.transfers[id := s'.transfers[id]]
            && Evolves(s.transfers[id], s'.transfers[id])
  {
    hide WriteAt, RetryLimit, Rename, Remove, AllDone;
  }

  lemma StepEvolves(c: Config, s: State, e: Event, id: string)
    requires id in s.transfers && !Starts(e, id)
    ensures id in Step(c, s, e).transfers ==> Evolves(s.transfers[id], Step(c, s, e).transfers[id])
  {
    hide ReceiveChunk, Remove, Rename, NewUpload, NewDownload;
    if e.Receive? && e.id in s.transfers {
      ReceiveEvolves(c, s, e.id, e.index, e.chunkHash, e.data, e.now, e.io);
    } else if e.Receive? {
      UnknownChunk(c, s, e);
    }
  }

  lemma UnknownChunk(c: Config, s: State, e: Event)
    requires e.Receive? && e.id !in s.transfers
    ensures Step(c, s, e) == s
  {
  }

  /** An id that is not in the table only comes back by being started. */
  lemma UnstartedStaysOut(c: Config, s: State, e: Event, id: string)
    requires id !in s.transfers && !Starts(e, id)
    ensures id !in Step(c, s, e).transfers
  {
    hide ReceiveChunk, Remove, Rename, NewUpload, NewDownload;
    if e.Receive? && e.id in s.transfers {
      ReceiveEvolves(c, s, e.id, e.index, e.chunkHash, e.data, e.now, e.io);
    } else if e.Receive? {
      UnknownChunk(c, s, e);
    }
  }

  lemma {:induction false} GoneStaysGone(c: Config, s: State, es: seq<Event>, id: string)
    requires id !in s.transfers && NeverStarts(es, id)
    ensures id !in Run(c, s, es).transfers
    decreases es
  {
    hide Step;
    if es != [] {
      UnstartedStaysOut(c, s, es[0], id);
      GoneStaysGone(c, Step(c, s, es[0]), es[1..], id);
    }
  }

  lemma StepKeepsWellFormed(c: Config, s: State, e: Event)
    requires WellFormed(s)
    ensures WellFormed(Step(c, s, e))
  {
    var s' := Step(c, s, e);
    forall id | id in s'.transfers ensures OwnTemp(id, s'.transfers[id]) {
      if id in s.transfers && !Starts(e, id) {
        StepEvolves(c, s, e, id);
      } else {
        StartedIsWellFormed(c, s, e, id);
      }
    }
  }

  lemma StartedIsWellFormed(c: Config, s: State, e: Event, id: string)
    requires WellFormed(s) && (Starts(e, id) || id !in s.transfers)
    ensures id in Step(c, s, e).transfers ==> OwnTemp(id, Step(c, s, e).transfers[id])
  {
    hide ReceiveChunk, Remove, Rename, ComputeChunks;
    if e.Receive? && e.id in s.transfers {
      ReceiveEvolves(c, s, e.id, e.index, e.chunkHash, e.data, e.now, e.io);
    } else if e.Receive? {
      UnknownChunk(c, s, e);
    }
  }

  // ----- Final paths -----

  /** Content that an upload put at its final path. */
  datatype Publication = Publication(id: string, path: Path, content: Bytes)

  function Lookup(files: map<Path, Bytes>, p: Path): Option<Bytes> {
    if p in files then Some(files[p]) else None
  }

  predicate CompleteUpload(s: State, id: string) {
    id in s.transfers && s.transfers[id].direction.Upload? && s.transfers[id].phase.Complete?
  }

  /** What a step puts at a final path: seen from outside, an upload turns complete and its file is there. */
  function Published(c: Config, s: State, e: Event): Option<Publication> {
    var s' := Step(c, s, e);
    if e.Receive? && !CompleteUpload(s, e.id) && CompleteUpload(s', e.id) && s'.transfers[e.id].path in s'.files
    then Some(Publication(e.id, s'.transfers[e.id].path, s'.files[s'.transfers[e.id].path]))
    else None
  }

  function Publications(c: Config, s: State, es: seq<Event>): seq<Publication>
    decreases es
  {
    if es == [] then [] else
      var first := Published(c, s, es[0]);
      (if first.Some? then [first.value] else []) + Publications(c, Step(c, s, es[0]), es[1..])
  }

  /** No transfer has its temp file at `p`, and none gets it there. */
  predicate NoTempAt(s: State, p: Path) {
    forall id :: id in s.transfers ==> s.transfers[id].temp != Some(p)
  }

  predicate TempsElsewhere(e: Event, p: Path) { e.StartUpload? ==> TempPath(e.req.dir, e.id) != p }

  predicate AllTempsElsewhere(es: seq<Event>, p: Path) {
    forall i :: 0 <= i < |es| ==> TempsElsewhere(es[i], p)
  }

  /** So it is with every path that is not named like a temp file. */
  lemma OrdinaryPath(s: State, es: seq<Event>, p: Path)
    requires WellFormed(s) && !(TEMP_PREFIX <= p.name)
    ensures NoTempAt(s, p) && AllTempsElsewhere(es, p)
  {
    assert forall id :: id in s.transfers ==> OwnTemp(id, s.transfers[id]);
  }

  lemma StepKeepsNoTemp(c: Config, s: State, e: Event, p: Path)
    requires WellFormed(s) && NoTempAt(s, p) && TempsElsewhere(e, p)
    ensures NoTempAt(Step(c, s, e), p)
  {
    var s' := Step(c, s, e);
    forall id | id in s'.transfers ensures s'.transfers[id].temp != Some(p) {
      if Starts(e, id) {
        StartedTemp(c, s, e);
      } else if id in s.transfers {
        StepEvolves(c, s, e, id);
      } else {
        UnstartedStaysOut(c, s, e, id);
      }
    }
  }

  lemma StartedTemp(c: Config, s: State, e: Event)
    requires e.StartUpload? || e.StartDownload?
    ensures var s' := Step(c, s, e);
            e.id in s'.transfers ==>
              || (e.id in s.transfers && s'.transfers[e.id] == s.transfers[e.id])
              || s'.transfers[e.id].temp == if e.StartUpload? then Some(TempPath(e.req.dir, e.id)) else None
  {
    hide ComputeChunks, Remove;
  }

  /** The last content published at `p`, or what was there before. */
  function LastAt(pubs: seq<Publication>, p: Path, before: Option<Bytes>): Option<Bytes> {
    if pubs == [] then before
    else LastAt(pubs[1..], p, if pubs[0].path == p then Some(pubs[0].content) else before)
  }

  lemma ReceivePublishes(c: Config, s: State, e: Event, p: Path)
    requires e.Receive? && e.id in s.transfers && s.transfers[e.id].temp != Some(p)
    ensures var s' := Step(c, s, e);
            && Lookup(s'.files, p) == LastAt(
                 if Published(c, s, e).Some? then [Published(c, s, e).value] else [], p, Lookup(s.files, p))
            && (CompleteUpload(s', e.id) && !CompleteUpload(s, e.id) ==>
                  Published(c, s, e).Some? && c.hash(Published(c, s, e).value.content) == s'.transfers[e.id].fileHash)
  {
    hide WriteAt, RetryLimit;
  }

  function AsSeq(p: Option<Publication>): seq<Publication> { if p.Some? then [p.value] else [] }

  lemma StepPublishes(c: Config, s: State, e: Event, p: Path)
    requires NoTempAt(s, p) && TempsElsewhere(e, p)
    ensures Lookup(Step(c, s, e).files, p) == LastAt(AsSeq(Published(c, s, e)), p, Lookup(s.files, p))
  {
    if e.Receive? && e.id in s.transfers {
      ReceivePublishes(c, s, e, p);
    } else if e.Receive? {
      UnknownChunk(c, s, e);
    } else {
      hide ReceiveChunk, NewUpload, NewDownload, TempPath;
    }
  }

  lemma {:induction false} LastAtOfJoin(a: seq<Publication>, b: seq<Publication>, p: Path, before: Option<Bytes>)
    ensures LastAt(a + b, p, before) == LastAt(b, p, LastAt(a, p, before))
  {
    if a == [] {
      assert a + b == b;
    } else {
      assert (a + b)[1..] == a[1..] + b;
      LastAtOfJoin(a[1..], b, p, if a[0].path == p then Some(a[0].content) else before);
    }
  }

  /** Over every run a path where no temp file is holds what was last published there, else what it held at first. */
  lemma {:induction false} FinalPathsChangeOnlyByPublication(c: Config, s: State, es: seq<Event>, p: Path)
    requires WellFormed(s) && NoTempAt(s, p) && AllTempsElsewhere(es, p)
    ensures Lookup(Run(c, s, es).files, p) == LastAt(Publications(c, s, es), p, Lookup(s.files, p))
    decreases es
  {
    if es != [] {
      var s' := Step(c, s, es[0]);
      StepKeepsWellFormed(c, s, es[0]);
      StepKeepsNoTemp(c, s, es[0], p);
      hide Step, Published;
      FinalPathsChangeOnlyByPublication(c, s', es[1..], p);
      StepPublishes(c, s, es[0], p);
      LastAtOfJoin(AsSeq(Published(c, s, es[0])), Publications(c, s', es[1..]), p, Lookup(s.files, p));
    }
  }

  /** An upload turns complete only by publishing content with the hash it then carries. */
  lemma StepCompletes(c: Config, s: State, e: Event, id: string)
    requires WellFormed(s) && CompleteUpload(Step(c, s, e), id) && !CompleteUpload(s, id)
    ensures var pub := Published(c, s, e);
            && id in s.transfers && pub.Some? && pub.value.id == id
            && pub.value.path == Step(c, s, e).transfers[id].path
            && c.hash(pub.value.content) == Step(c, s, e).transfers[id].fileHash
  {
    if e.Receive? && e.id in s.transfers {
      ReceivePublishes(c, s, e, Path("", ""));
      ReceiveEvolves(c, s, e.id, e.index, e.chunkHash, e.data, e.now, e.io);
      hide ReceiveChunk, LastAt;
    } else if e.Receive? {
      UnknownChunk(c, s, e);
    } else {
      hide ReceiveChunk, Remove, Rename, ComputeChunks;
    }
  }

  lemma StartedIsNotComplete(c: Config, s: State, e: Event, id: string)
    requires id in s.transfers && CompleteUpload(s, id) && CompleteUpload(Step(c, s, e), id)
    requires Starts(e, id)
    ensures Step(c, s, e).transfers[id] == s.transfers[id]
  {
    hide ComputeChunks;
  }

  ghost predicate PublishedWithHash(c: Config, pubs: seq<Publication>, id: string, path: Path, h: string) {
    exists pub :: pub in pubs && pub.id == id && pub.path == path && c.hash(pub.content) == h
  }

  lemma StepKeepsCompletesPublished(c: Config, s: State, pubs: seq<Publication>, e: Event, id: string)
    requires WellFormed(s) && CompleteUpload(Step(c, s, e), id)
    requires CompleteUpload(s, id) ==>
               PublishedWithHash(c, pubs, id, s.transfers[id].path, s.transfers[id].fileHash)
    ensures var t := Step(c, s, e).transfers[id];
            PublishedWithHash(c, pubs + AsSeq(Published(c, s, e)), id, t.path, t.fileHash)
  {
    var t' := Step(c, s, e).transfers[id];
    if CompleteUpload(s, id) {
      if Starts(e, id) { StartedIsNotComplete(c, s, e, id); } else { StepEvolves(c, s, e, id); }
      var pub :| pub in pubs && pub.id == id && pub.path == t'.path && c.hash(pub.content) == t'.fileHash;
      hide Step, Published;
      assert pub in pubs + AsSeq(Published(c, s, e));
    } else {
      StepCompletes(c, s, e, id);
      var pub := Published(c, s, e);
      hide Step, Published;
      assert pub.value in pubs + AsSeq(pub);
    }
  }

  /** In every run, whatever lengths and contents were sent, a complete upload has published content with its hash. */
  lemma {:induction false} CompleteUploadsArePublished(
      c: Config, s: State, pubs: seq<Publication>, es: seq<Event>, id: string)
    requires WellFormed(s)
    requires CompleteUpload(s, id) ==>
               PublishedWithHash(c, pubs, id, s.transfers[id].path, s.transfers[id].fileHash)
    ensures CompleteUpload(Run(c, s, es), id) ==>
              var t := Run(c, s, es).transfers[id];
              PublishedWithHash(c, pubs + Publications(c, s, es), id, t.path, t.fileHash)
    decreases es
  {
    hide Step, Published, PublishedWithHash;
    if es == [] {
      assert pubs + [] == pubs;
    } else {
      var s' := Step(c, s, es[0]);
      var pubs' := pubs + AsSeq(Published(c, s, es[0]));
      StepKeepsWellFormed(c, s, es[0]);
      if CompleteUpload(s', id) {
        StepKeepsCompletesPublished(c, s, pubs, es[0], id);
      }
      CompleteUploadsArePublished(c, s', pubs', es[1..], id);
      assert pubs' + Publications(c, s', es[1..]) == pubs + Publications(c, s, es);
    }
  }

  ghost predicate Injective(hash: Bytes -> string) {
    forall a, b :: hash(a) == hash(b) ==> a == b
  }

  lemma {:induction false} RunEvolves(c: Config, s: State, es: seq<Event>, id: string)
    requires id in s.transfers && NeverStarts(es, id)
    ensures id in Run(c, s, es).transfers ==> Evolves(s.transfers[id], Run(c, s, es).transfers[id])
    decreases es
  {
    hide Step;
    if es != [] {
      var s' := Step(c, s, es[0]);
      StepEvolves(c, s, es[0], id);
      if id in s'.transfers {
        RunEvolves(c, s', es[1..], id);
        if id in Run(c, s', es[1..]).transfers {
          EvolvesTransitively(s.transfers[id], s'.transfers[id], Run(c, s', es[1..]).transfers[id]);
        }
      } else {
        GoneStaysGone(c, s', es[1..], id);
      }
    }
  }

  predicate AcceptsUpload(c: Config, s: State, e: Event) {
    e.StartUpload? && InitUpload(c, s, e.req, e.id, e.uploadEnv, e.now).1.Ok?
  }

  /** An upload announced with the hash of `f` that is complete at the end of a run put exactly `f` at its path. */
  lemma CompleteUploadIsExact(c: Config, s: State, start: Event, es: seq<Event>, f: Bytes)
    requires Injective(c.hash) && WellFormed(s)
    requires AcceptsUpload(c, s, start) && start.req.fileHash == c.hash(f) != ""
    requires NeverStarts(es, start.id)
    requires CompleteUpload(Run(c, Step(c, s, start), es), start.id)
    ensures Publication(start.id, Path(start.req.dir, start.req.filename), f)
              in Publications(c, Step(c, s, start), es)
  {
    var id, s1 := start.id, Step(c, s, start);
    StepKeepsWellFormed(c, s, start);
    assert !CompleteUpload(s1, id) && s1.transfers[id].fileHash == c.hash(f);
    var path := s1.transfers[id].path;
    assert path == Path(start.req.dir, start.req.filename);
    hide Step, Run, Publications;
    RunEvolves(c, s1, es, id);
    CompleteUploadsArePublished(c, s1, [], es, id);
    var pubs := Publications(c, s1, es);
    assert [] + pubs == pubs;
    var pub :| pub in pubs && pub.id == id && pub.path == path && c.hash(pub.content) == c.hash(f);
    assert pub == Publication(id, path, f);
  }

  // ----- Stopping, pausing, resuming -----

  lemma StepKeepsStopped(c: Config, s: State, e: Event, id: string)
    requires id in s.transfers && !Active(s.transfers[id].phase) && !Starts(e, id)
    ensures id in Step(c, s, e).transfers ==>
              var t, t' := s.transfers[id], Step(c, s, e).transfers[id];
              t' == t || t' == t.(phase := Aborted)
  {
    if e.Receive? && e.id in s.transfers && e.id != id {
      ReceiveEvolves(c, s, e.id, e.index, e.chunkHash, e.data, e.now, e.io);
      hide ReceiveChunk;
    } else if e.Receive? && e.id != id {
      UnknownChunk(c, s, e);
    } else {
      hide WriteAt, Finalize, Remove, NewUpload, NewDownload;
    }
  }

  /** With whole handlers a transfer that has stopped stays exactly as it is, but for being aborted. */
  lemma {:induction false} StoppedIsFinal(c: Config, s: State, es: seq<Event>, id: string)
    requires id in s.transfers && !Active(s.transfers[id].phase) && NeverStarts(es, id)
    ensures id in Run(c, s, es).transfers ==>
              var t, t' := s.transfers[id], Run(c, s, es).transfers[id];
              t' == t || t' == t.(phase := Aborted)
    decreases es
  {
    hide Step;
    if es != [] {
      var s' := Step(c, s, es[0]);
      StepKeepsStopped(c, s, es[0], id);
      if id in s'.transfers { StoppedIsFinal(c, s', es[1..], id); } else { GoneStaysGone(c, s', es[1..], id); }
    }
  }

  /** Pausing everything and resuming one transfer gives back that transfer, and changes no file. */
  lemma PauseThenResume(s: State, id: string, now: nat)
    requires id in s.transfers && s.transfers[id].phase in {Init, Transferring, Paused}
    ensures var (s', r) := Resume(PauseAll(s), id, now);
            && r.Ok? && s'.files == s.files
            && id in s'.transfers
            && s'.transfers[id] == s.transfers[id].(phase := Transferring, lastActivity := now)
            && (forall k :: k in s.transfers && k != id ==>
                  k in s'.transfers && !(s'.transfers[k].phase in {Init, Transferring})
                  && (Active(s'.transfers[k].phase) <==> Active(s.transfers[k].phase)))
  {
    hide DoneIndices;
  }

  // ----- Completion -----

  /** The chunk of `id` that a step acknowledged, if it did. */
  function Acked(c: Config, s: State, e: Event, id: string): Option<nat> {
    if e.Receive? && e.id == id
       && ReceiveChunk(c, s, id, e.index, e.chunkHash, e.data, e.now, e.io).1 == Ok(true) then Some(e.index)
    else if e.Serve? && e.id == id
       && ServeChunk(s, id, e.index, e.stat, e.readable, e.now).1.Ok? then Some(e.index)
    else None
  }

  function Delivered(c: Config, s: State, es: seq<Event>, id: string): set<nat>
    decreases es
  {
    if es == [] then {} else
      var first := Acked(c, s, es[0], id);
      (if first.Some? then {first.value} else {}) + Delivered(c, Step(c, s, es[0]), es[1..], id)
  }

  lemma {:induction false} DeliveredOfJoin(c: Config, s: State, a: seq<Event>, b: seq<Event>, id: string)
    ensures Delivered(c, s, a + b, id) == Delivered(c, s, a, id) + Delivered(c, Run(c, s, a), b, id)
    decreases a
  {
    hide Step, Acked;
    if a == [] {
      assert a + b == b;
    } else {
      assert (a + b)[1..] == a[1..] + b;
      DeliveredOfJoin(c, Step(c, s, a[0]), a[1..], b, id);
    }
  }

  predicate EverComplete(c: Config, s: State, es: seq<Event>, id: string)
    decreases es
  {
    || (id in s.transfers && s.transfers[id].phase.Complete?)
    || (es != [] && EverComplete(c, Step(c, s, es[0]), es[1..], id))
  }

  lemma ReceiveAcks(c: Config, s: State, e: Event)
    requires e.Receive? && e.id in s.transfers && OwnTemp(e.id, s.transfers[e.id])
    ensures var t, a, s' := s.transfers[e.id], Acked(c, s, e, e.id), Step(c, s, e);
            && e.id in s'.transfers && var t' := s'.transfers[e.id];
            && (a.Some? ==>
                  && Active(t.phase) && t'.done == Marked(t.done, a.value)
                  && t'.phase == if AllDone(t'.done) then Complete else t.phase)
            && (a.None? && Active(t'.phase) ==> t'.done == t.done)
  {
    hide WriteAt, RetryLimit, Rename, Remove;
  }

  lemma StepAcks(c: Config, s: State, e: Event, id: string)
    requires id in s.transfers && OwnTemp(id, s.transfers[id]) && !Starts(e, id)
    ensures var t, a, s' := s.transfers[id], Acked(c, s, e, id), Step(c, s, e);
            && (a.Some? ==> id in s'.transfers)
            && (id in s'.transfers ==> var t' := s'.transfers[id];
                  && (a.Some? ==>
                        && Active(t.phase) && t'.done == Marked(t.done, a.value)
                        && t'.phase == if AllDone(t'.done) then Complete else t.phase)
                  && (a.None? && Active(t'.phase) ==> t'.done == t.done))
  {
    if e.Receive? && e.id == id {
      ReceiveAcks(c, s, e);
    } else if e.Receive? && e.id in s.transfers {
      ReceiveEvolves(c, s, e.id, e.index, e.chunkHash, e.data, e.now, e.io);
    } else if e.Receive? {
      UnknownChunk(c, s, e);
    } else {
      hide ReceiveChunk, Remove, Rename, NewUpload, NewDownload;
    }
  }

  lemma {:induction false} InactiveDeliversNothing(c: Config, s: State, es: seq<Event>, id: string)
    requires id in s.transfers ==> !Active(s.transfers[id].phase)
    requires WellFormed(s) && NeverStarts(es, id)
    ensures Delivered(c, s, es, id) == {}
    decreases es
  {
    if es != [] {
      StepKeepsWellFormed(c, s, es[0]);
      if id in s.transfers {
        StepAcks(c, s, es[0], id);
        StepEvolves(c, s, es[0], id);
      } else {
        UnstartedStaysOut(c, s, es[0], id);
      }
      InactiveDeliversNothing(c, Step(c, s, es[0]), es[1..], id);
    }
  }

  /** Only chunks below the chunk count are acknowledged. */
  lemma {:induction false} DeliveredInRange(c: Config, s: State, es: seq<Event>, id: string)
    requires WellFormed(s) && id in s.transfers && NeverStarts(es, id)
    ensures forall i :: i in Delivered(c, s, es, id) ==> i < s.transfers[id].totalChunks
    decreases es
  {
    if es != [] {
      var s' := Step(c, s, es[0]);
      StepKeepsWellFormed(c, s, es[0]);
      AckedInRange(c, s, es[0], id);
      StepEvolves(c, s, es[0], id);
      hide Step, Acked;
      if id in s'.transfers {
        DeliveredInRange(c, s', es[1..], id);
      } else {
        InactiveDeliversNothing(c, s', es[1..], id);
      }
    }
  }

  lemma AckedInRange(c: Config, s: State, e: Event, id: string)
    requires id in s.transfers
    ensures Acked(c, s, e, id).Some? ==> Acked(c, s, e, id).value < s.transfers[id].totalChunks
  {
    hide WriteAt, Finalize;
  }

  /** Chunks in any order, with repeats, pauses, errors and other transfers between: all acknowledged, it completes. */
  lemma {:induction false} AllDeliveredCompletes(c: Config, s: State, es: seq<Event>, id: string)
    requires WellFormed(s) && NeverStarts(es, id)
    requires id in s.transfers && Active(s.transfers[id].phase) && !AllDone(s.transfers[id].done)
    requires forall i :: 0 <= i < s.transfers[id].totalChunks ==>
               s.transfers[id].done[i] || i in Delivered(c, s, es, id)
    ensures EverComplete(c, s, es, id)
    decreases es
  {
    var t := s.transfers[id];
    var i :| 0 <= i < t.totalChunks && !t.done[i];
    assert i in Delivered(c, s, es, id);
    var s' := Step(c, s, es[0]);
    StepKeepsWellFormed(c, s, es[0]);
    StepAcks(c, s, es[0], id);
    hide Step, Acked;
    if id !in s'.transfers || !Active(s'.transfers[id].phase) {
      InactiveDeliversNothing(c, s', es[1..], id);
    } else {
      StepEvolves(c, s, es[0], id);
      if !AllDone(s'.transfers[id].done) {
        AllDeliveredCompletes(c, s', es[1..], id);
      }
    }
  }
}
