/**
 Every handler, run without interruption, is a run of its locked sections; so
 every run of whole handlers is one of the interleavings.
 */
module TransferRefinement {
  import opened Basics
  import opened Chunks
  import opened Transfers
  import opened TransferRuns
  import opened TransferSections

  /** The sections that follow the last chunk, for the temp file's hash. */
  function FinalSections(actual: string, expected: string, io: Io): seq<Section> {
    if !io.hashes then [GiveUp(0)]
    else if expected != "" && actual != expected then [FailFinal(0)]
    else
      var last := if io.renames then CompleteFinal(0) else GiveUp(0);
      if expected == "" then [AdoptHash(0, actual), last] else [last]
  }

  function ReceiveSections(c: Config, s: State, e: Event): seq<Section>
    requires e.Receive?
  {
    if !Receivable(s, e.id, e.index) then [] else
      var t := s.transfers[e.id];
      var check := CheckReceive(0, e.id, e.index, |e.data|);
      if c.hash(e.data) != e.chunkHash then [check, RejectChunk(0, e.now)]
      else if t.temp.None? || t.temp.value !in s.files || !e.io.opens || !Writes(e.io, e.data) then [check, GiveUp(0)]
      else if !AllDone(Marked(t.done, e.index)) then [check, StoreChunk(0, e.now)]
      else
        var content := WriteAt(s.files[t.temp.value], e.index * t.chunkSize, e.data[..Min(e.io.written, |e.data|)]);
        [check, StoreChunk(0, e.now)] + FinalSections(c.hash(content), t.fileHash, e.io)
  }

  function SectionsOf(c: Config, s: State, e: Event): seq<Section> {
    match e
    case StartUpload(id, req, env, now) =>
      if InitUpload(c, s, req, id, env, now).1.Ok? then [Insert(id, NewUpload(req, id, now))] else []
    case StartDownload(id, path, requested, env, now) =>
      if !DividesByZero(c, s, path, requested, env) && InitDownload(c, s, path, requested, id, env, now).1.Ok?
      then [Insert(id, NewDownload(c, path, s.files[path], DownloadChunkSize(c, requested), env.mtime, now))] else []
    case Receive(_, _, _, _, _, _) => ReceiveSections(c, s, e)
    case Serve(id, index, stat, readable, now) =>
      if ServeChunk(s, id, index, stat, readable, now).1.Ok?
      then [CheckServe(0, id, index), CountServed(0, now)] else []
    case ResumeOne(id, now) => [ResumeSection(id, now)]
    case AbortOne(id, _) => [AbortSection(id)]
    case Pause => [PauseSection]
    case Sweep(now, _) => [SweepSection(now, c.staleTimeout)]
  }

  lemma Two(m: Table, a: Section, b: Section)
    ensures Interleaved(m, [a, b]) == Next(Next(m, a), b)
  {
    hide Next;
    assert [a, b][1..] == [b] && [b][1..] == [];
    assert Interleaved(Next(m, a), [b]) == Next(Next(m, a), b);
  }

  lemma {:induction false} InterleavedOfJoin(m: Table, a: seq<Section>, b: seq<Section>)
    ensures Interleaved(m, a + b) == Interleaved(Interleaved(m, a), b)
    decreases a
  {
    hide Next;
    if a == [] {
      assert a + b == b;
    } else {
      assert (a + b)[1..] == a[1..] + b;
      InterleavedOfJoin(Next(m, a[0]), a[1..], b);
    }
  }

  /** The table at rest: no request is under way. */
  predicate Rests(m: Table, s: State) { m.transfers == s.transfers && m.jobs == map[] }

  lemma FinalIsSections(c: Config, s: State, id: string, temp: Path, final: Path, expected: string, io: Io, m: Table)
    requires id in s.transfers && temp in s.files
    requires m.transfers == s.transfers && m.jobs == map[0 := Finalizing(id, expected)]
    ensures var m' := Interleaved(m, FinalSections(c.hash(s.files[temp]), expected, io));
            Rests(m', Finalize(c, s, id, temp, expected, final, io).0) && m'.used == m.used
  {
    var actual := c.hash(s.files[temp]);
    var last := if io.renames then CompleteFinal(0) else GiveUp(0);
    hide Rename, Remove, MarkReceived, MarkServed, NoteBadHash, Resume, Abort, PauseAll, StaleIds, Receivable, Servable;
    if io.hashes && expected == "" {
      Two(m, AdoptHash(0, actual), last);
      assert Next(m, AdoptHash(0, actual)) == At(m, id, m.transfers[id].(fileHash := actual));
    }
  }

  lemma ReceiveIsSections(c: Config, s: State, e: Event, m: Table)
    requires e.Receive? && Rests(m, s)
    ensures var m' := Interleaved(m, ReceiveSections(c, s, e));
            Rests(m', Step(c, s, e)) && m'.used == m.used
  {
    hide WriteAt, RetryLimit, Finalize, FinalSections, AllDone, Marked;
    if Receivable(s, e.id, e.index) {
      var t := s.transfers[e.id];
      var check, store := CheckReceive(0, e.id, e.index, |e.data|), StoreChunk(0, e.now);
      Two(m, check, RejectChunk(0, e.now));
      Two(m, check, GiveUp(0));
      Two(m, check, store);
      if c.hash(e.data) == e.chunkHash && t.temp.Some? && t.temp.value in s.files && e.io.opens
         && Writes(e.io, e.data) && AllDone(Marked(t.done, e.index)) {
        LastChunkIsSections(c, s, e, m);
      }
    }
  }

  lemma LastChunkIsSections(c: Config, s: State, e: Event, m: Table)
    requires e.Receive? && Rests(m, s) && Receivable(s, e.id, e.index) && c.hash(e.data) == e.chunkHash
    requires var t := s.transfers[e.id];
             && t.temp.Some? && t.temp.value in s.files && e.io.opens && Writes(e.io, e.data)
             && AllDone(Marked(t.done, e.index))
    ensures var m' := Interleaved(m, ReceiveSections(c, s, e));
            Rests(m', Step(c, s, e)) && m'.used == m.used
  {
    var t := s.transfers[e.id];
    var temp, store := t.temp.value, [CheckReceive(0, e.id, e.index, |e.data|), StoreChunk(0, e.now)];
    var landed := WriteAt(s.files[temp], e.index * t.chunkSize, e.data[..Min(e.io.written, |e.data|)]);
    var s1 := State(s.transfers[e.id := MarkReceived(t, e.index, |e.data|, e.now)], s.files[temp := landed]);
    var m1 := Interleaved(m, store);
    hide WriteAt, RetryLimit, Finalize, FinalSections;
    Two(m, store[0], store[1]);
    assert m1.transfers == s1.transfers && m1.jobs == map[0 := Finalizing(e.id, t.fileHash)] && m1.used == m.used;
    FinalIsSections(c, s1, e.id, temp, t.path, t.fileHash, e.io, m1);
    InterleavedOfJoin(m, store, FinalSections(c.hash(landed), t.fileHash, e.io));
  }

  function Started(e: Event): set<string> { if e.StartUpload? || e.StartDownload? then {e.id} else {} }

  lemma ServeIsSections(c: Config, s: State, e: Event, m: Table)
    requires e.Serve? && Rests(m, s)
    ensures var m' := Interleaved(m, SectionsOf(c, s, e));
            Rests(m', Step(c, s, e)) && m'.used == m.used
  {
    hide AllDone, Marked, ChunkLen, ReceiveChunk, ReadExact, Resume, Abort, PauseAll, StaleIds;
    Two(m, CheckServe(0, e.id, e.index), CountServed(0, e.now));
  }

  lemma StartIsSection(c: Config, s: State, e: Event, m: Table)
    requires Started(e) != {} && Rests(m, s) && Started(e) !! m.used
    ensures var m' := Interleaved(m, SectionsOf(c, s, e));
            Rests(m', Step(c, s, e)) && m'.used <= m.used + Started(e)
  {
    hide NewUpload, NewDownload, Remove, Resume, Abort, PauseAll, StaleIds;
    hide Receivable, Servable, UploadRefusal, DownloadRefusal;
  }

  lemma OneIsSection(c: Config, s: State, e: Event, m: Table)
    requires e.ResumeOne? || e.AbortOne? || e.Pause? || e.Sweep?
    requires Rests(m, s)
    ensures var m' := Interleaved(m, SectionsOf(c, s, e));
            Rests(m', Step(c, s, e)) && m'.used == m.used
  {
    hide Remove, DoneIndices, Receivable, Servable;
  }

  /** A handler that runs alone changes the table as its sections do. */
  lemma HandlerIsSections(c: Config, s: State, e: Event, m: Table)
    requires Rests(m, s) && Started(e) !! m.used
    ensures var m' := Interleaved(m, SectionsOf(c, s, e));
            Rests(m', Step(c, s, e)) && m'.used <= m.used + Started(e)
  {
    if e.Receive? {
      ReceiveIsSections(c, s, e, m);
    } else if e.Serve? {
      ServeIsSections(c, s, e, m);
    } else if Started(e) != {} {
      StartIsSection(c, s, e, m);
    } else {
      OneIsSection(c, s, e, m);
    }
    hide Step, Next, ReceiveSections;
  }

  /** Start ids are fresh, as random UUIDs are taken to be. */
  predicate FreshStarts(es: seq<Event>, used: set<string>)
    decreases es
  {
    es != [] ==> Started(es[0]) !! used && FreshStarts(es[1..], used + Started(es[0]))
  }

  lemma {:induction false} FreshForFewer(es: seq<Event>, used: set<string>, used': set<string>)
    requires FreshStarts(es, used') && used <= used'
    ensures FreshStarts(es, used)
    decreases es
  {
    if es != [] { FreshForFewer(es[1..], used + Started(es[0]), used' + Started(es[0])); }
  }

  function SectionsOfRun(c: Config, s: State, es: seq<Event>): seq<Section>
    decreases es
  {
    if es == [] then [] else SectionsOf(c, s, es[0]) + SectionsOfRun(c, Step(c, s, es[0]), es[1..])
  }

  /** Every run of whole handlers leaves the table that the run of their sections leaves. */
  lemma {:induction false} RunsAreInterleavings(c: Config, s: State, es: seq<Event>, m: Table)
    requires Rests(m, s) && FreshStarts(es, m.used)
    ensures Rests(Interleaved(m, SectionsOfRun(c, s, es)), Run(c, s, es))
    decreases es
  {
    hide Step, Next, SectionsOf;
    if es != [] {
      HandlerIsSections(c, s, es[0], m);
      var m' := Interleaved(m, SectionsOf(c, s, es[0]));
      FreshForFewer(es[1..], m'.used, m.used + Started(es[0]));
      RunsAreInterleavings(c, Step(c, s, es[0]), es[1..], m');
      InterleavedOfJoin(m, SectionsOf(c, s, es[0]), SectionsOfRun(c, Step(c, s, es[0]), es[1..]));
    }
  }
}
