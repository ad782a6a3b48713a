/**
 Whole handlers and the interleaved file: what a handler does to the table and
 to the temp file of one upload is a run of the moves between sections.
 */
module TransferFiles {
  import opened Basics
  import opened Chunks
  import opened Transfers
  import opened TransferRuns
  import opened UploadRuns
  import opened TransferSections
  import opened TransferRefinement
  import opened TransferContents

  function LockedAll(es: seq<Section>): seq<Move> {
    if es == [] then [] else [Locked(es[0])] + LockedAll(es[1..])
  }

  function RemovalOf(temp: Path, stuck: set<Path>): seq<Move> { if temp in stuck then [] else [RemoveTemp] }

  /** The moves that follow the last chunk. */
  function FinalMoves(actual: string, expected: string, temp: Path, io: Io): seq<Move> {
    if !io.hashes then [Locked(GiveUp(0))]
    else if expected != "" && actual != expected then RemovalOf(temp, io.stuck) + [Locked(FailFinal(0))]
    else
      (if expected == "" then [Locked(AdoptHash(0, actual))] else [])
      + (if io.renames then [RenameTemp(0), Locked(CompleteFinal(0))]
         else RemovalOf(temp, io.stuck) + [Locked(GiveUp(0))])
  }

  /** Let in, open, write. */
  function Written(e: Event): seq<Move>
    requires e.Receive?
  {
    [Locked(CheckReceive(0, e.id, e.index, |e.data|)), OpenTemp(0, e.data), WritePart(0, e.io.written)]
  }

  function OwnMoves(c: Config, s: State, e: Event, temp: Path): seq<Move>
    requires e.Receive?
  {
    if !Receivable(s, e.id, e.index) then []
    else if c.hash(e.data) != e.chunkHash then LockedAll(ReceiveSections(c, s, e))
    else if temp !in s.files || !e.io.opens then LockedAll(ReceiveSections(c, s, e))
    else if !Writes(e.io, e.data) then Written(e) + [Locked(GiveUp(0))]
    else
      var t := s.transfers[e.id];
      var stored := Written(e) + [Locked(StoreChunk(0, e.now))];
      if !AllDone(Marked(t.done, e.index)) then stored
      else
        var content := WriteAt(s.files[temp], e.index * t.chunkSize, e.data[..Min(e.io.written, |e.data|)]);
        stored + FinalMoves(c.hash(content), t.fileHash, temp, e.io)
  }

  /** The moves of a handler, as far as they concern the upload `id`. */
  function MovesOf(c: Config, s: State, e: Event, id: string, temp: Path): seq<Move> {
    if e.Receive? && e.id == id then OwnMoves(c, s, e, temp)
    else LockedAll(SectionsOf(c, s, e)) + if temp in s.files && temp !in Step(c, s, e).files then [RemoveTemp] else []
  }

  /** Between handlers: the same table, and the same temp file as long as it is one. */
  ghost predicate Matches(d: Disk, s: State, id: string, temp: Path, cs: nat) {
    && Rests(d.table, s) && d.handles == map[]
    && (id in s.transfers ==>
          var t := s.transfers[id];
          && (d.place == AtTemp ==> Lookup(s.files, temp) == Some(d.file))
          && t.direction.Upload? && t.temp == Some(temp) && t.path != temp && t.chunkSize == cs
          && (Active(t.phase) ==> d.place == AtTemp))
  }

  // ----- Moves and sections -----

  lemma {:induction false} MovedOfJoin(d: Disk, id: string, cs: nat, a: seq<Move>, b: seq<Move>)
    ensures Moved(d, id, cs, a + b) == Moved(Moved(d, id, cs, a), id, cs, b)
    decreases a
  {
    hide After;
    if a == [] {
      assert a + b == b;
    } else {
      assert (a + b)[1..] == a[1..] + b;
      MovedOfJoin(After(d, id, cs, a[0]), id, cs, a[1..], b);
    }
  }

  lemma JustMove(d: Disk, id: string, cs: nat, e: Move)
    ensures Moved(d, id, cs, [e]) == After(d, id, cs, e)
  {
    hide After;
    assert [e][1..] == [];
  }

  predicate NoneOf(m: Table, id: string) { forall j :: j in m.jobs ==> m.jobs[j].id != id }

  predicate LetsInOther(e: Section, id: string) { e.CheckReceive? || e.CheckServe? ==> e.id != id }

  lemma NextLetsNone(m: Table, e: Section, id: string)
    requires NoneOf(m, id) && LetsInOther(e, id)
    ensures NoneOf(Next(m, e), id)
  {
    hide NoteBadHash, MarkReceived, MarkServed, ChunkLen, AllDone, Resume, Abort, PauseAll, StaleIds;
  }

  /** Sections of others move the table and nothing else. */
  lemma {:induction false} LockedAllMoves(d: Disk, id: string, cs: nat, es: seq<Section>)
    requires NoneOf(d.table, id) && d.handles == map[] && forall i :: 0 <= i < |es| ==> LetsInOther(es[i], id)
    ensures Moved(d, id, cs, LockedAll(es)) == d.(table := Interleaved(d.table, es))
    decreases es
  {
    if es != [] {
      var d' := After(d, id, cs, Locked(es[0]));
      assert d' == d.(table := Next(d.table, es[0])) by { hide Next; }
      NextLetsNone(d.table, es[0], id);
      assert LockedAll(es)[1..] == LockedAll(es[1..]);
      hide Next, After, NoneOf;
      LockedAllMoves(d', id, cs, es[1..]);
    }
  }

  // ----- Handlers of others, and those that write no chunk -----

  lemma SectionsAreOthers(c: Config, s: State, e: Event, id: string)
    requires !(e.Receive? && e.id == id) && (id in s.transfers ==> s.transfers[id].direction.Upload?)
    ensures forall i :: 0 <= i < |SectionsOf(c, s, e)| ==> LetsInOther(SectionsOf(c, s, e)[i], id)
  {
    hide InitUpload, InitDownload, WriteAt, DividesByZero, Writes;
  }

  lemma OtherMoved(c: Config, s: State, e: Event, d: Disk, id: string, temp: Path, cs: nat)
    requires NoneOf(d.table, id) && d.handles == map[] && !(e.Receive? && e.id == id)
    requires id in s.transfers ==> s.transfers[id].direction.Upload?
    ensures var removes := temp in s.files && temp !in Step(c, s, e).files;
            Moved(d, id, cs, MovesOf(c, s, e, id, temp))
            == d.(table := Interleaved(d.table, SectionsOf(c, s, e)),
                  place := if removes && d.place == AtTemp then Removed else d.place)
  {
    var secs, removes := SectionsOf(c, s, e), temp in s.files && temp !in Step(c, s, e).files;
    SectionsAreOthers(c, s, e, id);
    hide Step, SectionsOf, Interleaved, Next;
    LockedAllMoves(d, id, cs, secs);
    if removes {
      MovedOfJoin(d, id, cs, LockedAll(secs), [RemoveTemp]);
      JustMove(Moved(d, id, cs, LockedAll(secs)), id, cs, RemoveTemp);
      hide Moved;
    } else {
      assert LockedAll(secs) + [] == LockedAll(secs);
    }
  }

  lemma OtherIsMoves(c: Config, s: State, e: Event, d: Disk, id: string, dir: string, cs: nat)
    requires WellFormed(s) && Matches(d, s, id, TempPath(dir, id), cs) && Started(e) !! d.table.used
    requires !Starts(e, id) && !(e.Receive? && e.id == id)
    requires NoneElseAt(AsSeq(TransferRuns.Published(c, s, e)), id, TempPath(dir, id))
    ensures var d' := Moved(d, id, cs, MovesOf(c, s, e, id, TempPath(dir, id)));
            && Matches(d', Step(c, s, e), id, TempPath(dir, id), cs)
            && d'.table.used <= d.table.used + Started(e) && d'.file == d.file
  {
    hide Step, SectionsOf, Moved, MovesOf, Interleaved, TempPath, WellFormed, Started, Starts;
    OtherMoved(c, s, e, d, id, TempPath(dir, id), cs);
    HandlerIsSections(c, s, e, d.table);
    if id in s.transfers {
      StepEvolves(c, s, e, id);
      OtherAtTemp(c, s, e, id, dir);
    } else {
      UnstartedStaysOut(c, s, e, id);
    }
  }

  /** What is not the upload's own chunk keeps its temp file or, stopping the upload, removes it. */
  lemma OtherAtTemp(c: Config, s: State, e: Event, id: string, dir: string)
    requires WellFormed(s) && id in s.transfers && !Starts(e, id) && !(e.Receive? && e.id == id)
    requires NoneElseAt(AsSeq(TransferRuns.Published(c, s, e)), id, TempPath(dir, id))
    requires s.transfers[id].temp == Some(TempPath(dir, id))
    ensures var temp, s' := TempPath(dir, id), Step(c, s, e);
            || Lookup(s'.files, temp) == Lookup(s.files, temp)
            || (Lookup(s'.files, temp) == None && (id in s'.transfers ==> !Active(s'.transfers[id].phase)))
  {
    var temp, s' := TempPath(dir, id), Step(c, s, e);
    if e.AbortOne? && e.id == id {
      AbortedAtTemp(c, s, e, temp);
    } else if e.Sweep? && id !in s'.transfers {
      SweptAtTemp(c, s, e, id, dir);
    } else {
      OthersAtTemp(c, s, e, id, dir);
      PublishedIsOwn(c, s, e);
      var pub := TransferRuns.Published(c, s, e);
      assert pub.Some? ==> pub.value in AsSeq(pub);
    }
    hide Step, TransferRuns.Published, TempPath, WellFormed;
  }

  lemma AbortedAtTemp(c: Config, s: State, e: Event, temp: Path)
    requires e.AbortOne? && e.id in s.transfers && s.transfers[e.id].temp == Some(temp)
    ensures var s' := Step(c, s, e);
            && (Lookup(s'.files, temp) == Lookup(s.files, temp) || Lookup(s'.files, temp) == None)
            && e.id in s'.transfers && !Active(s'.transfers[e.id].phase)
  {
  }

  lemma SweptAtTemp(c: Config, s: State, e: Event, id: string, dir: string)
    requires e.Sweep?
    ensures var temp, s' := TempPath(dir, id), Step(c, s, e);
            Lookup(s'.files, temp) == Lookup(s.files, temp) || Lookup(s'.files, temp) == None
  {
    hide TempPath;
  }

  // ----- The upload's own chunks -----

  /** After check, open and write. */
  lemma WrittenMoves(s: State, e: Event, d: Disk, temp: Path)
    requires e.Receive? && Receivable(s, e.id, e.index) && d.place == AtTemp && d.handles == map[] && Rests(d.table, s)
    ensures var t := s.transfers[e.id];
            var offset, check := e.index * t.chunkSize, CheckReceive(0, e.id, e.index, |e.data|);
            Moved(d, e.id, t.chunkSize, Written(e))
            == Disk(Next(d.table, check),
                    WriteAt(d.file, offset, e.data[..Min(e.io.written, |e.data|)]), AtTemp,
                    map[0 := Handle(offset, e.data, e.io.written >= |e.data|)])
            && Next(d.table, check).jobs == map[0 := Receiving(e.id, e.index, |e.data|, t.fileHash)]
            && Next(d.table, check).transfers == s.transfers && Next(d.table, check).used == d.table.used
  {
    var t, ms := s.transfers[e.id], Written(e);
    var d1 := After(d, e.id, t.chunkSize, ms[0]);
    assert d1.table.jobs == map[0 := Receiving(e.id, e.index, |e.data|, t.fileHash)];
    var d2 := After(d1, e.id, t.chunkSize, ms[1]);
    assert d2 == d1.(handles := map[0 := Handle(e.index * t.chunkSize, e.data, false)]);
    var d3 := After(d2, e.id, t.chunkSize, ms[2]);
    hide Next, WriteAt;
    assert d3.handles == map[0 := Handle(e.index * t.chunkSize, e.data, e.io.written >= |e.data|)];
    hide After;
    assert ms == [ms[0]] + ([ms[1]] + [ms[2]]);
    MoveOne(d, e.id, t.chunkSize, ms[0], [ms[1]] + [ms[2]]);
    MoveOne(d1, e.id, t.chunkSize, ms[1], [ms[2]]);
    JustMove(d2, e.id, t.chunkSize, ms[2]);
  }

  /** A section of job 0 that may run, with nobody else at work. */
  lemma LockedMove(d: Disk, id: string, cs: nat, e: Section)
    requires MayRun(d, id, e) && forall j :: j in d.handles ==> !ReceivingAt(Next(d.table, e), j, id)
    ensures Moved(d, id, cs, [Locked(e)]) == d.(table := Next(d.table, e), handles := map[])
  {
    hide Next;
    JustMove(d, id, cs, Locked(e));
  }

  lemma NoJobAfter(m: Table, e: Section)
    requires m.jobs.Keys == {0}
    requires e == GiveUp(0) || (e.StoreChunk? && e.job == 0 && m.jobs[0].Receiving?)
    ensures forall j, id :: !ReceivingAt(Next(m, e), j, id)
  {
    hide NoteBadHash, MarkReceived, AllDone;
  }

  /** The place the file is at after the moves that follow the last chunk. */
  function FinalPlace(actual: string, expected: string, temp: Path, io: Io): Place {
    if !io.hashes then AtTemp
    else if (expected == "" || actual == expected) && io.renames then AtFinal(0)
    else if temp in io.stuck then AtTemp
    else Removed
  }

  lemma FinalMoved(d: Disk, id: string, cs: nat, actual: string, expected: string, temp: Path, io: Io)
    requires d.table.jobs == map[0 := Finalizing(id, expected)] && d.handles == map[] && d.place == AtTemp
    ensures Moved(d, id, cs, FinalMoves(actual, expected, temp, io))
         == Disk(Interleaved(d.table, FinalSections(actual, expected, io)), d.file,
                 FinalPlace(actual, expected, temp, io), map[])
  {
    if !io.hashes {
      OneLocked(d, id, cs, GiveUp(0));
    } else if expected != "" && actual != expected {
      RemovedThen(d, id, cs, temp, io.stuck, FailFinal(0));
    } else if expected == "" {
      var adopt := AdoptHash(0, actual);
      var d1 := d.(table := Next(d.table, adopt));
      assert d1.table.jobs == d.table.jobs;
      OneLocked(d, id, cs, adopt);
      RenamedOrRemoved(d1, id, cs, temp, io);
      var last := if io.renames then CompleteFinal(0) else GiveUp(0);
      var ms := if io.renames then [RenameTemp(0), Locked(CompleteFinal(0))]
                else RemovalOf(temp, io.stuck) + [Locked(GiveUp(0))];
      MovedOfJoin(d, id, cs, [Locked(adopt)], ms);
      TransferRefinement.Two(d.table, adopt, last);
    } else {
      RenamedOrRemoved(d, id, cs, temp, io);
      assert [] + [RenameTemp(0), Locked(CompleteFinal(0))] == [RenameTemp(0), Locked(CompleteFinal(0))];
      assert [] + (RemovalOf(temp, io.stuck) + [Locked(GiveUp(0))]) == RemovalOf(temp, io.stuck) + [Locked(GiveUp(0))];
    }
    hide Next, Moved, Interleaved;
  }

  lemma OneLocked(d: Disk, id: string, cs: nat, e: Section)
    requires d.handles == map[] && MayRun(d, id, e)
    ensures Moved(d, id, cs, [Locked(e)]) == d.(table := Next(d.table, e))
    ensures Interleaved(d.table, [e]) == Next(d.table, e)
  {
    hide Next;
    JustMove(d, id, cs, Locked(e));
    TransferSections.One(d.table, e);
  }

  lemma RemovedThen(d: Disk, id: string, cs: nat, temp: Path, stuck: set<Path>, e: Section)
    requires d.handles == map[] && d.place == AtTemp && (e == FailFinal(0) || e == GiveUp(0))
    ensures Moved(d, id, cs, RemovalOf(temp, stuck) + [Locked(e)])
         == d.(table := Interleaved(d.table, [e]), place := if temp in stuck then AtTemp else Removed)
  {
    hide Next;
    if temp in stuck {
      OneLocked(d, id, cs, e);
      assert [] + [Locked(e)] == [Locked(e)];
    } else {
      JustMove(d, id, cs, RemoveTemp);
      OneLocked(d.(place := Removed), id, cs, e);
      MovedOfJoin(d, id, cs, [RemoveTemp], [Locked(e)]);
    }
    hide Moved, Interleaved;
  }

  lemma RenamedOrRemoved(d: Disk, id: string, cs: nat, temp: Path, io: Io)
    requires d.table.jobs.Keys == {0} && d.table.jobs[0].Finalizing? && d.table.jobs[0].id == id
    requires d.handles == map[] && d.place == AtTemp
    ensures Moved(d, id, cs, if io.renames then [RenameTemp(0), Locked(CompleteFinal(0))]
                             else RemovalOf(temp, io.stuck) + [Locked(GiveUp(0))])
         == d.(table := Interleaved(d.table, [if io.renames then CompleteFinal(0) else GiveUp(0)]),
               place := if io.renames then AtFinal(0) else if temp in io.stuck then AtTemp else Removed)
  {
    hide Next;
    if io.renames {
      JustMove(d, id, cs, RenameTemp(0));
      OneLocked(d.(place := AtFinal(0)), id, cs, CompleteFinal(0));
      MovedOfJoin(d, id, cs, [RenameTemp(0)], [Locked(CompleteFinal(0))]);
      assert [RenameTemp(0)] + [Locked(CompleteFinal(0))] == [RenameTemp(0), Locked(CompleteFinal(0))];
    } else {
      RemovedThen(d, id, cs, temp, io.stuck, GiveUp(0));
    }
    hide Moved, Interleaved;
  }

  lemma LockedTwo(a: Section, b: Section)
    ensures LockedAll([a, b]) == [Locked(a)] + [Locked(b)]
  {
    assert [a, b][1..] == [b] && [b][1..] == [];
    assert LockedAll([b]) == [Locked(b)] + LockedAll([]);
  }

  /** A chunk that is not written leaves the file alone. */
  lemma RefusedMoved(c: Config, s: State, e: Event, d: Disk, cs: nat)
    requires e.Receive? && Receivable(s, e.id, e.index) && d.handles == map[]
    requires var t := s.transfers[e.id];
             c.hash(e.data) != e.chunkHash || t.temp.None? || t.temp.value !in s.files || !e.io.opens
    ensures Moved(d, e.id, cs, LockedAll(ReceiveSections(c, s, e)))
         == d.(table := Interleaved(d.table, ReceiveSections(c, s, e)))
  {
    var secs := ReceiveSections(c, s, e);
    assert |secs| == 2;
    hide ReceiveSections, Next;
    assert secs == [secs[0], secs[1]];
    LockedTwo(secs[0], secs[1]);
    OneLocked(d, e.id, cs, secs[0]);
    OneLocked(d.(table := Next(d.table, secs[0])), e.id, cs, secs[1]);
    MovedOfJoin(d, e.id, cs, [Locked(secs[0])], [Locked(secs[1])]);
    TransferRefinement.Two(d.table, secs[0], secs[1]);
    hide Moved, Interleaved;
  }

  /** A chunk that is written, up to the section that follows. */
  lemma StoredMoved(s: State, e: Event, d: Disk, temp: Path, last: Section)
    requires e.Receive? && Receivable(s, e.id, e.index) && d.place == AtTemp && d.handles == map[] && Rests(d.table, s)
    requires last == GiveUp(0) || (last == StoreChunk(0, e.now) && e.io.written >= |e.data|)
    ensures var t := s.transfers[e.id];
            Moved(d, e.id, t.chunkSize, Written(e) + [Locked(last)])
            == d.(table := Interleaved(d.table, [CheckReceive(0, e.id, e.index, |e.data|), last]),
                  file := WriteAt(d.file, e.index * t.chunkSize, e.data[..Min(e.io.written, |e.data|)]))
  {
    var t, check := s.transfers[e.id], CheckReceive(0, e.id, e.index, |e.data|);
    WrittenMoves(s, e, d, temp);
    var d3 := Moved(d, e.id, t.chunkSize, Written(e));
    NoJobAfter(d3.table, last);
    LockedMove(d3, e.id, t.chunkSize, last);
    MovedOfJoin(d, e.id, t.chunkSize, Written(e), [Locked(last)]);
    TransferRefinement.Two(d.table, check, last);
    hide Next, Moved, Interleaved, WriteAt;
  }

  lemma StoredTable(s: State, e: Event, m: Table)
    requires e.Receive? && Receivable(s, e.id, e.index) && Rests(m, s)
    requires AllDone(Marked(s.transfers[e.id].done, e.index))
    ensures Interleaved(m, [CheckReceive(0, e.id, e.index, |e.data|), StoreChunk(0, e.now)]).jobs
         == map[0 := Finalizing(e.id, s.transfers[e.id].fileHash)]
  {
    TransferRefinement.Two(m, CheckReceive(0, e.id, e.index, |e.data|), StoreChunk(0, e.now));
    hide Interleaved, AllDone, Marked;
  }

  lemma LastMoved(c: Config, s: State, e: Event, d: Disk, temp: Path)
    requires e.Receive? && Receivable(s, e.id, e.index) && d.place == AtTemp && d.handles == map[] && Rests(d.table, s)
    requires s.transfers[e.id].temp == Some(temp) && temp in s.files && s.files[temp] == d.file
    requires c.hash(e.data) == e.chunkHash && e.io.opens && Writes(e.io, e.data)
    requires AllDone(Marked(s.transfers[e.id].done, e.index))
    ensures var t := s.transfers[e.id];
            var content := WriteAt(d.file, e.index * t.chunkSize, e.data[..Min(e.io.written, |e.data|)]);
            Moved(d, e.id, t.chunkSize, OwnMoves(c, s, e, temp))
            == Disk(Interleaved(d.table, ReceiveSections(c, s, e)), content,
                    FinalPlace(c.hash(content), t.fileHash, temp, e.io), map[])
  {
    var t, check, store := s.transfers[e.id], CheckReceive(0, e.id, e.index, |e.data|), StoreChunk(0, e.now);
    var content := WriteAt(d.file, e.index * t.chunkSize, e.data[..Min(e.io.written, |e.data|)]);
    var actual := c.hash(content);
    StoredMoved(s, e, d, temp, store);
    StoredTable(s, e, d.table);
    var d4 := Moved(d, e.id, t.chunkSize, Written(e) + [Locked(store)]);
    FinalMoved(d4, e.id, t.chunkSize, actual, t.fileHash, temp, e.io);
    assert OwnMoves(c, s, e, temp)
        == (Written(e) + [Locked(store)]) + FinalMoves(actual, t.fileHash, temp, e.io);
    assert ReceiveSections(c, s, e) == [check, store] + FinalSections(actual, t.fileHash, e.io);
    hide OwnMoves, ReceiveSections, FinalMoves, FinalSections, Moved, Interleaved, Next, WriteAt, Written;
    MovedOfJoin(d, e.id, t.chunkSize, Written(e) + [Locked(store)], FinalMoves(actual, t.fileHash, temp, e.io));
    InterleavedOfJoin(d.table, [check, store], FinalSections(actual, t.fileHash, e.io));
  }

  /** After the upload's own chunk the moved file is the temp file, if that is still one, or what was published. */
  ghost predicate FileFollows(c: Config, s: State, e: Event, d': Disk, temp: Path)
    requires e.Receive? && e.id in s.transfers
  {
    var s', pub := Step(c, s, e), TransferRuns.Published(c, s, e);
    && (d'.place == AtTemp ==> Lookup(s'.files, temp) == Some(d'.file))
    && (e.id in s'.transfers && Active(s'.transfers[e.id].phase) ==> d'.place == AtTemp)
    && (pub.Some? ==> d'.place.AtFinal? && d'.file == pub.value.content)
  }

  lemma EarlyFollows(c: Config, s: State, e: Event, d: Disk, temp: Path)
    requires e.Receive? && Receivable(s, e.id, e.index) && d.place == AtTemp
    requires s.transfers[e.id].temp == Some(temp) && s.transfers[e.id].path != temp
    requires temp in s.files && d.file == s.files[temp]
    ensures c.hash(e.data) != e.chunkHash || !e.io.opens ==> FileFollows(c, s, e, d, temp)
    ensures var t := s.transfers[e.id];
            var content := WriteAt(d.file, e.index * t.chunkSize, e.data[..Min(e.io.written, |e.data|)]);
            && c.hash(e.data) == e.chunkHash && e.io.opens
            && (!Writes(e.io, e.data) || !AllDone(Marked(t.done, e.index)))
            ==> FileFollows(c, s, e, d.(file := content), temp)
  {
    hide WriteAt, AllDone, Marked;
  }

  lemma LastFollows(c: Config, s: State, e: Event, d: Disk, temp: Path)
    requires e.Receive? && Receivable(s, e.id, e.index)
    requires s.transfers[e.id].temp == Some(temp) && s.transfers[e.id].path != temp && temp in s.files
    requires c.hash(e.data) == e.chunkHash && e.io.opens && Writes(e.io, e.data)
    requires AllDone(Marked(s.transfers[e.id].done, e.index))
    requires var t := s.transfers[e.id];
             && d.file == WriteAt(s.files[temp], e.index * t.chunkSize, e.data[..Min(e.io.written, |e.data|)])
             && d.place == FinalPlace(c.hash(d.file), t.fileHash, temp, e.io)
    ensures FileFollows(c, s, e, d, temp)
  {
    hide WriteAt, AllDone, Marked;
  }

  lemma OwnMoved(c: Config, s: State, e: Event, d: Disk, temp: Path)
    requires e.Receive? && Receivable(s, e.id, e.index) && Matches(d, s, e.id, temp, s.transfers[e.id].chunkSize)
    ensures var d' := Moved(d, e.id, s.transfers[e.id].chunkSize, OwnMoves(c, s, e, temp));
            && d'.table == Interleaved(d.table, ReceiveSections(c, s, e)) && d'.handles == map[]
            && FileFollows(c, s, e, d', temp)
  {
    var t := s.transfers[e.id];
    var d' := Moved(d, e.id, t.chunkSize, OwnMoves(c, s, e, temp));
    EarlyFollows(c, s, e, d, temp);
    if c.hash(e.data) != e.chunkHash || !e.io.opens {
      RefusedMoved(c, s, e, d, t.chunkSize);
    } else if !Writes(e.io, e.data) {
      StoredMoved(s, e, d, temp, GiveUp(0));
    } else if !AllDone(Marked(t.done, e.index)) {
      StoredMoved(s, e, d, temp, StoreChunk(0, e.now));
    } else {
      LastMoved(c, s, e, d, temp);
      LastFollows(c, s, e, d', temp);
    }
    FollowsIgnoresTable(c, s, e, temp);
    hide Moved, Interleaved, Written, LockedAll, Step, TransferRuns.Published, FileFollows, WriteAt, AllDone, Marked;
  }

  lemma FollowsIgnoresTable(c: Config, s: State, e: Event, temp: Path)
    requires e.Receive? && e.id in s.transfers
    ensures forall d: Disk, d': Disk :: d.file == d'.file && d.place == d'.place ==>
              (FileFollows(c, s, e, d, temp) <==> FileFollows(c, s, e, d', temp))
  {
    hide Step, TransferRuns.Published;
  }

  // ----- Runs -----

  lemma OwnIsMoves(c: Config, s: State, e: Event, d: Disk, temp: Path, cs: nat)
    requires e.Receive? && Matches(d, s, e.id, temp, cs)
    ensures var d' := Moved(d, e.id, cs, OwnMoves(c, s, e, temp));
            && Matches(d', Step(c, s, e), e.id, temp, cs) && d'.table.used == d.table.used
            && (TransferRuns.Published(c, s, e).Some? ==>
                  d'.place.AtFinal? && d'.file == TransferRuns.Published(c, s, e).value.content)
            && (d.place.AtFinal? ==> d' == d && TransferRuns.Published(c, s, e).None?)
  {
    if Receivable(s, e.id, e.index) {
      OwnMoved(c, s, e, d, temp);
      ReceiveIsSections(c, s, e, d.table);
      ReceiveEvolves(c, s, e.id, e.index, e.chunkHash, e.data, e.now, e.io);
      hide Step, OwnMoves, Moved, Interleaved, ReceiveSections, TransferRuns.Published;
    } else {
      NotReceived(c, s, e);
      hide Step;
    }
  }

  lemma NotReceived(c: Config, s: State, e: Event)
    requires e.Receive? && !Receivable(s, e.id, e.index)
    ensures Step(c, s, e) == s && TransferRuns.Published(c, s, e).None?
  {
  }

  /** A handler is a run of moves for the table and for the upload's file; a publication is the renamed file. */
  lemma HandlerIsMoves(c: Config, s: State, e: Event, d: Disk, id: string, dir: string, cs: nat)
    requires WellFormed(s) && Matches(d, s, id, TempPath(dir, id), cs) && Started(e) !! d.table.used
    requires !Starts(e, id) && NoneElseAt(AsSeq(TransferRuns.Published(c, s, e)), id, TempPath(dir, id))
    ensures var d', pub := Moved(d, id, cs, MovesOf(c, s, e, id, TempPath(dir, id))), TransferRuns.Published(c, s, e);
            && Matches(d', Step(c, s, e), id, TempPath(dir, id), cs)
            && d'.table.used <= d.table.used + Started(e)
            && (pub.Some? && pub.value.id == id ==> d'.place.AtFinal? && d'.file == pub.value.content)
            && (d.place.AtFinal? ==> d'.place == d.place && d'.file == d.file && (pub.Some? ==> pub.value.id != id))
  {
    PublishedIsOwn(c, s, e);
    if e.Receive? && e.id == id {
      OwnIsMoves(c, s, e, d, TempPath(dir, id), cs);
    } else {
      OtherIsMoves(c, s, e, d, id, dir, cs);
      OtherMoved(c, s, e, d, id, TempPath(dir, id), cs);
    }
    hide Step, OwnMoves, Moved, Interleaved, TransferRuns.Published, LockedAll, SectionsOf, TempPath, WellFormed;
  }

  /** An accepted start leaves the temp file with which the moves begin. */
  lemma StartMatches(c: Config, s: State, start: Event, m: Table)
    requires AcceptsUpload(c, s, start) && Rests(m, s) && start.id !in m.used
    requires Path(start.req.dir, start.req.filename) != TempPath(start.req.dir, start.id)
    ensures var t := NewUpload(start.req, start.id, start.now);
            var d := Begun(m, start.id, t);
            && Matches(d, Step(c, s, start), start.id, TempPath(start.req.dir, start.id), t.chunkSize)
            && d.table.used == m.used + {start.id}
  {
    hide Zeros, ComputeChunks, UploadRefusal;
  }

  function AllMoves(c: Config, s: State, es: seq<Event>, id: string, temp: Path): seq<Move>
    decreases es
  {
    if es == [] then [] else MovesOf(c, s, es[0], id, temp) + AllMoves(c, Step(c, s, es[0]), es[1..], id, temp)
  }

  /**
   Every run of whole handlers in which no other upload ends at the temp file is, for one upload, a run of moves:
   it leaves the same table and temp file, and what the upload has published is the renamed file.
   */
  lemma {:induction false} RunsAreMoves(
      c: Config, s: State, es: seq<Event>, d: Disk, id: string, dir: string, cs: nat)
    requires WellFormed(s) && Matches(d, s, id, TempPath(dir, id), cs) && FreshStarts(es, d.table.used)
    requires NeverStarts(es, id) && NoneElseAt(Publications(c, s, es), id, TempPath(dir, id))
    ensures var d' := Moved(d, id, cs, AllMoves(c, s, es, id, TempPath(dir, id)));
            && Matches(d', Run(c, s, es), id, TempPath(dir, id), cs)
            && (d.place.AtFinal? ==> d'.place == d.place && d'.file == d.file)
            && forall pub :: pub in Publications(c, s, es) && pub.id == id ==>
                 d'.place.AtFinal? && d'.file == pub.content && !d.place.AtFinal?
    decreases es
  {
    hide Step, Matches, MovesOf, TransferRuns.Published, WellFormed, TempPath, Started, Starts, After;
    if es != [] {
      var e, s', temp := es[0], Step(c, s, es[0]), TempPath(dir, id);
      var d1 := Moved(d, id, cs, MovesOf(c, s, e, id, temp));
      assert Publications(c, s, es) == AsSeq(TransferRuns.Published(c, s, e)) + Publications(c, s', es[1..]);
      HandlerIsMoves(c, s, e, d, id, dir, cs);
      StepKeepsWellFormed(c, s, e);
      FreshForFewer(es[1..], d1.table.used, d.table.used + Started(e));
      RunsAreMoves(c, s', es[1..], d1, id, dir, cs);
      MovedOfJoin(d, id, cs, MovesOf(c, s, e, id, temp), AllMoves(c, s', es[1..], id, temp));
      hide Moved;
    }
  }
}
