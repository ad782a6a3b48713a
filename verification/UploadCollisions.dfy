/**
 What becomes of an upload whose temp file another upload has replaced: a file
 name like the temp name passes the file name check.
 */
module UploadCollisions {
  import opened Basics
  import opened Chunks
  import opened Transfers
  import opened TransferRuns
  import opened UploadRuns

  /** However the client goes on, it never fails the whole-file hash and never publishes anything but `f`. */
  ghost predicate Harmless(c: Config, s: State, id: string, temp: Path, f: Bytes, cs: nat) {
    forall es :: Client(c, es, id, f, cs) && NoneElseAt(Publications(c, s, es), id, temp) ==>
                   NeverMismatched(c, s, es, id) && PublishesOnly(Publications(c, s, es), id, f)
  }

  /** A running upload of `f`, whatever its temp file holds. */
  ghost predicate Running(c: Config, s: State, id: string, temp: Path, f: Bytes, cs: nat)
    requires cs > 0
  {
    && WellFormed(s) && id in s.transfers && temp in s.files
    && Announced(c, s.transfers[id], temp, f, cs)
    && Active(s.transfers[id].phase) && !AllDone(s.transfers[id].done)
  }

  // ----- A client that sends what is still to come -----

  function OwnSlice(c: Config, id: string, f: Bytes, cs: nat, i: nat): Event {
    var slice := Slice(f, cs, i);
    Receive(id, i, c.hash(slice), slice, 0, Io(true, |slice|, true, true, true, {}))
  }

  function Undone(done: seq<bool>): nat {
    if done == [] then 0 else Undone(done[1..]) + if done[0] then 0 else 1
  }

  lemma {:induction false} MarkingIsProgress(done: seq<bool>, i: nat)
    requires i < |done| && !done[i]
    ensures Undone(done[i := true]) == Undone(done) - 1
  {
    if i == 0 {
      assert done[i := true][1..] == done[1..];
    } else {
      assert done[i := true][1..] == done[1..][i - 1 := true];
      MarkingIsProgress(done[1..], i - 1);
    }
  }

  lemma SliceLands(c: Config, s: State, id: string, temp: Path, f: Bytes, cs: nat, i: nat)
    requires cs > 0 && Running(c, s, id, temp, f, cs) && s.transfers[id].phase.Transferring?
    requires i < |s.transfers[id].done| && !AllDone(Marked(s.transfers[id].done, i))
    ensures var s' := Step(c, s, OwnSlice(c, id, f, cs, i));
            && Running(c, s', id, temp, f, cs) && s'.transfers[id].phase.Transferring?
            && s'.transfers[id].done == Marked(s.transfers[id].done, i)
            && s'.files[temp] == WriteAt(s.files[temp], i * cs, Slice(f, cs, i))
  {
    var e := OwnSlice(c, id, f, cs, i);
    assert e.data[..Min(e.io.written, |e.data|)] == e.data;
    StepKeepsWellFormed(c, s, e);
    hide WriteAt, AllDone, Marked, DivCeil, Slice, WellFormed;
  }

  lemma LastSliceSpoils(c: Config, s: State, id: string, temp: Path, f: Bytes, cs: nat, i: nat)
    requires cs > 0 && Injective(c.hash) && Running(c, s, id, temp, f, cs) && s.transfers[id].phase.Transferring?
    requires i < |s.transfers[id].done| && AllDone(Marked(s.transfers[id].done, i))
    requires WriteAt(s.files[temp], i * cs, Slice(f, cs, i)) != f
    ensures var e := OwnSlice(c, id, f, cs, i);
            || Reply(c, s, e) == Err(HashMismatch)
            || (Published(c, s, e).Some? && Published(c, s, e).value.id == id && Published(c, s, e).value.content != f)
  {
    var e := OwnSlice(c, id, f, cs, i);
    assert e.data[..Min(e.io.written, |e.data|)] == e.data;
    hide WriteAt, AllDone, Marked, DivCeil, Slice, WellFormed;
  }

  /** The run fails the hash or publishes something else. */
  ghost predicate Spoils(c: Config, s: State, es: seq<Event>, id: string, f: Bytes) {
    !(NeverMismatched(c, s, es, id) && PublishesOnly(Publications(c, s, es), id, f))
  }

  lemma SpoilsLater(c: Config, s: State, e: Event, es: seq<Event>, id: string, f: Bytes)
    requires Spoils(c, Step(c, s, e), es, id, f)
    ensures Spoils(c, s, [e] + es, id, f)
  {
    var s', all := Step(c, s, e), [e] + es;
    assert all[0] == e && all[1..] == es;
    hide Step, Reply, Published;
    var first, rest := AsSeq(Published(c, s, e)), Publications(c, s', es);
    assert Publications(c, s, all) == first + rest;
    if PublishesOnly(first + rest, id, f) {
      forall i | 0 <= i < |rest| && rest[i].id == id ensures rest[i].content == f {
        assert (first + rest)[|first| + i] == rest[i];
      }
    }
  }

  lemma SpoilsNow(c: Config, s: State, e: Event, id: string, f: Bytes)
    requires e.Receive? && e.id == id
    requires Reply(c, s, e) == Err(HashMismatch)
          || (Published(c, s, e).Some? && Published(c, s, e).value.id == id && Published(c, s, e).value.content != f)
    ensures Spoils(c, s, [e], id, f)
  {
    hide Step, Reply, Published;
    assert [e][1..] == [];
    assert Publications(c, s, [e]) == AsSeq(Published(c, s, e));
    assert Published(c, s, e).Some? ==> AsSeq(Published(c, s, e))[0] == Published(c, s, e).value;
  }

  /** Only the upload itself receives chunks. */
  predicate Alone(es: seq<Event>, id: string) { forall i :: 0 <= i < |es| && es[i].Receive? ==> es[i].id == id }

  lemma {:induction false} AlonePublishesOwn(c: Config, s: State, es: seq<Event>, id: string)
    requires Alone(es, id)
    ensures forall pub :: pub in Publications(c, s, es) ==> pub.id == id
    decreases es
  {
    hide Step, Published;
    if es != [] {
      PublishedIsOwn(c, s, es[0]);
      AlonePublishesOwn(c, Step(c, s, es[0]), es[1..], id);
    }
  }

  lemma StaysUnmendable(g: Bytes, f: Bytes, cs: nat, done: seq<bool>, i: nat)
    requires |f| > 0 && cs > 0 && |done| == DivCeil(|f|, cs) && i < |done| && !done[i] && !Mends(g, f, cs, done)
    ensures var g', done' := WriteAt(g, i * cs, Slice(f, cs, i)), Marked(done, i);
            && |done'| == |done| && Undone(done') < Undone(done) && !Mends(g', f, cs, done')
            && (AllDone(done') ==> g' != f)
  {
    WritingSliceMends(g, f, cs, done, i, |Slice(f, cs, i)|);
    assert Slice(f, cs, i)[..|Slice(f, cs, i)|] == Slice(f, cs, i);
    MarkingIsProgress(done, i);
    hide WriteAt, Mends, Slice, DivCeil, Undone;
    if AllDone(Marked(done, i)) { AllDoneMends(WriteAt(g, i * cs, Slice(f, cs, i)), f, cs, Marked(done, i)); }
  }

  lemma OwnIsClient(c: Config, id: string, f: Bytes, cs: nat, i: nat)
    ensures var e := OwnSlice(c, id, f, cs, i);
            e.Receive? && e.id == id && SendsSlices(c, e, id, f, cs) && !Starts(e, id)
  {
  }

  lemma {:induction false} SendTheRest(c: Config, s: State, id: string, temp: Path, f: Bytes, cs: nat)
    returns (es: seq<Event>)
    requires |f| > 0 && cs > 0 && Injective(c.hash)
    requires Running(c, s, id, temp, f, cs) && s.transfers[id].phase.Transferring?
    requires !Mends(s.files[temp], f, cs, s.transfers[id].done)
    ensures Client(c, es, id, f, cs) && Alone(es, id) && Spoils(c, s, es, id, f)
    decreases Undone(s.transfers[id].done)
  {
    var g, done := s.files[temp], s.transfers[id].done;
    var i :| 0 <= i < |done| && !done[i];
    var e, g' := OwnSlice(c, id, f, cs, i), WriteAt(g, i * cs, Slice(f, cs, i));
    StaysUnmendable(g, f, cs, done, i);
    OwnIsClient(c, id, f, cs, i);
    hide Marked, OwnSlice, Announced, Alone, SendsSlices;
    hide WriteAt, Mends, Slice, DivCeil, WellFormed, Step, Spoils, Reply, Published;
    if AllDone(Marked(done, i)) {
      LastSliceSpoils(c, s, id, temp, f, cs, i);
      SpoilsNow(c, s, e, id, f);
      es := [e];
    } else {
      SliceLands(c, s, id, temp, f, cs, i);
      var rest := SendTheRest(c, Step(c, s, e), id, temp, f, cs);
      SpoilsLater(c, s, e, rest, id, f);
      es := [e] + rest;
    }
  }

  // ----- The exact boundary -----

  lemma PausedAndResumed(c: Config, s: State, id: string, temp: Path, f: Bytes, cs: nat)
    requires cs > 0 && Running(c, s, id, temp, f, cs)
    ensures var s' := Step(c, Step(c, s, Pause), ResumeOne(id, 0));
            && Running(c, s', id, temp, f, cs) && s'.transfers[id].phase.Transferring?
            && s'.files == s.files && s'.transfers[id].done == s.transfers[id].done
  {
    PauseThenResume(s, id, 0);
    StepKeepsWellFormed(c, s, Pause);
    StepKeepsWellFormed(c, Step(c, s, Pause), ResumeOne(id, 0));
    hide WellFormed, PauseAll, Resume, AllDone, DivCeil;
  }

  lemma UnmendableSpoils(c: Config, s: State, id: string, temp: Path, f: Bytes, cs: nat)
    requires |f| > 0 && cs > 0 && Injective(c.hash) && Running(c, s, id, temp, f, cs)
    requires !Mends(s.files[temp], f, cs, s.transfers[id].done)
    ensures !Harmless(c, s, id, temp, f, cs)
  {
    PausedAndResumed(c, s, id, temp, f, cs);
    var paused := Step(c, s, Pause);
    var rest := SendTheRest(c, Step(c, paused, ResumeOne(id, 0)), id, temp, f, cs);
    SpoilsLater(c, paused, ResumeOne(id, 0), rest, id, f);
    SpoilsLater(c, s, Pause, [ResumeOne(id, 0)] + rest, id, f);
    var es := [Pause] + ([ResumeOne(id, 0)] + rest);
    hide Step, Running, Mends;
    assert Client(c, es, id, f, cs);
    AlonePublishesOwn(c, s, es, id);
  }

  /**
   A running upload comes through every continuation of its client unharmed if and only if its temp file mends:
   it is not too long, too short only with the last chunk to come, and right in the chunks that are done.
   */
  lemma HarmlessIfMends(c: Config, s: State, id: string, dir: string, f: Bytes, cs: nat)
    requires |f| > 0 && cs > 0 && Injective(c.hash) && Running(c, s, id, TempPath(dir, id), f, cs)
    ensures var temp := TempPath(dir, id);
            Harmless(c, s, id, temp, f, cs) <==> Mends(s.files[temp], f, cs, s.transfers[id].done)
  {
    var temp := TempPath(dir, id);
    if Mends(s.files[temp], f, cs, s.transfers[id].done) {
      assert Mendable(c, s, id, temp, f, cs);
      hide Mendable, Mends, WellFormed, TempPath;
      forall es | Client(c, es, id, f, cs) && NoneElseAt(Publications(c, s, es), id, temp)
        ensures NeverMismatched(c, s, es, id) && PublishesOnly(Publications(c, s, es), id, f)
      {
        SlicesMend(c, s, es, id, dir, f, cs);
      }
    } else {
      UnmendableSpoils(c, s, id, temp, f, cs);
    }
  }

  /** Another upload that ends at the temp file does no harm if and only if what it puts there mends. */
  lemma CollisionHarm(c: Config, s: State, e: Event, id: string, dir: string, f: Bytes, cs: nat)
    requires |f| > 0 && cs > 0 && Injective(c.hash) && Running(c, s, id, TempPath(dir, id), f, cs)
    requires e.Receive? && e.id != id
    requires Published(c, s, e).Some? && Published(c, s, e).value.path == TempPath(dir, id)
    ensures Harmless(c, Step(c, s, e), id, TempPath(dir, id), f, cs)
       <==> Mends(Published(c, s, e).value.content, f, cs, s.transfers[id].done)
  {
    OthersAtTemp(c, s, e, id, dir);
    OtherChunkLeavesTransfer(c, s, e, id);
    StepKeepsWellFormed(c, s, e);
    hide Step, Published, Mends, WellFormed, TempPath, DivCeil, AllDone;
    HarmlessIfMends(c, Step(c, s, e), id, dir, f, cs);
  }

  // ----- Two uploads that collide -----

  const BARE := State(map[], map[])
  const WILLING := UploadEnv(None, true, true, true, {})

  /** Upload "a" of `[1]`. */
  function StartA(c: Config): Event {
    StartUpload("a", UploadRequest("d", "x", 1, c.hash([1]), MIN_CHUNK_SIZE, 1), WILLING, 0)
  }

  /** Upload "b" of two bytes, whose file name is the temp name of "a". */
  function StartB(): Event {
    StartUpload("b", UploadRequest("d", TEMP_PREFIX + "a", 2, "", MIN_CHUNK_SIZE, 1), WILLING, 0)
  }

  function ChunkA(c: Config, io: Io): Event { Receive("a", 0, c.hash([1]), [1], 0, io) }

  function ChunkB(c: Config, io: Io): Event { Receive("b", 0, c.hash([2, 2]), [2, 2], 0, io) }

  /** The state after both starts. */
  function Colliding(c: Config): State {
    State(map["a" := NewUpload(StartA(c).req, "a", 0), "b" := NewUpload(StartB().req, "b", 0)],
          map[TempPath("d", "a") := [0], TempPath("d", "b") := [0, 0]])
  }

  lemma RunningAreListed(transfers: map<string, Transfer>)
    ensures RunningCount(transfers) <= |transfers.Keys|
  {
    var running := set id | id in transfers && transfers[id].phase in {Init, Transferring};
    assert running <= transfers.Keys;
    SubsetIsSmaller(running, transfers.Keys);
  }

  lemma {:induction false} SubsetIsSmaller(a: set<string>, b: set<string>)
    requires a <= b
    ensures |a| <= |b|
    decreases a
  {
    if a != {} {
      var x :| x in a;
      SubsetIsSmaller(a - {x}, b - {x});
    }
  }

  lemma RunTwo(c: Config, s: State, a: Event, b: Event)
    ensures Run(c, s, [a, b]) == Step(c, Step(c, s, a), b)
  {
    hide Step;
    assert [a, b][1..] == [b] && [b][1..] == [];
    assert Run(c, Step(c, s, a), [b]) == Step(c, Step(c, s, a), b);
  }

  /** The state after the first start. */
  function OnlyA(c: Config): State {
    State(map["a" := NewUpload(StartA(c).req, "a", 0)], map[TempPath("d", "a") := [0]])
  }

  lemma AIsAccepted(c: Config)
    requires c.maxConcurrent >= 2 && c.maxFileSize >= 2
    ensures AcceptsUpload(c, BARE, StartA(c)) && Announces(c, StartA(c), [1])
    ensures Step(c, BARE, StartA(c)) == OnlyA(c)
  {
    RunningAreListed(BARE.transfers);
    assert BARE.transfers.Keys == {};
    assert Zeros(1) == [0];
    hide RunningCount, Zeros, NewUpload;
  }

  lemma BIsAccepted(c: Config)
    requires c.maxConcurrent >= 2 && c.maxFileSize >= 2
    ensures AcceptsUpload(c, OnlyA(c), StartB())
    ensures Step(c, OnlyA(c), StartB()) == Colliding(c)
  {
    RunningAreListed(OnlyA(c).transfers);
    assert OnlyA(c).transfers.Keys == {"a"};
    assert Zeros(2) == [0, 0];
    hide RunningCount, Zeros, NewUpload;
  }

  lemma SendsOwnSlice(c: Config, io: Io)
    ensures Client(c, [StartB(), ChunkB(c, io), ChunkA(c, io)], "a", [1], MIN_CHUNK_SIZE)
  {
    assert Slice([1], MIN_CHUNK_SIZE, 0) == [1];
    hide Slice;
  }

  lemma ColliderReplacesTemp(c: Config, io: Io)
    requires Works(io, [2, 2])
    ensures var s' := Step(c, Colliding(c), ChunkB(c, io));
            && "a" in s'.transfers && s'.transfers["a"] == Colliding(c).transfers["a"]
            && Lookup(s'.files, TempPath("d", "a")) == Some([2, 2])
  {
    TempPathsDiffer("d", "d", "a", "b");
    assert [2, 2][..2] == [2, 2];
    assert WriteAt([0, 0], 0, [2, 2]) == [2, 2];
    assert AllDone(Marked([false], 0));
    assert Colliding(c).transfers["b"].done == [false];
    hide WriteAt;
  }

  lemma LateSliceMismatches(c: Config, s: State, io: Io)
    requires c.hash([1]) != c.hash([1, 2]) && c.hash([1]) != "" && Works(io, [2, 2])
    requires "a" in s.transfers && s.transfers["a"] == Colliding(c).transfers["a"]
    requires Lookup(s.files, TempPath("d", "a")) == Some([2, 2])
    ensures Reply(c, s, ChunkA(c, io)) == Err(HashMismatch)
  {
    assert [1][..1] == [1];
    assert WriteAt([2, 2], 0, [1]) == [1, 2];
    assert s.transfers["a"].done == [false];
    assert AllDone(Marked([false], 0));
    hide WriteAt;
  }

  /**
   Why no other upload may end at the temp file: after "b" has, the right slice of "a" leaves a byte of "b"
   behind and fails the whole-file hash. Both were accepted.
   */
  lemma TempNameCollision(c: Config, io: Io)
    requires c.maxConcurrent >= 2 && c.maxFileSize >= 2 && Works(io, [2, 2])
    requires c.hash([1]) != c.hash([1, 2]) && c.hash([1]) != ""
    ensures AcceptsUpload(c, BARE, StartA(c)) && Announces(c, StartA(c), [1])
    ensures AcceptsUpload(c, Step(c, BARE, StartA(c)), StartB())
    ensures Client(c, [StartB(), ChunkB(c, io), ChunkA(c, io)], "a", [1], MIN_CHUNK_SIZE)
    ensures Reply(c, Run(c, Step(c, BARE, StartA(c)), [StartB(), ChunkB(c, io)]), ChunkA(c, io)) == Err(HashMismatch)
  {
    AIsAccepted(c);
    BIsAccepted(c);
    SendsOwnSlice(c, io);
    ColliderReplacesTemp(c, io);
    LateSliceMismatches(c, Step(c, Colliding(c), ChunkB(c, io)), io);
    RunTwo(c, Step(c, BARE, StartA(c)), StartB(), ChunkB(c, io));
    hide *;
  }
}
