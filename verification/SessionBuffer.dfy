/**
 The local output buffer of a session: bounded entries, gap accounting by
 sequence number, and reading with a cursor.
 */
module SessionBuffer {
  import opened Basics

  const MAX_ENTRIES := 5000

  datatype Entry = Entry(seqNo: nat, data: string)

  datatype State = State(entries: seq<Entry>, lastSeq: nat, dropped: nat)

  const EMPTY := State([], 0, 0)

  function Pushed(s: State, e: Entry): State {
    State(
      (if |s.entries| >= MAX_ENTRIES then s.entries[1..] else s.entries) + [e],
      if e.seqNo > s.lastSeq then e.seqNo else s.lastSeq,
      if e.seqNo > s.lastSeq + 1 && s.lastSeq > 0 then s.dropped + (e.seqNo - s.lastSeq - 1) else s.dropped)
  }

  /** The entries after a cursor. */
  function Since(entries: seq<Entry>, since: nat): seq<Entry> {
    if entries == [] then [] else
      var rest := Since(entries[1..], since);
      if entries[0].seqNo > since then [entries[0]] + rest else rest
  }

  class Buffer {
    var entries: seq<Entry>
    var lastSeq: nat
    var dropped: nat

    constructor ()
      ensures View() == EMPTY
    {
      entries, lastSeq, dropped := [], 0, 0;
    }

    function View(): State
      reads this
    {
      State(entries, lastSeq, dropped)
    }

    method Push(e: Entry)
      modifies this
      ensures View() == Pushed(old(View()), e)
    {
      if e.seqNo > lastSeq + 1 && lastSeq > 0 {
        dropped := dropped + (e.seqNo - lastSeq - 1);
      }
      if e.seqNo > lastSeq {
        lastSeq := e.seqNo;
      }
      if |entries| >= MAX_ENTRIES {
        entries := entries[1..];
      }
      entries := entries + [e];
    }
  }

  // ----- Runs of pushes -----

  ghost predicate Increasing(es: seq<Entry>) {
    && (forall i :: 0 <= i < |es| ==> es[i].seqNo > 0)
    && (forall i, j :: 0 <= i < j < |es| ==> es[i].seqNo < es[j].seqNo)
  }

  function After(es: seq<Entry>): State {
    if es == [] then EMPTY else Pushed(After(es[..|es| - 1]), es[|es| - 1])
  }

  /** The buffer holds the newest entries, up to its size. */
  lemma {:induction false} HoldsNewest(es: seq<Entry>)
    ensures After(es).entries == es[Max(0, |es| - MAX_ENTRIES)..]
  {
    if es != [] { HoldsNewest(es[..|es| - 1]); }
  }

  /** Dropped plus pushed is the span of the sequence numbers. */
  lemma {:induction false} GapAccounting(es: seq<Entry>)
    requires Increasing(es) && es != []
    ensures var s := After(es);
            && s.lastSeq == es[|es| - 1].seqNo
            && s.dropped + |es| == s.lastSeq - es[0].seqNo + 1
  {
    if |es| == 1 {
      assert After(es[..0]) == EMPTY;
    } else {
      GapAccounting(es[..|es| - 1]);
    }
  }

  /** Whatever order the numbers come in, the last number is the greatest so far. */
  lemma {:induction false} LastIsGreatest(es: seq<Entry>)
    ensures forall e :: e in es ==> e.seqNo <= After(es).lastSeq
    ensures After(es).lastSeq == 0 || exists e :: e in es && e.seqNo == After(es).lastSeq
  {
    if es != [] {
      var before, last := es[..|es| - 1], es[|es| - 1];
      LastIsGreatest(before);
      assert es == before + [last];
      if After(es).lastSeq == last.seqNo { assert last in es; }
    }
  }

  /** Only a number that skips some after the greatest so far counts as a gap, and by the numbers skipped. */
  lemma DroppedIsSkipped(es: seq<Entry>, e: Entry, greatest: nat)
    requires forall x :: x in es ==> x.seqNo <= greatest
    requires exists x :: x in es && x.seqNo == greatest
    ensures After(es + [e]).dropped ==
            After(es).dropped + if 0 < greatest < e.seqNo then e.seqNo - greatest - 1 else 0
  {
    LastIsGreatest(es);
    assert (es + [e])[..|es|] == es;
    hide Increasing;
  }

  // ----- A reader with a cursor -----

  /** What a poll returns at a moment when `pushed` holds all pushes so far, and the reader's next cursor. */
  function Poll(pushed: seq<Entry>, cursor: nat): (seq<Entry>, nat) {
    var got := Since(After(pushed).entries, cursor);
    (got, if got == [] then cursor else got[|got| - 1].seqNo)
  }

  /** All a reader gets that polls after `at[0]`, `at[1]`, ... pushes, passing back the last number it saw. */
  function Reading(es: seq<Entry>, at: seq<nat>): (seq<Entry>, nat)
    requires forall i :: 0 <= i < |at| ==> at[i] <= |es|
  {
    if at == [] then ([], 0) else
      var (before, cursor) := Reading(es, at[..|at| - 1]);
      var (got, next) := Poll(es[..at[|at| - 1]], cursor);
      (before + got, next)
  }

  ghost predicate Nondecreasing(at: seq<nat>) {
    forall i, j :: 0 <= i <= j < |at| ==> at[i] <= at[j]
  }

  function PollPoint(at: seq<nat>): nat { if at == [] then 0 else at[|at| - 1] }

  /** Entries that had left the buffer before the poll that should have returned them. */
  function Missed(at: seq<nat>): nat
    requires Nondecreasing(at)
  {
    if at == [] then 0 else
      var before := at[..|at| - 1];
      Missed(before) + Max(0, at[|at| - 1] - PollPoint(before) - MAX_ENTRIES)
  }

  lemma {:induction false} SinceCutsAtCursor(es: seq<Entry>, since: nat, p: nat)
    requires p <= |es|
    requires forall i :: 0 <= i < p ==> es[i].seqNo <= since
    requires forall i :: p <= i < |es| ==> es[i].seqNo > since
    ensures Since(es, since) == es[p..]
  {
    if es != [] {
      SinceCutsAtCursor(es[1..], since, Max(0, p - 1));
    }
  }

  lemma SinceOfNewest(pushed: seq<Entry>, p: nat, cursor: nat)
    requires p <= |pushed|
    requires forall i :: 0 <= i < p ==> pushed[i].seqNo <= cursor
    requires forall i :: p <= i < |pushed| ==> pushed[i].seqNo > cursor
    ensures Since(After(pushed).entries, cursor) == pushed[Max(p, |pushed| - MAX_ENTRIES)..]
  {
    var from := Max(0, |pushed| - MAX_ENTRIES);
    HoldsNewest(pushed);
    hide After, Since;
    var held, cut := pushed[from..], Max(0, p - from);
    assert forall i :: 0 <= i < |held| ==> held[i] == pushed[from + i];
    SinceCutsAtCursor(held, cursor, cut);
    assert held[cut..] == pushed[from + cut..];
  }

  /** A poll returns exactly the entries pushed since the last one, except those already evicted. */
  lemma PollIsExact(es: seq<Entry>, p: nat, q: nat, cursor: nat)
    requires Increasing(es) && p <= q <= |es|
    requires cursor == if p == 0 then 0 else es[p - 1].seqNo
    ensures Poll(es[..q], cursor) == (es[Max(p, q - MAX_ENTRIES)..q], if q == 0 then 0 else es[q - 1].seqNo)
  {
    var pushed, from := es[..q], Max(p, q - MAX_ENTRIES);
    SinceOfNewest(pushed, p, cursor);
    assert pushed[from..] == es[from..q];
  }

  lemma OnePollMore(es: seq<Entry>, got: seq<Entry>, missed: nat, p: nat, q: nat)
    requires p <= q <= |es| && |got| + missed == p && (missed == 0 ==> got == es[..p])
    ensures var got' := got + es[Max(p, q - MAX_ENTRIES)..q];
            var missed' := missed + Max(0, q - p - MAX_ENTRIES);
            |got'| + missed' == q && (missed' == 0 ==> got' == es[..q])
  {
  }

  lemma {:induction false} ReadingIsExact(es: seq<Entry>, at: seq<nat>)
    requires Increasing(es) && Nondecreasing(at)
    requires forall i :: 0 <= i < |at| ==> at[i] <= |es|
    ensures var q := PollPoint(at);
            var (got, cursor) := Reading(es, at);
            && cursor == (if q == 0 then 0 else es[q - 1].seqNo)
            && |got| + Missed(at) == q
            && (Missed(at) == 0 ==> got == es[..q])
  {
    if at != [] {
      var before := at[..|at| - 1];
      hide Poll, Increasing;
      ReadingIsExact(es, before);
      var p, q := PollPoint(before), PollPoint(at);
      PollIsExact(es, p, q, Reading(es, before).1);
      OnePollMore(es, Reading(es, before).0, Missed(before), p, q);
      hide Max;
    }
  }

  /** How many entries arrive before poll `i`, counted from the one before. */
  function Gap(at: seq<nat>, i: nat): int
    requires i < |at|
  {
    at[i] as int - (if i == 0 then 0 else at[i - 1])
  }

  /** No two polls, nor the start and the first poll, are more than a buffer apart. */
  ghost predicate PollsInTime(at: seq<nat>) {
    forall i :: 0 <= i < |at| ==> Gap(at, i) <= MAX_ENTRIES
  }

  lemma {:induction false} InTimeMissesNone(at: seq<nat>)
    requires Nondecreasing(at)
    ensures Missed(at) == 0 <==> PollsInTime(at)
  {
    if at != [] {
      var before, last := at[..|at| - 1], |at| - 1;
      InTimeMissesNone(before);
      assert Gap(at, last) == at[last] - PollPoint(before);
      assert forall i :: 0 <= i < last ==> Gap(at, i) == Gap(before, i);
    }
  }

  /**
   A reader sees every entry once and in order exactly when no more than 5000
   entries arrive between two of its polls.
   */
  lemma ReaderSeesAll(es: seq<Entry>, at: seq<nat>)
    requires Increasing(es) && Nondecreasing(at)
    requires forall i :: 0 <= i < |at| ==> at[i] <= |es|
    ensures Reading(es, at).0 == es[..PollPoint(at)] <==> PollsInTime(at)
  {
    ReadingIsExact(es, at);
    InTimeMissesNone(at);
  }
}
