/**
 Waiting for a command in a shared terminal: the command is wrapped between a
 start and a done marker, and its output and exit code are cut out of whatever
 text the session produces, echo included.
 */
module ExecMarkers {
  import opened Basics

  // ----- Substring search -----

  predicate OccursAt(text: string, needle: string, p: nat) {
    p + |needle| <= |text| && text[p..p + |needle|] == needle
  }

  /** The last occurrence at or before `p`. */
  function RFindUpTo(text: string, needle: string, p: nat): (r: Option<nat>)
    ensures r.Some? ==> r.value <= p && OccursAt(text, needle, r.value)
    ensures forall q: nat :: q <= p && OccursAt(text, needle, q) ==> r.Some? && q <= r.value
  {
    if OccursAt(text, needle, p) then Some(p)
    else if p == 0 then None
    else RFindUpTo(text, needle, p - 1)
  }

  function RFind(text: string, needle: string): (r: Option<nat>)
    ensures r.Some? ==> OccursAt(text, needle, r.value)
    ensures forall q: nat :: OccursAt(text, needle, q) ==> r.Some? && q <= r.value
  {
    RFindUpTo(text, needle, |text|)
  }

  /** The first occurrence. */
  function Find(text: string, needle: string): (r: Option<nat>)
    ensures r.Some? ==> OccursAt(text, needle, r.value)
  {
    if needle <= text then Some(0)
    else if text == "" then None
    else
      var r := Find(text[1..], needle);
      if r.None? then None else
        assert text[1..][r.value..r.value + |needle|] == text[r.value + 1..r.value + 1 + |needle|];
        Some(r.value + 1)
  }

  // ----- Markers -----

  predicate IsDigit(c: char) { '0' <= c <= '9' }

  /** The nonce is a number in lower-case hex. */
  predicate IsNonce(nonce: string) {
    nonce != "" && forall i :: 0 <= i < |nonce| ==> IsDigit(nonce[i]) || 'a' <= nonce[i] <= 'f'
  }

  function StartMarker(nonce: string): string { "__SCTL_" + nonce + "_START__" }

  function DoneMarker(nonce: string): string { "__SCTL_" + nonce + "_DONE_" }

  /** A done marker as printed: the echo of the command has `%` where the exit code goes. */
  predicate RealAt(text: string, done: string, p: nat) {
    OccursAt(text, done, p) && p + |done| < |text| && IsDigit(text[p + |done|])
  }

  /** The last printed done marker at or before `p`. */
  function LastRealUpTo(text: string, done: string, p: nat): (r: Option<nat>)
    ensures r.Some? ==> r.value <= p && RealAt(text, done, r.value)
    ensures forall q: nat :: q <= p && RealAt(text, done, q) ==> r.Some? && q <= r.value
  {
    if RealAt(text, done, p) then Some(p)
    else if p == 0 then None
    else LastRealUpTo(text, done, p - 1)
  }

  function LastReal(text: string, done: string): (r: Option<nat>)
    ensures r.Some? ==> RealAt(text, done, r.value)
    ensures forall q: nat :: RealAt(text, done, q) ==> r.Some? && q <= r.value
  {
    LastRealUpTo(text, done, |text|)
  }

  lemma OneDoubleUnderscore(nonce: string, d: nat)
    requires IsNonce(nonce) && 1 <= d && d + 1 < |DoneMarker(nonce)|
    ensures !(DoneMarker(nonce)[d] == '_' && DoneMarker(nonce)[d + 1] == '_')
  {
    var n := |nonce|;
    var m := DoneMarker(nonce);
    if 7 <= d < 7 + n {
      assert m[d] == nonce[d - 7];
    } else if d >= 7 + n {
      assert m[d..] == "_DONE_"[d - 7 - n..];
    } else if d == 6 {
      assert m[7] == nonce[0];
    }
  }

  lemma CharOf(text: string, needle: string, p: nat, i: nat)
    requires OccursAt(text, needle, p) && i < |needle|
    ensures text[p + i] == needle[i]
  {
    assert text[p..p + |needle|][i] == text[p + i];
  }

  lemma DiffersAt(text: string, needle: string, q: nat, i: nat)
    requires i < |needle| && q + i < |text| && text[q + i] != needle[i]
    ensures !OccursAt(text, needle, q)
  {
    if q + |needle| <= |text| {
      assert text[q..q + |needle|][i] == text[q + i];
    }
  }

  /** No marker begins inside a printed one: two underscores stand only at its start, and a digit follows its end. */
  lemma NoneInsidePrinted(text: string, nonce: string, p: nat, d: nat)
    requires IsNonce(nonce) && RealAt(text, DoneMarker(nonce), p) && 0 < d < |DoneMarker(nonce)|
    ensures !OccursAt(text, DoneMarker(nonce), p + d)
  {
    var m := DoneMarker(nonce);
    assert m[0] == '_' && m[1] == '_';
    CharOf(text, m, p, d);
    if m[d] != '_' {
      DiffersAt(text, m, p + d, 0);
    } else {
      if d + 1 < |m| {
        CharOf(text, m, p, d + 1);
        OneDoubleUnderscore(nonce, d);
      }
      DiffersAt(text, m, p + d, 1);
    }
  }

  /** A printed marker does not run into a later one, so skipping over a later echo skips nothing. */
  lemma PrintedEndsBeforeNext(text: string, nonce: string, p: nat, q: nat)
    requires IsNonce(nonce)
    requires RealAt(text, DoneMarker(nonce), p) && OccursAt(text, DoneMarker(nonce), q) && p < q
    ensures p + |DoneMarker(nonce)| <= q
  {
    if q < p + |DoneMarker(nonce)| { NoneInsidePrinted(text, nonce, p, q - p); }
  }

  lemma InFront(text: string, needle: string, end: nat, q: nat)
    requires q + |needle| <= end <= |text|
    ensures OccursAt(text[..end], needle, q) <==> OccursAt(text, needle, q)
  {
    assert text[..end][q..q + |needle|] == text[q..q + |needle|];
  }

  /** The backward scan: it shrinks the searched part at every echo it meets, and ends at the last printed marker. */
  method FindDone(text: string, nonce: string) returns (pos: Option<nat>)
    requires IsNonce(nonce)
    ensures pos == LastReal(text, DoneMarker(nonce))
  {
    var done := DoneMarker(nonce);
    var end := |text|;
    while true
      invariant 0 <= end <= |text|
      invariant forall q: nat :: RealAt(text, done, q) ==> q + |done| <= end
      decreases end
    {
      var found := RFind(text[..end], done);
      if found.None? {
        forall q: nat ensures !RealAt(text, done, q) {
          if q + |done| <= end { InFront(text, done, end, q); }
        }
        return None;
      }
      var p := found.value;
      InFront(text, done, end, p);
      forall q: nat | RealAt(text, done, q) ensures q <= p && (q < p ==> q + |done| <= p) {
        InFront(text, done, end, q);
        if q < p { PrintedEndsBeforeNext(text, nonce, q, p); }
      }
      if p + |done| < |text| && IsDigit(text[p + |done|]) {
        assert RealAt(text, done, p);
        return Some(p);
      }
      end := p;
    }
  }

  // ----- Cutting out the result -----

  const I32_LIMIT: nat := 0x8000_0000

  predicate AllDigits(s: string) { forall i :: 0 <= i < |s| ==> IsDigit(s[i]) }

  function Value(digits: string): nat
    requires AllDigits(digits)
  {
    if digits == "" then 0
    else 10 * Value(digits[..|digits| - 1]) + (digits[|digits| - 1] - '0') as nat
  }

  /** `parse::<i32>` of a text that starts with a digit, as this one always does. */
  function ParseCode(s: string): Option<nat> {
    if s != "" && AllDigits(s) && Value(s) < I32_LIMIT then Some(Value(s)) else None
  }

  predicate IsSpace(c: char) { c == ' ' || c == '\n' || c == '\r' || c == '\t' }

  function TrimEnd(s: string): string {
    if s != "" && IsSpace(s[|s| - 1]) then TrimEnd(s[..|s| - 1]) else s
  }

  /** What follows the done marker, up to the next double underscore or the end of the text. */
  function ExitCode(afterDone: string): Option<nat> {
    var stop := Find(afterDone, "__");
    ParseCode(TrimEnd(if stop.None? then afterDone else afterDone[..stop.value]))
  }

  function Output(text: string, nonce: string, donePos: nat): string
    requires donePos <= |text|
  {
    var before := text[..donePos];
    var start := RFind(before, StartMarker(nonce));
    var outputStart :=
      if start.None? then 0 else
        var afterStart := start.value + |StartMarker(nonce)|;
        var newline := Find(before[afterStart..], "\n");
        if newline.None? then afterStart else afterStart + newline.value + 1;
    var lastNewline := RFind(before, "\n");
    var outputEnd := if lastNewline.None? then donePos else lastNewline.value;
    if outputStart <= outputEnd then before[outputStart..outputEnd] else ""
  }

  datatype Result = Result(output: string, exitCode: Option<nat>, timedOut: bool)

  /** The result a captured text yields, once a printed done marker is in it. */
  function Captured(text: string, nonce: string): Option<Result> {
    var pos := LastReal(text, DoneMarker(nonce));
    if pos.None? then None
    else Some(Result(Output(text, nonce, pos.value),
                     ExitCode(text[pos.value + |DoneMarker(nonce)|..]), false))
  }

  /** The text of a finished command: older text, markers around the output, exit code, and what came after. */
  function Session(prefix: string, nonce: string, output: string, digits: string, tail: string): string {
    prefix + StartMarker(nonce) + "\n" + output + "\n" + DoneMarker(nonce) + digits + tail
  }

  ghost predicate NoOccurrence(text: string, needle: string) {
    forall p: nat :: !OccursAt(text, needle, p)
  }

  ghost predicate NoPrintedMarker(text: string, done: string) {
    forall p: nat :: !RealAt(text, done, p)
  }

  lemma SliceOfSum(a: string, b: string, c: string, p: nat, q: nat)
    requires |a| <= p <= q <= |a| + |b|
    ensures (a + b + c)[p..q] == b[p - |a|..q - |a|]
  {
  }

  lemma OccursInside(a: string, b: string, c: string, needle: string, p: nat)
    requires |a| <= p && p + |needle| <= |a| + |b|
    ensures OccursAt(a + b + c, needle, p) <==> OccursAt(b, needle, p - |a|)
  {
    SliceOfSum(a, b, c, p, p + |needle|);
  }

  lemma NoneAfterPrinted(front: string, nonce: string, digits: string, tail: string, q: nat)
    requires IsNonce(nonce) && digits != "" && AllDigits(digits)
    requires NoPrintedMarker(tail, DoneMarker(nonce)) && q > |front|
    requires RealAt(front + DoneMarker(nonce) + digits + tail, DoneMarker(nonce), |front|)
    ensures !RealAt(front + DoneMarker(nonce) + digits + tail, DoneMarker(nonce), q)
  {
    var m := DoneMarker(nonce);
    var text, skip := front + m + digits + tail, |front| + |m| + |digits|;
    if q < |front| + |m| {
      if OccursAt(text, m, q) { PrintedEndsBeforeNext(text, nonce, |front|, q); }
    } else if q < skip {
      assert text[q] == digits[q - |front| - |m|];
      DiffersAt(text, m, q, 0);
    } else if q + |m| < |text| {
      assert text == (front + m + digits) + tail + "";
      OccursInside(front + m + digits, tail, "", m, q);
      assert text[q + |m|] == tail[q + |m| - skip];
      assert !RealAt(tail, m, q - skip);
    }
  }

  /** The scan ends at the marker the command printed, whatever the echo and the output contain. */
  lemma LastRealOfSession(front: string, nonce: string, digits: string, tail: string)
    requires IsNonce(nonce) && digits != "" && AllDigits(digits)
    requires NoPrintedMarker(tail, DoneMarker(nonce))
    ensures LastReal(front + DoneMarker(nonce) + digits + tail, DoneMarker(nonce)) == Some(|front|)
  {
    var m := DoneMarker(nonce);
    var text := front + m + digits + tail;
    assert RealAt(text, m, |front|) by {
      assert text == front + m + (digits + tail);
      OccursInside(front, m, digits + tail, m, |front|);
      assert OccursAt(m, m, 0);
      assert text[|front| + |m|] == digits[0];
    }
    forall q: nat | q > |front| ensures !RealAt(text, m, q) {
      NoneAfterPrinted(front, nonce, digits, tail, q);
    }
  }

  lemma StartMarkerHasNoNewline(nonce: string)
    requires IsNonce(nonce)
    ensures forall i :: 0 <= i < |StartMarker(nonce)| ==> StartMarker(nonce)[i] != '\n'
  {
    var s, n := StartMarker(nonce), |nonce|;
    forall i | 0 <= i < |s| ensures s[i] != '\n' {
      if 7 <= i < 7 + n { assert s[i] == nonce[i - 7]; }
      else if i >= 7 + n { assert s[i] == "_START__"[i - 7 - n]; }
    }
  }

  /** The start marker that counts is the printed one: output holds none, and none reaches over a line end. */
  lemma LastStartOfSession(prefix: string, nonce: string, output: string)
    requires IsNonce(nonce) && NoOccurrence(output, StartMarker(nonce))
    ensures RFind(prefix + StartMarker(nonce) + "\n" + output + "\n", StartMarker(nonce)) == Some(|prefix|)
  {
    var s := StartMarker(nonce);
    var text := prefix + s + "\n" + output + "\n";
    StartMarkerHasNoNewline(nonce);
    assert text == prefix + s + ("\n" + output + "\n");
    OccursInside(prefix, s, "\n" + output + "\n", s, |prefix|);
    assert OccursAt(s, s, 0);
    var line := |prefix| + |s|;
    forall q: nat ensures OccursAt(text, s, q) ==> q <= |prefix| {
      if |prefix| < q <= line {
        DiffersAt(text, s, q, line - q);
      } else if q > line {
        if q + |s| == |text| {
          DiffersAt(text, s, q, |s| - 1);
        } else if q + |s| < |text| {
          assert text == (prefix + s + "\n") + output + "\n";
          OccursInside(prefix + s + "\n", output, "\n", s, q);
        }
      }
    }
  }

  lemma FirstIsHere(text: string, needle: string)
    requires needle <= text
    ensures Find(text, needle) == Some(0)
  {
  }

  lemma OutputOfSession(prefix: string, nonce: string, output: string, rest: string)
    requires IsNonce(nonce) && NoOccurrence(output, StartMarker(nonce))
    ensures var front := prefix + StartMarker(nonce) + "\n" + output + "\n";
            Output(front + rest, nonce, |front|) == output
  {
    var s := StartMarker(nonce);
    var front := prefix + s + "\n" + output + "\n";
    assert (front + rest)[..|front|] == front;
    LastStartOfSession(prefix, nonce, output);
    var afterStart := |prefix| + |s|;
    assert front[afterStart..] == "\n" + output + "\n";
    FirstIsHere(front[afterStart..], "\n");
    assert OccursAt(front, "\n", |front| - 1);
    assert front[afterStart + 1..|front| - 1] == output;
  }

  lemma {:induction false} FindAfterDigits(digits: string, tail: string)
    requires AllDigits(digits)
    ensures "__" <= tail ==> Find(digits + tail, "__") == Some(|digits|)
    ensures |tail| <= 1 ==> Find(digits + tail, "__") == None
  {
    if digits == "" {
      assert digits + tail == tail;
      if |tail| == 1 { assert tail[1..] == ""; }
    } else {
      assert (digits + tail)[1..] == digits[1..] + tail;
      assert (digits + tail)[0] == digits[0];
      FindAfterDigits(digits[1..], tail);
    }
  }

  lemma CodeAfterDigits(digits: string, tail: string)
    requires digits != "" && AllDigits(digits) && (tail == "" || "__" <= tail)
    ensures ExitCode(digits + tail) == ParseCode(digits)
  {
    FindAfterDigits(digits, tail);
    assert (digits + tail)[..|digits|] == digits;
    assert tail == "" ==> digits + tail == digits;
  }

  /** The scan stops at the command's own marker: the output is exact, the code is read from what follows. */
  lemma CapturedText(prefix: string, nonce: string, output: string, digits: string, tail: string)
    requires IsNonce(nonce) && NoOccurrence(output, StartMarker(nonce))
    requires digits != "" && AllDigits(digits) && NoPrintedMarker(tail, DoneMarker(nonce))
    ensures Captured(Session(prefix, nonce, output, digits, tail), nonce)
         == Some(Result(output, ExitCode(digits + tail), false))
  {
    hide LastReal, Output, ExitCode, NoOccurrence, NoPrintedMarker, AllDigits, StartMarker, DoneMarker;
    var m := DoneMarker(nonce);
    var front := prefix + StartMarker(nonce) + "\n" + output + "\n";
    var text := Session(prefix, nonce, output, digits, tail);
    assert text == front + m + digits + tail == front + (m + digits + tail);
    LastRealOfSession(front, nonce, digits, tail);
    OutputOfSession(prefix, nonce, output, m + digits + tail);
    assert text[|front| + |m|..] == digits + tail;
  }

  /**
   A captured session yields exactly the command's output and exit code. Only
   the text after the exit code must hold no printed marker, and only the
   output must hold no start marker; the echo before may hold anything.
   */
  lemma CapturedSession(prefix: string, nonce: string, output: string, digits: string, tail: string)
    requires IsNonce(nonce) && NoOccurrence(output, StartMarker(nonce))
    requires digits != "" && AllDigits(digits)
    requires (tail == "" || "__" <= tail) && NoPrintedMarker(tail, DoneMarker(nonce))
    ensures Captured(Session(prefix, nonce, output, digits, tail), nonce)
         == Some(Result(output, ParseCode(digits), false))
  {
    CapturedText(prefix, nonce, output, digits, tail);
    CodeAfterDigits(digits, tail);
    hide *;
  }

  // ----- The rest of the slicing -----

  /** No line end between two positions. */
  predicate OneLine(text: string, from: nat, to: nat) {
    forall i :: from <= i < to && i < |text| ==> text[i] != '\n'
  }

  lemma OneCharOccurs(text: string, p: nat)
    ensures OccursAt(text, "\n", p) <==> p < |text| && text[p] == '\n'
  {
    if p < |text| { assert text[p..p + 1] == [text[p]]; }
  }

  /** Without a start marker the output is all of the text up to its last line end before the done marker. */
  lemma OutputWithoutStart(text: string, nonce: string, done: nat, last: nat)
    requires last <= done <= |text| && NoOccurrence(text[..done], StartMarker(nonce))
    requires OneLine(text, last + 1, done) && (last == done ==> OneLine(text, 0, done))
    requires last < done ==> text[last] == '\n'
    ensures Output(text, nonce, done) == text[..last]
  {
    LastLineEnd(text[..done], last);
  }

  /** The last line end of a text, or its length if it has none. */
  lemma LastLineEnd(text: string, last: nat)
    requires last <= |text| && (last < |text| ==> text[last] == '\n')
    requires OneLine(text, last + 1, |text|) && (last == |text| ==> OneLine(text, 0, last))
    ensures RFind(text, "\n") == if last < |text| then Some(last) else None
  {
    forall p: nat ensures OccursAt(text, "\n", p) <==> p < |text| && text[p] == '\n' { OneCharOccurs(text, p); }
  }

  /** With a start marker the output is what lies between the first line end after it and the last one. */
  lemma OutputBetweenLines(text: string, nonce: string, done: nat, start: nat, first: nat, last: nat)
    requires var s := StartMarker(nonce);
             && done <= |text| && RFind(text[..done], s) == Some(start) && start + |s| <= first <= last < done
             && text[first] == '\n' && text[last] == '\n'
             && OneLine(text, start + |s|, first) && OneLine(text, last + 1, done)
    ensures Output(text, nonce, done) == if first < last then text[first + 1..last] else ""
  {
    hide StartMarker, RFind, Find;
    var before, after := text[..done], start + |StartMarker(nonce)|;
    var rest := before[after..];
    forall i | 0 <= i < |rest| ensures rest[i] == text[after + i] { }
    LastLineEnd(before, last);
    FirstLineEnd(rest, first - after);
    OutputOfSlices(text, nonce, done, start, first, last);
  }

  lemma OutputOfSlices(text: string, nonce: string, done: nat, start: nat, first: nat, last: nat)
    requires var after := start + |StartMarker(nonce)|;
             && after <= first <= last < done <= |text| && RFind(text[..done], StartMarker(nonce)) == Some(start)
             && Find(text[..done][after..], "\n") == Some(first - after) && RFind(text[..done], "\n") == Some(last)
    ensures Output(text, nonce, done) == if first < last then text[first + 1..last] else ""
  {
    hide StartMarker, RFind, Find;
    assert first < last ==> text[..done][first + 1..last] == text[first + 1..last];
  }

  lemma {:induction false} FirstLineEnd(text: string, first: nat)
    requires first < |text| && text[first] == '\n' && OneLine(text, 0, first)
    ensures Find(text, "\n") == Some(first)
  {
    OneCharOccurs(text, 0);
    if first > 0 {
      FirstLineEnd(text[1..], first - 1);
    }
  }

  lemma {:induction false} NoLineEnd(text: string)
    requires OneLine(text, 0, |text|)
    ensures Find(text, "\n") == None
  {
    OneCharOccurs(text, 0);
    if text != "" { NoLineEnd(text[1..]); }
  }

  /** With a start marker and no line end after it, what follows it is the output unless a line end comes before it. */
  lemma OutputOnOneLine(text: string, nonce: string, done: nat, start: nat)
    requires var s := StartMarker(nonce);
             && done <= |text| && RFind(text[..done], s) == Some(start)
             && start + |s| <= done && OneLine(text, start + |s|, done)
    ensures var after := start + |StartMarker(nonce)|;
            Output(text, nonce, done) == if OneLine(text, 0, after) then text[after..done] else ""
  {
    var s, before := StartMarker(nonce), text[..done];
    var after := start + |s|;
    NoLineEnd(before[after..]);
    if OneLine(text, 0, after) {
      LastLineEnd(before, done);
    } else {
      forall p: nat ensures OccursAt(before, "\n", p) <==> p < |before| && before[p] == '\n' {
        OneCharOccurs(before, p);
      }
      var i :| 0 <= i < after && i < |text| && text[i] == '\n';
      assert OccursAt(before, "\n", i);
    }
  }

  // ----- The exit code as a number -----

  function Decimal(n: nat): (s: string)
    ensures s != "" && AllDigits(s)
  {
    (if n < 10 then "" else Decimal(n / 10)) + [('0' as int + n % 10) as char]
  }

  lemma {:induction false} DecimalValue(n: nat)
    ensures Value(Decimal(n)) == n
  {
    var s := Decimal(n);
    if n >= 10 {
      DecimalValue(n / 10);
      assert s[..|s| - 1] == Decimal(n / 10);
    } else {
      assert s[..|s| - 1] == "";
    }
  }

  predicate AllSpace(s: string) { forall i :: 0 <= i < |s| ==> IsSpace(s[i]) }

  lemma {:induction false} SpacesTrimmed(s: string, spaces: string)
    requires AllSpace(spaces) && (s != "" ==> !IsSpace(s[|s| - 1]))
    ensures TrimEnd(s + spaces) == s
  {
    if spaces == "" {
      assert s + spaces == s;
    } else {
      assert (s + spaces)[..|s + spaces| - 1] == s + spaces[..|spaces| - 1];
      SpacesTrimmed(s, spaces[..|spaces| - 1]);
    }
  }

  /** A number after the done marker is the exit code if it fits 31 bits, white space behind it or not. */
  lemma CodeIsNumber(n: nat, spaces: string, tail: string)
    requires AllSpace(spaces) && (tail == "" || "__" <= tail)
    ensures ExitCode(Decimal(n) + spaces + tail) == if n < 0x8000_0000 then Some(n) else None
  {
    var code := Decimal(n) + spaces;
    DecimalValue(n);
    SpacesTrimmed(Decimal(n), spaces);
    FindAfter(code, tail);
    assert (code + tail)[..|code|] == code;
    assert tail == "" ==> code + tail == code;
  }

  /** Anything else there is no exit code. */
  lemma NoNumberNoCode(other: string, spaces: string, tail: string)
    requires AllSpace(spaces) && (tail == "" || "__" <= tail)
    requires '_' !in other && (other != "" ==> !IsSpace(other[|other| - 1])) && (other == "" || !AllDigits(other))
    ensures ExitCode(other + spaces + tail) == None
  {
    var code := other + spaces;
    SpacesTrimmed(other, spaces);
    FindAfter(code, tail);
    assert (code + tail)[..|code|] == code;
    assert tail == "" ==> code + tail == code;
  }

  lemma {:induction false} FindAfter(code: string, tail: string)
    requires (forall i :: 0 <= i < |code| ==> code[i] != '_') && (tail == "" || "__" <= tail)
    ensures Find(code + tail, "__") == if tail == "" then None else Some(|code|)
  {
    if code == "" {
      assert code + tail == tail;
    } else {
      assert (code + tail)[1..] == code[1..] + tail && (code + tail)[0] == code[0];
      FindAfter(code[1..], tail);
    }
  }

  // ----- Polling -----

  /** What one poll brings: output entries, and the exit code once the session has ended. */
  datatype Poll = Poll(entries: seq<string>, exited: Option<Option<nat>>)

  function Joined(entries: seq<string>): string {
    if entries == [] then "" else Joined(entries[..|entries| - 1]) + entries[|entries| - 1]
  }

  /** The result of polling on with some text already collected; the deadline comes when the polls run out. */
  function Waited(nonce: string, collected: string, polls: seq<Poll>): Result
    decreases polls
  {
    if polls == [] then Result(collected, None, true) else
      var text := collected + Joined(polls[0].entries);
      if polls[0].exited.Some? then Result(text, polls[0].exited.value, false)
      else match Captured(text, nonce)
        case Some(result) => result
        case None => Waited(nonce, text, polls[1..])
  }

  method PushAll(accumulated: string, entries: seq<string>) returns (text: string)
    ensures text == accumulated + Joined(entries)
  {
    text := accumulated;
    for i := 0 to |entries|
      invariant text == accumulated + Joined(entries[..i])
    {
      assert entries[..i + 1][..i] == entries[..i];
      text := text + entries[i];
    }
    assert entries[..|entries|] == entries;
  }

  method Scan(text: string, nonce: string) returns (result: Option<Result>)
    requires IsNonce(nonce)
    ensures result == Captured(text, nonce)
  {
    var donePos := FindDone(text, nonce);
    if donePos.None? { return None; }
    var p := donePos.value;
    result := Some(Result(Output(text, nonce, p), ExitCode(text[p + |DoneMarker(nonce)|..]), false));
  }

  /** The text collected after the first `k` polls. */
  function TextAfter(collected: string, polls: seq<Poll>, k: nat): string
    requires k <= |polls|
    decreases k
  {
    if k == 0 then collected else TextAfter(collected + Joined(polls[0].entries), polls[1..], k - 1)
  }

  /** The first `k` polls find the session alive and no printed marker in the text. */
  ghost predicate GoesOn(nonce: string, collected: string, polls: seq<Poll>, k: nat)
    requires k <= |polls|
  {
    forall j :: 0 <= j < k ==>
      polls[j].exited.None? && NoPrintedMarker(TextAfter(collected, polls, j + 1), DoneMarker(nonce))
  }

  /** The result read off at the last printed marker. */
  ghost predicate ReadAtMarker(text: string, nonce: string, result: Result) {
    exists p: nat ::
      && RealAt(text, DoneMarker(nonce), p) && (forall q: nat :: RealAt(text, DoneMarker(nonce), q) ==> q <= p)
      && result == Result(Output(text, nonce, p), ExitCode(text[p + |DoneMarker(nonce)|..]), false)
  }

  /** How the wait ends when the first `k` polls go on: by the deadline, by the session's exit, or at a marker. */
  ghost predicate EndsAfter(nonce: string, collected: string, polls: seq<Poll>, k: nat, result: Result)
    requires k <= |polls|
  {
    && (k == |polls| ==> result == Result(TextAfter(collected, polls, k), None, true))
    && (k < |polls| && polls[k].exited.Some? ==>
          result == Result(TextAfter(collected, polls, k + 1), polls[k].exited.value, false))
    && (k < |polls| && polls[k].exited.None?
        && !NoPrintedMarker(TextAfter(collected, polls, k + 1), DoneMarker(nonce)) ==>
          ReadAtMarker(TextAfter(collected, polls, k + 1), nonce, result))
  }

  lemma CapturedIsRead(text: string, nonce: string)
    ensures Captured(text, nonce) == None <==> NoPrintedMarker(text, DoneMarker(nonce))
    ensures Captured(text, nonce).Some? ==> ReadAtMarker(text, nonce, Captured(text, nonce).value)
  {
  }

  lemma GoesOnBehind(nonce: string, collected: string, polls: seq<Poll>, k: nat)
    requires 0 < k <= |polls| && GoesOn(nonce, collected, polls, k)
    ensures polls[0].exited.None?
    ensures NoPrintedMarker(collected + Joined(polls[0].entries), DoneMarker(nonce))
    ensures GoesOn(nonce, collected + Joined(polls[0].entries), polls[1..], k - 1)
  {
    hide NoPrintedMarker, Joined, DoneMarker;
    var text, rest := collected + Joined(polls[0].entries), polls[1..];
    assert TextAfter(collected, polls, 1) == TextAfter(text, rest, 0) == text;
    forall j | 0 <= j < k - 1
      ensures rest[j].exited.None? && NoPrintedMarker(TextAfter(text, rest, j + 1), DoneMarker(nonce))
    {
      assert rest[j] == polls[j + 1];
      assert TextAfter(collected, polls, j + 2) == TextAfter(text, rest, j + 1);
    }
  }

  lemma EndsAtOnce(nonce: string, collected: string, polls: seq<Poll>)
    ensures EndsAfter(nonce, collected, polls, 0, Waited(nonce, collected, polls))
  {
    hide Joined, DoneMarker, NoPrintedMarker, ReadAtMarker, Captured;
    if polls != [] {
      var text := collected + Joined(polls[0].entries);
      CapturedIsRead(text, nonce);
      assert TextAfter(collected, polls, 1) == TextAfter(text, polls[1..], 0) == text;
    }
  }

  lemma EndsBehind(nonce: string, collected: string, polls: seq<Poll>, k: nat, result: Result)
    requires 0 < k <= |polls|
    requires EndsAfter(nonce, collected + Joined(polls[0].entries), polls[1..], k - 1, result)
    ensures EndsAfter(nonce, collected, polls, k, result)
  {
    hide Joined, DoneMarker, NoPrintedMarker, ReadAtMarker;
    var text, rest := collected + Joined(polls[0].entries), polls[1..];
    assert TextAfter(collected, polls, k) == TextAfter(text, rest, k - 1);
    assert k < |polls| ==>
        polls[k] == rest[k - 1] && TextAfter(collected, polls, k + 1) == TextAfter(text, rest, k);
    hide TextAfter;
  }

  lemma {:induction false} WaitedEnds(nonce: string, collected: string, polls: seq<Poll>, k: nat)
    requires k <= |polls| && GoesOn(nonce, collected, polls, k)
    ensures EndsAfter(nonce, collected, polls, k, Waited(nonce, collected, polls))
    decreases k
  {
    if k == 0 {
      EndsAtOnce(nonce, collected, polls);
    } else {
      var text := collected + Joined(polls[0].entries);
      GoesOnBehind(nonce, collected, polls, k);
      CapturedIsRead(text, nonce);
      hide Captured, NoPrintedMarker, GoesOn, EndsAfter, ReadAtMarker;
      WaitedEnds(nonce, text, polls[1..], k - 1);
      EndsBehind(nonce, collected, polls, k, Waited(nonce, text, polls[1..]));
    }
  }

  /** Entries join one after the other. */
  lemma {:induction false} JoinedOfJoin(a: seq<string>, b: seq<string>)
    ensures Joined(a + b) == Joined(a) + Joined(b)
  {
    if b == [] {
      assert a + b == a;
    } else {
      var front := b[..|b| - 1];
      assert (a + b)[..|a + b| - 1] == a + front && (a + b)[|a + b| - 1] == b[|b| - 1];
      JoinedOfJoin(a, front);
      assert Joined(a) + (Joined(front) + b[|b| - 1]) == Joined(a) + Joined(front) + b[|b| - 1];
    }
  }

  lemma JoinedOne(entry: string)
    ensures Joined([entry]) == entry
  {
    assert [entry][..0] == [];
  }

  /** The wait: the deadline, the session's exit and the marker each end it as stated. */
  method ExecWait(nonce: string, polls: seq<Poll>) returns (result: Result)
    requires IsNonce(nonce)
    ensures result == Waited(nonce, "", polls)
    ensures forall k :: 0 <= k <= |polls| && GoesOn(nonce, "", polls, k) ==> EndsAfter(nonce, "", polls, k, result)
  {
    forall k | 0 <= k <= |polls| && GoesOn(nonce, "", polls, k)
      ensures EndsAfter(nonce, "", polls, k, Waited(nonce, "", polls))
    {
      WaitedEnds(nonce, "", polls, k);
    }
    hide GoesOn, EndsAfter;
    var accumulated := "";
    for k := 0 to |polls|
      invariant Waited(nonce, accumulated, polls[k..]) == Waited(nonce, "", polls)
    {
      assert polls[k..][0] == polls[k] && polls[k..][1..] == polls[k + 1..];
      accumulated := PushAll(accumulated, polls[k].entries);
      if polls[k].exited.Some? {
        return Result(accumulated, polls[k].exited.value, false);
      }
      var found := Scan(accumulated, nonce);
      if found.Some? {
        return found.value;
      }
    }
    return Result(accumulated, None, true);
  }

  /** Up to the first text longer than `front`, the session lives and the text collected is a prefix of `text`. */
  predicate Delivers(text: string, front: nat, collected: string, polls: seq<Poll>)
    decreases polls
  {
    polls == [] ||
    var t := collected + Joined(polls[0].entries);
    && polls[0].exited.None? && t <= text
    && (|t| <= front ==> Delivers(text, front, t, polls[1..]))
  }

  /** How much more than `front` the first text longer than it has. */
  function FirstPast(front: nat, collected: string, polls: seq<Poll>): (c: Option<nat>)
    ensures c.Some? ==> c.value > 0
    decreases polls
  {
    if polls == [] then None else
      var t := collected + Joined(polls[0].entries);
      if |t| > front then Some(|t| - front) else FirstPast(front, t, polls[1..])
  }

  /** The exit code read from a text that goes `c` characters past the done marker. */
  function CodeRead(digits: string, c: nat): Option<nat> {
    if c <= |digits| then ParseCode(digits[..c])
    else if c == |digits| + 1 then None
    else ParseCode(digits)
  }

  /** A cut inside the exit code or between the underscores that close it. */
  predicate CutsCode(digits: string, c: nat) { 0 < c < |digits| || c == |digits| + 1 }

  lemma MarkerInPrefix(text: string, longer: string, done: string, q: nat)
    requires text <= longer
    ensures RealAt(text, done, q) ==> RealAt(longer, done, q) && q + |done| < |text|
  {
    if OccursAt(text, done, q) {
      assert longer[q..q + |done|] == text[q..q + |done|];
    }
  }

  lemma NoMarkerYet(text: string, longer: string, done: string, p: nat)
    requires text <= longer && |text| <= p + |done|
    requires forall q: nat :: RealAt(longer, done, q) ==> q >= p
    ensures LastReal(text, done) == None
  {
    forall q: nat ensures !RealAt(text, done, q) { MarkerInPrefix(text, longer, done, q); }
  }

  /** A poll that has the whole exit code has the whole result. */
  lemma CapturedPrefix(
      prefix: string, nonce: string, output: string, digits: string, rest: string, t: string)
    requires IsNonce(nonce) && NoOccurrence(output, StartMarker(nonce))
    requires digits != "" && AllDigits(digits)
    requires NoPrintedMarker("__" + rest, DoneMarker(nonce))
    requires t <= Session(prefix, nonce, output, digits, "__" + rest)
    requires var have := |t| - |Session(prefix, nonce, output, digits, "")|;
             have == 0 || have >= 2
    ensures Captured(t, nonce) == Some(Result(output, ParseCode(digits), false))
  {
    var m := DoneMarker(nonce);
    var all, body := "__" + rest, Session(prefix, nonce, output, digits, "");
    assert Session(prefix, nonce, output, digits, all) == body + all;
    var tail := t[|body|..];
    assert tail <= all;
    forall q: nat ensures !RealAt(tail, m, q) {
      MarkerInPrefix(tail, all, m, q);
      assert !RealAt(all, m, q);
    }
    assert t == Session(prefix, nonce, output, digits, tail);
    assert |tail| >= 2 ==> tail[..2] == all[..2] == "__";
    CapturedSession(prefix, nonce, output, digits, tail);
  }

  // ----- What a cut exit code reads as -----

  lemma {:induction false} ShorterIsSmaller(digits: string, c: nat)
    requires AllDigits(digits) && 0 < c < |digits| && digits[0] != '0'
    ensures 0 < Value(digits[..c]) < Value(digits)
  {
    var init := digits[..|digits| - 1];
    if c < |init| {
      ShorterIsSmaller(init, c);
      assert init[..c] == digits[..c];
    } else {
      assert digits[..c] == init;
      PositiveValue(init);
    }
  }

  lemma {:induction false} PositiveValue(digits: string)
    requires AllDigits(digits) && digits != "" && digits[0] != '0'
    ensures Value(digits) > 0
  {
    if |digits| > 1 { PositiveValue(digits[..|digits| - 1]); }
  }

  /** Between the two underscores the exit code is lost, whatever it was. */
  lemma CutBetweenUnderscores(digits: string)
    requires digits != "" && AllDigits(digits)
    ensures ExitCode(digits + "_") == None
  {
    FindAfterDigits(digits, "_");
    assert (digits + "_")[|digits|] == '_';
  }

  /** A text that ends between the closing underscores has its output, but no exit code. */
  lemma CapturedBetweenUnderscores(prefix: string, nonce: string, output: string, digits: string)
    requires IsNonce(nonce) && NoOccurrence(output, StartMarker(nonce))
    requires digits != "" && AllDigits(digits)
    ensures Captured(Session(prefix, nonce, output, digits, "_"), nonce) == Some(Result(output, None, false))
  {
    assert NoPrintedMarker("_", DoneMarker(nonce));
    CapturedText(prefix, nonce, output, digits, "_");
    CutBetweenUnderscores(digits);
    hide *;
  }

  /** A text cut anywhere after the done marker gives the output and what can be read of the exit code. */
  lemma CapturedCut(
      prefix: string, nonce: string, output: string, digits: string, rest: string, t: string)
    requires IsNonce(nonce) && NoOccurrence(output, StartMarker(nonce))
    requires digits != "" && AllDigits(digits)
    requires NoPrintedMarker("__" + rest, DoneMarker(nonce))
    requires t <= Session(prefix, nonce, output, digits, "__" + rest)
    requires |t| > |Session(prefix, nonce, output, "", "")|
    ensures var c := |t| - |Session(prefix, nonce, output, "", "")|;
            Captured(t, nonce) == Some(Result(output, CodeRead(digits, c), false))
  {
    var front := Session(prefix, nonce, output, "", "");
    var c := |t| - |front|;
    var text := Session(prefix, nonce, output, digits, "__" + rest);
    assert text == front + digits + ("__" + rest);
    if c <= |digits| {
      assert t == text[..|t|] == front + digits[..c] == Session(prefix, nonce, output, digits[..c], "");
      assert NoPrintedMarker("", DoneMarker(nonce));
      CapturedSession(prefix, nonce, output, digits[..c], "");
    } else if c == |digits| + 1 {
      assert t == text[..|t|] == front + digits + "_" == Session(prefix, nonce, output, digits, "_");
      CapturedBetweenUnderscores(prefix, nonce, output, digits);
    } else {
      CapturedPrefix(prefix, nonce, output, digits, rest, t);
    }
  }

  /**
   However a finished command's text comes in, the first poll that gets past its done marker decides: the
   output is exact, and the exit code is what that poll's text shows of it. Without such a poll time runs out.
   */
  lemma {:induction false} WaitedReads(
      prefix: string, nonce: string, output: string, digits: string, rest: string,
      collected: string, polls: seq<Poll>)
    requires IsNonce(nonce) && NoOccurrence(output, StartMarker(nonce))
    requires digits != "" && AllDigits(digits)
    requires NoPrintedMarker("__" + rest, DoneMarker(nonce))
    requires var text := Session(prefix, nonce, output, digits, "__" + rest);
             var front := Session(prefix, nonce, output, "", "");
             && (forall q: nat :: RealAt(text, DoneMarker(nonce), q) ==> q + |DoneMarker(nonce)| >= |front|)
             && Delivers(text, |front|, collected, polls)
    ensures var first := FirstPast(|Session(prefix, nonce, output, "", "")|, collected, polls);
            var waited := Waited(nonce, collected, polls);
            && (first.Some? ==> waited == Result(output, CodeRead(digits, first.value), false))
            && (first.None? ==> waited.timedOut && waited.exitCode == None)
    decreases polls
  {
    hide Captured, CodeRead, Joined;
    if polls != [] {
      var text := Session(prefix, nonce, output, digits, "__" + rest);
      var front := Session(prefix, nonce, output, "", "");
      var t := collected + Joined(polls[0].entries);
      if |t| <= |front| {
        NothingYet(t, text, nonce, |front|);
        WaitedReads(prefix, nonce, output, digits, rest, t, polls[1..]);
      } else {
        CapturedCut(prefix, nonce, output, digits, rest, t);
      }
    }
  }

  lemma NothingYet(t: string, text: string, nonce: string, front: nat)
    requires t <= text && |t| <= front && front >= |DoneMarker(nonce)|
    requires forall q: nat :: RealAt(text, DoneMarker(nonce), q) ==> q + |DoneMarker(nonce)| >= front
    ensures Captured(t, nonce) == None
  {
    NoMarkerYet(t, text, DoneMarker(nonce), front - |DoneMarker(nonce)|);
  }

  lemma CodeReadUnlessCut(digits: string, c: nat)
    requires ParseCode(digits).Some? && c > 0 && (|digits| > 1 ==> digits[0] != '0')
    ensures CodeRead(digits, c) == ParseCode(digits) <==> !CutsCode(digits, c)
  {
    if 0 < c < |digits| { ShorterIsSmaller(digits, c); }
    assert c == |digits| ==> digits[..c] == digits;
  }

  /**
   `exec_wait` returns exactly the command's output and exit code if and only if the first poll that gets
   past the done marker does not cut the code or the underscores that close it.
   */
  lemma WaitedSession(
      prefix: string, nonce: string, output: string, digits: string, rest: string, polls: seq<Poll>)
    requires IsNonce(nonce) && NoOccurrence(output, StartMarker(nonce))
    requires ParseCode(digits).Some? && (|digits| > 1 ==> digits[0] != '0')
    requires NoPrintedMarker("__" + rest, DoneMarker(nonce))
    requires var text := Session(prefix, nonce, output, digits, "__" + rest);
             var front := Session(prefix, nonce, output, "", "");
             && (forall q: nat :: RealAt(text, DoneMarker(nonce), q) ==> q + |DoneMarker(nonce)| >= |front|)
             && Delivers(text, |front|, "", polls) && FirstPast(|front|, "", polls).Some?
    ensures var first := FirstPast(|Session(prefix, nonce, output, "", "")|, "", polls);
            Waited(nonce, "", polls) == Result(output, ParseCode(digits), false)
            <==> !CutsCode(digits, first.value)
  {
    WaitedReads(prefix, nonce, output, digits, rest, "", polls);
    CodeReadUnlessCut(digits, FirstPast(|Session(prefix, nonce, output, "", "")|, "", polls).value);
    hide *;
  }
}
