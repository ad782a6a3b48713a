/**
 LTE band masks: a list of band numbers to the hex text the modem takes, the
 modem's answer back to a list, and the write-then-verify command sequence.
 */
module Bands {
  import opened Basics
  import opened Bits

  const BAND_LIMIT := 128

  // ----- Encoding -----

  /** The bands a mask can hold; others are dropped without notice. */
  ghost function Wanted(bands: seq<nat>): set<nat> {
    set b | b in bands && 1 <= b <= BAND_LIMIT
  }

  /** The mask of a list: bit N-1 stands for band N. */
  function MaskOf(bands: seq<nat>): nat {
    if bands == [] then 0 else
      var rest := MaskOf(bands[..|bands| - 1]);
      var b := bands[|bands| - 1];
      if 1 <= b <= BAND_LIMIT then Or(rest, Shl(1, b - 1)) else rest
  }

  function HexDigit(d: nat): char
    requires d < 16
  {
    if d < 10 then '0' + d as char else 'A' + (d - 10) as char
  }

  function ToHex(m: nat): string {
    if m < 16 then [HexDigit(m)] else ToHex(m / 16) + [HexDigit(m % 16)]
  }

  method BandsToHex(bands: seq<nat>) returns (hex: string)
    ensures hex == ToHex(MaskOf(bands))
  {
    var mask := 0;
    for k := 0 to |bands|
      invariant mask == MaskOf(bands[..k])
    {
      assert bands[..k + 1][..k] == bands[..k];
      var b := bands[k];
      if 1 <= b <= BAND_LIMIT {
        mask := Or(mask, Shl(1, b - 1));
      }
    }
    assert bands[..|bands|] == bands;
    hex := ToHex(mask);
  }

  // ----- Decoding -----

  function DigitValue(c: char): Option<nat> {
    if '0' <= c <= '9' then Some((c - '0') as nat)
    else if 'A' <= c <= 'F' then Some((c - 'A') as nat + 10)
    else if 'a' <= c <= 'f' then Some((c - 'a') as nat + 10)
    else None
  }

  function HexValue(s: string): Option<nat> {
    if s == "" then Some(0) else
      match (HexValue(s[..|s| - 1]), DigitValue(s[|s| - 1]))
      case (Some(v), Some(d)) => Some(16 * v + d)
      case _ => None
  }

  /** `u128::from_str_radix(_, 16)`: a plus sign may lead, at least one digit must follow, 128 bits must hold it. */
  function FromHex(s: string): Option<nat> {
    var digits := if |s| > 1 && s[0] == '+' then s[1..] else s;
    if digits == "" then None else
      match HexValue(digits)
      case None => None
      case Some(v) => if v <= Ones(BAND_LIMIT) then Some(v) else None
  }

  function TrimLeading(s: string, lead: string): string
    requires lead != ""
  {
    if lead <= s then TrimLeading(s[|lead|..], lead) else s
  }

  /** The bands of a mask below bit `n`, in increasing order. */
  function BandsBelow(val: nat, n: nat): seq<nat> {
    if n == 0 then [] else
      BandsBelow(val, n - 1) + if And(val, Shl(1, n - 1)) != 0 then [n] else []
  }

  /** The bands of the modem's LTE field; no field, or no number in it, reads as none. */
  function BandsIn(field: Option<string>): seq<nat> {
    if field.None? then [] else
      match FromHex(TrimLeading(TrimLeading(field.value, "0x"), "0X"))
      case None => []
      case Some(val) => BandsBelow(val, BAND_LIMIT)
  }

  method ParseBandConfig(field: Option<string>) returns (bands: seq<nat>)
    ensures bands == BandsIn(field)
  {
    if field.None? { return []; }
    var val := FromHex(TrimLeading(TrimLeading(field.value, "0x"), "0X"));
    if val.None? { return []; }
    bands := [];
    for bit := 0 to BAND_LIMIT
      invariant bands == BandsBelow(val.value, bit)
    {
      if And(val.value, Shl(1, bit)) != 0 {
        bands := bands + [bit + 1];
      }
    }
  }

  // ----- Round trips -----

  lemma {:induction false} HexRoundTrip(m: nat)
    ensures HexValue(ToHex(m)) == Some(m)
    ensures |ToHex(m)| > 0
    ensures forall i :: 0 <= i < |ToHex(m)| ==> '0' <= ToHex(m)[i] <= 'F'
  {
    DigitRoundTrip(m % 16);
    if m < 16 {
      assert ToHex(m)[..0] == "";
    } else {
      HexRoundTrip(m / 16);
      assert ToHex(m)[..|ToHex(m)| - 1] == ToHex(m / 16);
    }
  }

  lemma DigitRoundTrip(d: nat)
    requires d < 16
    ensures DigitValue(HexDigit(d)) == Some(d) && '0' <= HexDigit(d) <= 'F'
  {
  }

  lemma {:induction false} BitOfMaskOf(bands: seq<nat>, i: nat)
    ensures Bit(MaskOf(bands), i) <==> i + 1 in Wanted(bands)
  {
    if bands == [] {
      BitOfZero(i);
    } else {
      var rest, b := bands[..|bands| - 1], bands[|bands| - 1];
      assert bands == rest + [b];
      BitOfMaskOf(rest, i);
      if 1 <= b <= BAND_LIMIT {
        BitOfOr(MaskOf(rest), Shl(1, b - 1), i);
        BitOfShl(1, b - 1, i);
        if i >= b - 1 { BitOfOne(i - (b - 1)); }
      }
    }
  }

  lemma SingleBitTest(val: nat, k: nat)
    ensures And(val, Shl(1, k)) != 0 <==> Bit(val, k)
  {
    forall i: nat ensures Bit(And(val, Shl(1, k)), i) <==> i == k && Bit(val, k) {
      BitOfAnd(val, Shl(1, k), i);
      BitOfShl(1, k, i);
      if i >= k { BitOfOne(i - k); }
    }
    if And(val, Shl(1, k)) == 0 {
      BitOfZero(k);
    } else if !Bit(val, k) {
      forall i: nat ensures Bit(And(val, Shl(1, k)), i) <==> Bit(0, i) { BitOfZero(i); }
      Extensional(And(val, Shl(1, k)), 0);
    }
  }

  ghost predicate StrictlyIncreasing(s: seq<nat>) {
    forall i, j :: 0 <= i < j < |s| ==> s[i] < s[j]
  }

  lemma {:induction false} BandsBelowAreBits(val: nat, n: nat)
    ensures StrictlyIncreasing(BandsBelow(val, n))
    ensures forall b :: b in BandsBelow(val, n) <==> 1 <= b <= n && Bit(val, b - 1)
  {
    if n > 0 {
      BandsBelowAreBits(val, n - 1);
      SingleBitTest(val, n - 1);
      hide Bit, And, Shl;
      var below := BandsBelow(val, n - 1);
      assert forall i :: 0 <= i < |below| ==> below[i] in below;
    }
  }

  lemma {:induction false} WordBound(m: nat, n: nat)
    requires forall i: nat :: Bit(m, i) ==> i < n
    ensures m <= Ones(n)
  {
    if n == 0 {
      forall i: nat ensures Bit(m, i) <==> Bit(0, i) { BitOfZero(i); }
      Extensional(m, 0);
    } else {
      forall i: nat | Bit(m / 2, i) ensures i < n - 1 {
        assert Bit(m, i + 1);
      }
      WordBound(m / 2, n - 1);
    }
  }

  lemma MaskFits(bands: seq<nat>)
    ensures MaskOf(bands) <= Ones(BAND_LIMIT)
  {
    forall i: nat | Bit(MaskOf(bands), i) ensures i < BAND_LIMIT { BitOfMaskOf(bands, i); }
    WordBound(MaskOf(bands), BAND_LIMIT);
  }

  lemma TrimmedHex(hex: string)
    requires |hex| > 0 && forall i :: 0 <= i < |hex| ==> '0' <= hex[i] <= 'F'
    ensures TrimLeading(TrimLeading("0x" + hex, "0x"), "0X") == hex
  {
    assert |hex| >= 2 ==> hex[1] != 'x' && hex[1] != 'X';
    assert ("0x" + hex)[2..] == hex;
    assert TrimLeading("0x" + hex, "0x") == TrimLeading(hex, "0x") == hex;
  }

  lemma HexReadsBack(m: nat)
    requires m <= Ones(BAND_LIMIT)
    ensures FromHex(ToHex(m)) == Some(m)
  {
    HexRoundTrip(m);
    assert ToHex(m)[0] != '+';
  }

  lemma HexIsParsed(m: nat)
    requires m <= Ones(BAND_LIMIT)
    ensures BandsIn(Some("0x" + ToHex(m))) == BandsBelow(m, BAND_LIMIT)
  {
    hide FromHex, ToHex, TrimLeading, BandsBelow, Ones;
    HexRoundTrip(m);
    TrimmedHex(ToHex(m));
    HexReadsBack(m);
  }

  // ----- Other ways to write the field -----

  predicate AllHex(s: string) { forall i :: 0 <= i < |s| ==> DigitValue(s[i]).Some? }

  function Upper(s: string): string {
    seq(|s|, i requires 0 <= i < |s| => if 'a' <= s[i] <= 'f' then 'A' + (s[i] - 'a') else s[i])
  }

  lemma {:induction false} UpperHasValue(s: string)
    ensures HexValue(Upper(s)) == HexValue(s)
  {
    if s != "" {
      assert Upper(s)[..|s| - 1] == Upper(s[..|s| - 1]);
      UpperHasValue(s[..|s| - 1]);
    }
  }

  lemma {:induction false} ZeroAddsNothing(s: string)
    ensures HexValue("0" + s) == HexValue(s)
  {
    if s == "" {
      assert "0"[..0] == "";
    } else {
      assert ("0" + s)[..|s|] == "0" + s[..|s| - 1];
      ZeroAddsNothing(s[..|s| - 1]);
    }
  }

  lemma {:induction false} HexHasValue(s: string)
    ensures AllHex(s) <==> HexValue(s).Some?
  {
    if s != "" {
      var front := s[..|s| - 1];
      HexHasValue(front);
      assert AllHex(s) <==> AllHex(front) && DigitValue(s[|s| - 1]).Some?;
    }
  }

  lemma NothingTrimmed(s: string)
    requires |s| >= 2 ==> s[1] !in {'x', 'X'}
    ensures TrimLeading(TrimLeading(s, "0x"), "0X") == s
    ensures TrimLeading(TrimLeading("0x" + s, "0x"), "0X") == s
    ensures TrimLeading(TrimLeading("0X" + s, "0x"), "0X") == s
  {
    assert ("0x" + s)[2..] == s == ("0X" + s)[2..];
    assert ("0X" + s)[1] == 'X';
  }

  /** How a text is read once nothing more can be trimmed. */
  lemma ReadUntrimmed(s: string)
    requires |s| >= 2 ==> s[1] !in {'x', 'X'}
    ensures BandsIn(Some(s)) == match FromHex(s) case None => [] case Some(val) => BandsBelow(val, BAND_LIMIT)
    ensures BandsIn(Some("0x" + s)) == BandsIn(Some("0X" + s)) == BandsIn(Some(s))
  {
    NothingTrimmed(s);
    hide TrimLeading, FromHex, BandsBelow;
  }

  lemma NumberRead(s: string)
    requires s != "" && AllHex(s)
    ensures HexValue(s).Some? && FromHex(s) == FromHex("+" + s)
    ensures FromHex(s) == if HexValue(s).value <= Ones(BAND_LIMIT) then HexValue(s) else None
  {
    hide Ones;
    HexHasValue(s);
    assert DigitValue(s[0]).Some? && s[0] != '+';
    assert ("+" + s)[1..] == s;
    hide HexValue, AllHex;
  }

  lemma SameNumber(s: string, t: string)
    requires AllHex(s) && AllHex(t) && s != "" && t != "" && HexValue(s) == HexValue(t)
    ensures BandsIn(Some(s)) == BandsIn(Some(t))
  {
    NumberRead(s);
    NumberRead(t);
    NotPrefixed(s);
    NotPrefixed(t);
    ReadUntrimmed(s);
    ReadUntrimmed(t);
    hide *;
  }

  lemma NotPrefixed(s: string)
    requires AllHex(s)
    ensures |s| >= 2 ==> s[1] !in {'x', 'X'}
  {
    if |s| >= 2 { assert DigitValue(s[1]).Some?; }
  }

  lemma PrefixedNumber(s: string)
    requires s != "" && AllHex(s)
    ensures BandsIn(Some("0x" + s)) == BandsIn(Some("0X" + s)) == BandsIn(Some("+" + s)) == BandsIn(Some(s))
  {
    NumberRead(s);
    NotPrefixed(s);
    SignedNotPrefixed(s);
    hide *;
    ReadUntrimmed(s);
    ReadUntrimmed("+" + s);
  }

  lemma SignedNotPrefixed(s: string)
    requires AllHex(s)
    ensures |"+" + s| >= 2 ==> ("+" + s)[1] !in {'x', 'X'}
  {
    if s != "" { assert DigitValue(s[0]).Some?; }
  }

  /** The field may have either prefix or none, a plus sign, letters of either case, and leading zeros. */
  lemma FieldIsLenient(s: string)
    requires s != "" && AllHex(s)
    ensures forall t :: t in {"0x" + s, "0X" + s, "+" + s, "0" + s, Upper(s)} ==> BandsIn(Some(t)) == BandsIn(Some(s))
  {
    hide HexValue, BandsIn;
    PrefixedNumber(s);
    UpperHasValue(s);
    ZeroAddsNothing(s);
    assert AllHex("0" + s) && AllHex(Upper(s));
    SameNumber("0" + s, s);
    SameNumber(Upper(s), s);
    hide *;
  }

  /** What is no hexadecimal number of at most 128 bits reads as no bands. */
  lemma NoNumberNoBands(s: string)
    requires (|s| >= 2 ==> s[1] !in {'x', 'X'}) && (s != "" ==> s[0] != '+')
    requires s == "" || !AllHex(s) || HexValue(s) == None || HexValue(s).value > Ones(BAND_LIMIT)
    ensures BandsIn(Some(s)) == []
    ensures BandsIn(None) == []
  {
    ReadUntrimmed(s);
    NoNumber(s);
    hide HexValue, Ones, TrimLeading, FromHex;
  }

  lemma NoNumber(s: string)
    requires s != "" ==> s[0] != '+'
    requires s == "" || !AllHex(s) || HexValue(s) == None || HexValue(s).value > Ones(BAND_LIMIT)
    ensures FromHex(s) == None
  {
    HexHasValue(s);
    hide AllHex, HexValue, Ones;
  }

  /** List to hex and back: the wanted bands, sorted and without repeats. */
  lemma BandsRoundTrip(bands: seq<nat>)
    ensures var read := BandsIn(Some("0x" + ToHex(MaskOf(bands))));
            && StrictlyIncreasing(read)
            && (set b | b in read) == Wanted(bands)
  {
    hide ToHex, MaskOf, BandsIn, BandsBelow, StrictlyIncreasing, Bit, Ones, Wanted;
    var m := MaskOf(bands);
    MaskFits(bands);
    HexIsParsed(m);
    var read := BandsBelow(m, BAND_LIMIT);
    BandsBelowAreBits(m, BAND_LIMIT);
    forall b: nat ensures b in read <==> b in Wanted(bands) {
      WantedAreInRange(bands, b);
      if 1 <= b { BitOfMaskOf(bands, b - 1); }
    }
  }

  lemma WantedAreInRange(bands: seq<nat>, b: nat)
    ensures b in Wanted(bands) ==> 1 <= b <= BAND_LIMIT
  {
  }

  /** Two lists have equal hex exactly when they want the same bands. */
  lemma EqualHexIsEqualSets(a: seq<nat>, b: seq<nat>)
    ensures ToHex(MaskOf(a)) == ToHex(MaskOf(b)) <==> Wanted(a) == Wanted(b)
  {
    HexRoundTrip(MaskOf(a));
    HexRoundTrip(MaskOf(b));
    if Wanted(a) == Wanted(b) {
      forall i: nat ensures Bit(MaskOf(a), i) <==> Bit(MaskOf(b), i) {
        BitOfMaskOf(a, i);
        BitOfMaskOf(b, i);
      }
      Extensional(MaskOf(a), MaskOf(b));
    } else if ToHex(MaskOf(a)) == ToHex(MaskOf(b)) {
      forall x ensures x in Wanted(a) <==> x in Wanted(b) {
        if 1 <= x { BitOfMaskOf(a, x - 1); BitOfMaskOf(b, x - 1); }
      }
    }
  }

  // ----- Write and verify -----

  /** What the modem answers to a read: an error, or a text whose LTE field may be missing. */
  datatype Reply = Error | Text(field: Option<string>)

  datatype Command = WriteBands(hex: string) | ReadBands | Deregister | Reregister

  datatype SetResult = Ok(bands: seq<nat>, didDeregister: bool) | Err

  ghost predicate Shows(reply: Reply, bands: seq<nat>) {
    reply.Text? && Wanted(BandsIn(reply.field)) == Wanted(bands)
  }

  /** The last registration command sent, if any, took the modem off the network. */
  predicate LeftDeregistered(trace: seq<Command>) {
    if trace == [] then false
    else var last := trace[|trace| - 1];
      if last.Deregister? then true
      else if last.Reregister? then false
      else LeftDeregistered(trace[..|trace| - 1])
  }

  /** All that is sent to set `bands` when the answers are these. */
  ghost function Sent(bands: seq<nat>, write1: bool, read1: Reply, write2: bool, read2: Reply): seq<Command> {
    var write := WriteBands(ToHex(MaskOf(bands)));
    if !write1 then [write]
    else if read1.Error? || Shows(read1, bands) then [write, ReadBands]
    else if !write2 then [write, ReadBands, Deregister, write]
    else if read2.Error? || Shows(read2, bands) then [write, ReadBands, Deregister, write, ReadBands]
    else [write, ReadBands, Deregister, write, ReadBands, Reregister]
  }

  lemma LeftAfter(trace: seq<Command>)
    requires trace != []
    ensures LeftDeregistered(trace) <==>
              var last := trace[|trace| - 1];
              last.Deregister? || (!last.Reregister? && LeftDeregistered(trace[..|trace| - 1]))
  {
  }

  lemma LeftDirect(write: Command)
    requires write.WriteBands?
    ensures !LeftDeregistered([write]) && !LeftDeregistered([write, ReadBands])
  {
    LeftAfter([write, ReadBands]);
    assert [write, ReadBands][..1] == [write] && [write][..0] == [];
  }

  lemma LeftRetry(write: Command)
    requires write.WriteBands?
    ensures LeftDeregistered([write, ReadBands, Deregister, write])
    ensures LeftDeregistered([write, ReadBands, Deregister, write, ReadBands])
    ensures !LeftDeregistered([write, ReadBands, Deregister, write, ReadBands, Reregister])
  {
    hide LeftDeregistered;
    var t3 := [write, ReadBands, Deregister];
    var t4, t5 := t3 + [write], t3 + [write, ReadBands];
    LeftAfter(t3);
    LeftAfter(t4);
    LeftAfter(t5);
    LeftAfter(t5 + [Reregister]);
    assert t4[..3] == t3 && t5[..4] == t4;
    assert t4 == [write, ReadBands, Deregister, write] && t5 == [write, ReadBands, Deregister, write, ReadBands];
    assert t5 + [Reregister] == [write, ReadBands, Deregister, write, ReadBands, Reregister];
  }

  lemma SentLeaves(bands: seq<nat>, write1: bool, read1: Reply, write2: bool, read2: Reply)
    ensures LeftDeregistered(Sent(bands, write1, read1, write2, read2)) <==>
              write1 && read1.Text? && !Shows(read1, bands)
              && (!write2 || read2.Error? || Shows(read2, bands))
  {
    var write := WriteBands(ToHex(MaskOf(bands)));
    LeftDirect(write);
    LeftRetry(write);
    hide LeftDeregistered, Shows;
  }

  /**
   Direct write, read-back, and one retry with the modem deregistered. Writes
   succeed or fail as `write1` and `write2` say and may be ignored; the
   read-backs are whatever the modem answers.
   */
  method VerifiedSetBands(bands: seq<nat>, write1: bool, read1: Reply, write2: bool, read2: Reply)
    returns (result: SetResult, trace: seq<Command>)
    ensures result.Ok? ==>
              var last := if result.didDeregister then read2 else read1;
              Shows(last, bands) && result.bands == BandsIn(last.field)
    ensures result.Ok? <==>
              write1 && read1.Text? && (Shows(read1, bands) || (write2 && Shows(read2, bands)))
    ensures result.Ok? ==> (result.didDeregister <==> !Shows(read1, bands))
    ensures trace == Sent(bands, write1, read1, write2, read2)
    ensures LeftDeregistered(trace) <==>
              write1 && read1.Text? && !Shows(read1, bands)
              && (!write2 || read2.Error? || Shows(read2, bands))
  {
    SentLeaves(bands, write1, read1, write2, read2);
    hide LeftDeregistered, Wanted, BandsIn, MaskOf, ToHex;
    var hex := BandsToHex(bands);
    trace := [WriteBands(hex)];
    if !write1 { return Err, trace; }
    trace := trace + [ReadBands];
    if read1.Error? { return Err, trace; }
    var actual := ParseBandConfig(read1.field);
    var actualHex := BandsToHex(actual);
    EqualHexIsEqualSets(actual, bands);
    if actualHex == hex { return Ok(actual, false), trace; }

    trace := trace + [Deregister];
    trace := trace + [WriteBands(hex)];
    if !write2 { return Err, trace; }
    trace := trace + [ReadBands];
    if read2.Error? { return Err, trace; }
    var retryBands := ParseBandConfig(read2.field);
    var retryHex := BandsToHex(retryBands);
    EqualHexIsEqualSets(retryBands, bands);
    if retryHex != hex {
      trace := trace + [Reregister];
      return Err, trace;
    }
    return Ok(retryBands, true), trace;
  }
}
