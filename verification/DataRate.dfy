/** Data rates: the two conversions of gateway/backend.go and the JSON form of DatR between them. */
module DataRates {
  import opened Wrappers

  type Int64 = x: int | -0x8000_0000_0000_0000 <= x < 0x8000_0000_0000_0000
  type Uint32 = x: int | 0 <= x < 0x1_0000_0000

  const MAX_INT64: nat := 0x7FFF_FFFF_FFFF_FFFF
  const MAX_UINT32: nat := 0xFFFF_FFFF

  const LORA: string := "LORA"
  const FSK: string := "FSK"

  datatype DataRate = DataRate(modulation: string, spreadFactor: Int64, bandwidth: Int64, bitRate: Int64)

  /** Either a LoRa identifier or, when that is empty, a bit rate. */
  datatype DatR = DatR(lora: string, fsk: Uint32)

  datatype DatRError = NoLoRaMatch | SpreadFactorRange | BandwidthRange | EmptyDatR

  // ----- decimal text -----

  function Digit(d: nat): (c: char)
    requires d < 10
  {
    '0' + d as char
  }

  predicate IsDigit(c: char) {
    '0' <= c <= '9'
  }

  /** `%d` of a natural number, and `strconv.FormatUint`. */
  function Decimal(n: nat): (s: string)
  {
    if n < 10 then [Digit(n)] else Decimal(n / 10) + [Digit(n % 10)]
  }

  /** `%d`. */
  function Printed(n: int): (s: string) {
    if n < 0 then "-" + Decimal(-n) else Decimal(n)
  }

  predicate AllDigits(s: string) {
    forall i :: 0 <= i < |s| ==> IsDigit(s[i])
  }

  function Value(s: string): (n: nat)
    requires AllDigits(s)
  {
    if s == "" then 0 else 10 * Value(s[..|s|-1]) + (s[|s|-1] as int - '0' as int)
  }

  /** `strconv.ParseUint(s, 10, _)` and `strconv.Atoi` on digits: syntax and range errors are None. */
  function Parse(s: string, max: nat): (r: Option<nat>)
    ensures r.Some? ==> r.value <= max
  {
    if s == "" || !AllDigits(s) || Value(s) > max then None else Some(Value(s))
  }

  // ----- text matching -----

  /** `\d*` at the start of `s`, as far as it goes. */
  function DigitRun(s: string): (run: string)
    ensures AllDigits(run)
  {
    if s == "" || !IsDigit(s[0]) then "" else [s[0]] + DigitRun(s[1..])
  }

  function Drop(s: string, n: nat): string {
    if n <= |s| then s[n..] else ""
  }

  /** `SF(\d+)BW(\d+)` matched at the start of `s`; the first run can only end where `B` begins. */
  function MatchHere(s: string): (m: Option<(string, string)>)
  {
    if !("SF" <= s) then None
    else
      var sf := DigitRun(s[2..]);
      var rest := Drop(s[2..], |sf|);
      if sf == "" || !("BW" <= rest) then None
      else
        var bw := DigitRun(rest[2..]);
        if bw == "" then None else Some((sf, bw))
  }

  /** `FindStringSubmatch`: the leftmost match. */
  function FindLoRa(s: string): (m: Option<(string, string)>)
  {
    var here := MatchHere(s);
    if here.Some? || s == "" then here else FindLoRa(s[1..])
  }

  function TrimLeft(s: string): string {
    if s != "" && s[0] == '"' then TrimLeft(s[1..]) else s
  }

  function TrimRight(s: string): string {
    if s != "" && s[|s|-1] == '"' then TrimRight(s[..|s|-1]) else s
  }

  // ----- the four functions -----

  function NewDatRFromDataRate(d: DataRate): (r: DatR) {
    if d.modulation == LORA then DatR("SF" + Printed(d.spreadFactor) + "BW" + Printed(d.bandwidth), 0)
    else DatR("", d.bitRate % 0x1_0000_0000)
  }

  function MarshalJSON(d: DatR): (data: string) {
    if d.lora != "" then "\"" + d.lora + "\"" else Decimal(d.fsk)
  }

  /** The receiver after the call; only one of its fields is assigned. */
  function UnmarshalJSON(d: DatR, data: string): (r: DatR) {
    var i := Parse(data, MAX_UINT32);
    if i.Some? then d.(fsk := i.value) else d.(lora := TrimRight(TrimLeft(data)))
  }

  function NewDataRateFromDatR(d: DatR): (r: Result<DataRate, DatRError>) {
    if d.lora != "" then
      var m := FindLoRa(d.lora);
      if m.None? then Err(NoLoRaMatch)
      else
        var sf := Parse(m.value.0, MAX_INT64);
        if sf.None? then Err(SpreadFactorRange)
        else
          var bw := Parse(m.value.1, MAX_INT64);
          if bw.None? then Err(BandwidthRange) else Ok(DataRate(LORA, sf.value, bw.value, 0))
    else if d.fsk != 0 then Ok(DataRate(FSK, 0, 0, d.fsk))
    else Err(EmptyDatR)
  }

  // ----- printing and parsing -----

  lemma {:induction false} DecimalDigits(n: nat)
    ensures Decimal(n) != "" && AllDigits(Decimal(n))
  {
    if n >= 10 {
      DecimalDigits(n / 10);
    }
  }

  lemma {:induction false} ValueOfDecimal(n: nat)
    ensures AllDigits(Decimal(n)) && Value(Decimal(n)) == n
  {
    DecimalDigits(n);
    if n >= 10 {
      ValueOfDecimal(n / 10);
      assert Decimal(n)[..|Decimal(n)|-1] == Decimal(n / 10);
    }
  }

  lemma ParseDecimal(n: nat, max: nat)
    ensures Parse(Decimal(n), max) == if n <= max then Some(n) else None
  {
    DecimalDigits(n);
    ValueOfDecimal(n);
  }

  lemma {:induction false} RunOfDigits(s: string, rest: string)
    requires AllDigits(s) && (rest == "" || !IsDigit(rest[0]))
    ensures DigitRun(s + rest) == s && Drop(s + rest, |s|) == rest
  {
    if s == "" {
      assert s + rest == rest;
    } else {
      assert (s + rest)[1..] == s[1..] + rest;
      RunOfDigits(s[1..], rest);
    }
  }

  lemma {:induction false} NoMatchWithoutS(s: string)
    requires 'S' !in s
    ensures FindLoRa(s) == None
  {
    if s != "" {
      assert s[0] in s && s[0] != "SF"[0];
      NoMatchWithoutS(s[1..]);
    }
  }

  lemma PrintedChars(n: int)
    ensures 'S' !in Printed(n) && '"' !in Printed(n) && Printed(n) != ""
    ensures n < 0 ==> Printed(n)[0] == '-'
  {
    DecimalDigits(if n < 0 then -n else n);
  }

  function LoRaText(sf: int, bw: int): string {
    "SF" + Printed(sf) + "BW" + Printed(bw)
  }

  lemma MatchNatural(sf: nat, tail: string)
    requires tail != "" && !IsDigit(tail[0])
    ensures MatchHere("SF" + Decimal(sf) + tail) ==
      if !("BW" <= tail) || DigitRun(tail[2..]) == "" then None else Some((Decimal(sf), DigitRun(tail[2..])))
  {
    var s := "SF" + Decimal(sf) + tail;
    assert s[..2] == "SF" && s[2..] == Decimal(sf) + tail;
    DecimalDigits(sf);
    RunOfDigits(Decimal(sf), tail);
  }

  lemma RunOfPrinted(n: int)
    ensures DigitRun(Printed(n)) == if n >= 0 then Decimal(n) else ""
  {
    if n >= 0 {
      DecimalDigits(n);
      RunOfDigits(Decimal(n), "");
      assert Decimal(n) + "" == Decimal(n);
    }
  }

  /** The identifier is found again exactly when neither number carries a sign. */
  lemma FindPrinted(sf: int, bw: int)
    ensures FindLoRa(LoRaText(sf, bw)) == if sf >= 0 && bw >= 0 then Some((Decimal(sf), Decimal(bw))) else None
  {
    hide DigitRun, IsDigit, Decimal, MatchHere, Printed;
    var s, tail := LoRaText(sf, bw), "BW" + Printed(bw);
    OnlyFirstS(sf, bw);
    assert s == "SF" + Printed(sf) + tail;
    if sf < 0 {
      SignedSf(sf, tail);
    } else {
      NaturalPrinted(sf);
      LetterNoDigit(tail);
      MatchNatural(sf, tail);
      assert tail[2..] == Printed(bw);
      RunOfPrinted(bw);
      if bw >= 0 {
        DecimalDigits(bw);
      }
    }
  }

  lemma OnlyFirstS(sf: int, bw: int)
    ensures FindLoRa(LoRaText(sf, bw)) == MatchHere(LoRaText(sf, bw))
  {
    hide MatchHere, Printed;
    var s := LoRaText(sf, bw);
    PrintedChars(sf);
    PrintedChars(bw);
    assert s[1..] == "F" + Printed(sf) + "BW" + Printed(bw);
    NoMatchWithoutS(s[1..]);
  }

  lemma SignedSf(sf: int, tail: string)
    requires sf < 0
    ensures MatchHere("SF" + Printed(sf) + tail) == None
  {
    PrintedChars(sf);
    assert ("SF" + Printed(sf) + tail)[2..][0] == '-';
  }

  lemma NaturalPrinted(n: nat)
    ensures Printed(n) == Decimal(n)
  {
  }

  lemma LetterNoDigit(tail: string)
    requires "BW" <= tail
    ensures tail != "" && !IsDigit(tail[0])
  {
  }

  lemma TrimQuoted(s: string)
    requires s != "" && '"' !in s
    ensures TrimRight(TrimLeft("\"" + s + "\"")) == s
  {
    var q := "\"" + s + "\"";
    assert q[1..] == s + "\"" && q[1..][0] == s[0];
    assert (s + "\"")[..|s|] == s && s[|s|-1] in s;
    assert TrimRight(s) == s;
  }

  lemma UnmarshalQuoted(s: string)
    requires s != "" && '"' !in s
    ensures UnmarshalJSON(DatR("", 0), "\"" + s + "\"") == DatR(s, 0)
  {
    assert !IsDigit(("\"" + s + "\"")[0]);
    TrimQuoted(s);
  }

  // ----- the texts -----

  /** `s` is the decimal text of `n`: a sign if there must be one, and digits without a needless zero. */
  ghost predicate Spells(s: string, n: int) {
    if n < 0 then s != "" && s[0] == '-' && IsDecimal(s[1..], -n) else IsDecimal(s, n)
  }

  ghost predicate IsDecimal(a: string, n: nat) {
    a != "" && AllDigits(a) && Value(a) == n && (|a| > 1 ==> a[0] != '0')
  }

  lemma {:induction false} DecimalIs(n: nat)
    ensures IsDecimal(Decimal(n), n) && (n > 0 ==> Decimal(n)[0] != '0')
  {
    ValueOfDecimal(n);
    DecimalDigits(n);
    if n >= 10 {
      DecimalIs(n / 10);
      DecimalDigits(n / 10);
    }
  }

  lemma PrintedSpells(n: int)
    ensures Spells(Printed(n), n)
  {
    hide IsDecimal;
    DecimalIs(if n < 0 then -n else n);
    if n < 0 {
      assert Printed(n)[1..] == Decimal(-n);
    }
  }

  /** A LoRa rate becomes SF, the spreading factor, BW and the bandwidth, and nothing else. */
  lemma IdentifierIs(d: DataRate)
    requires d.modulation == "LORA"
    ensures exists p, q ::
      Spells(p, d.spreadFactor) && Spells(q, d.bandwidth) && NewDatRFromDataRate(d) == DatR("SF" + p + "BW" + q, 0)
  {
    hide Spells;
    PrintedSpells(d.spreadFactor);
    PrintedSpells(d.bandwidth);
  }

  /** Its JSON text has one quote on each side, and a bit rate has none. */
  lemma JsonIs(d: DatR)
    ensures d.lora != "" ==> MarshalJSON(d) == ['"'] + d.lora + ['"']
    ensures d.lora == "" ==> Spells(MarshalJSON(d), d.fsk)
  {
    PrintedSpells(d.fsk);
  }

  lemma SF7BW125()
    ensures NewDatRFromDataRate(DataRate("LORA", 7, 125, 0)) == DatR("SF7BW125", 0)
    ensures MarshalJSON(DatR("SF7BW125", 0)) == "\"SF7BW125\"" && MarshalJSON(DatR("", 50)) == "50"
  {
    assert Decimal(12) == Decimal(1) + [Digit(2)] == "12";
    assert Decimal(125) == Decimal(12) + [Digit(5)] == "125";
    assert Decimal(50) == Decimal(5) + [Digit(0)] == "50";
    assert "SF" + "7" + "BW" + "125" == "SF7BW125";
  }

  // ----- matching -----

  /** An identifier with the digits `a` and `b` stands at `i`, and its second run of digits ends with `b`. */
  ghost predicate LoRaAt(s: string, i: nat, a: string, b: string) {
    && a != "" && b != "" && AllDigits(a) && AllDigits(b)
    && i <= |s| && "SF" + a + "BW" + b <= s[i..]
    && var end := i + 4 + |a| + |b|; end < |s| ==> !IsDigit(s[end])
  }

  lemma {:induction false} DigitRunIs(s: string)
    ensures DigitRun(s) <= s && (|DigitRun(s)| < |s| ==> !IsDigit(s[|DigitRun(s)|]))
    ensures Drop(s, |DigitRun(s)|) == s[|DigitRun(s)|..]
  {
    if s != "" && IsDigit(s[0]) {
      DigitRunIs(s[1..]);
    }
  }

  lemma MatchedThere(s: string, a: string, b: string)
    requires MatchHere(s) == Some((a, b))
    ensures LoRaAt(s, 0, a, b)
  {
    hide DigitRun, IsDigit, AllDigits;
    var rest := s[2..];
    DigitRunIs(rest);
    var last := rest[|a|..][2..];
    DigitRunIs(last);
    Pieces(s, rest, a, last, b);
  }

  /** The pieces of a match, put together again. */
  lemma Pieces(s: string, rest: string, a: string, last: string, b: string)
    requires "SF" <= s && rest == s[2..] && a <= rest && "BW" <= rest[|a|..] && last == rest[|a|..][2..] && b <= last
    ensures "SF" + a + "BW" + b <= s[0..] && last[|b|..] == s[4+|a|+|b|..]
  {
    var t := last[|b|..];
    assert s == "SF" + (a + ("BW" + (b + t))) by {
      Split(s, "SF");
      Split(rest, a);
      Split(rest[|a|..], "BW");
      Split(last, b);
    }
    Flat(a, b, t);
    assert s[0..] == s;
  }

  lemma Split(s: string, p: string)
    requires p <= s
    ensures s == p + s[|p|..]
  {
  }

  lemma Flat(a: string, b: string, t: string)
    ensures var s := "SF" + (a + ("BW" + (b + t)));
      "SF" + a + "BW" + b <= s && t == s[4+|a|+|b|..]
  {
    assert "SF" + (a + ("BW" + (b + t))) == ("SF" + a + "BW" + b) + t;
  }

  lemma ThereMatched(s: string, a: string, b: string)
    requires LoRaAt(s, 0, a, b)
    ensures MatchHere(s) == Some((a, b))
  {
    hide DigitRun, IsDigit;
    assert s[0..] == s;
    var tail := s[4+|a|+|b|..];
    assert s == "SF" + a + "BW" + b + tail;
    assert s[2..] == a + ("BW" + b + tail);
    LetterNoDigit("BW" + b + tail);
    RunOfDigits(a, "BW" + b + tail);
    assert ("BW" + b + tail)[2..] == b + tail;
    RunOfDigits(b, tail);
  }

  /** What is found is the first identifier in the text, and nothing only where there is none. */
  lemma {:induction false} FindLoRaIs(s: string)
    ensures FindLoRa(s) == None ==> forall i: nat, a, b :: !LoRaAt(s, i, a, b)
    ensures FindLoRa(s).Some? ==> exists i: nat ::
      LoRaAt(s, i, FindLoRa(s).value.0, FindLoRa(s).value.1) && forall j: nat, a, b :: j < i ==> !LoRaAt(s, j, a, b)
  {
    hide MatchHere, LoRaAt;
    forall a, b | LoRaAt(s, 0, a, b) ensures MatchHere(s) == Some((a, b)) {
      ThereMatched(s, a, b);
    }
    if MatchHere(s).Some? {
      MatchedThere(s, MatchHere(s).value.0, MatchHere(s).value.1);
    } else if s == "" {
      NothingInEmpty();
    } else {
      FindLoRaIs(s[1..]);
      forall i: nat, a, b ensures LoRaAt(s, i + 1, a, b) <==> LoRaAt(s[1..], i, a, b) {
        OneOn(s, i, a, b);
      }
      forall i: nat, a, b | FindLoRa(s) == None ensures !LoRaAt(s, i, a, b) {
        assert i > 0 ==> LoRaAt(s, i - 1 + 1, a, b) == LoRaAt(s[1..], i - 1, a, b);
      }
      if FindLoRa(s).Some? {
        var i: nat :| LoRaAt(s[1..], i, FindLoRa(s).value.0, FindLoRa(s).value.1)
          && forall j: nat, a, b :: j < i ==> !LoRaAt(s[1..], j, a, b);
        forall j: nat, a, b | j < i + 1 ensures !LoRaAt(s, j, a, b) {
          assert j > 0 ==> LoRaAt(s, j - 1 + 1, a, b) == LoRaAt(s[1..], j - 1, a, b);
        }
        assert LoRaAt(s, i + 1, FindLoRa(s).value.0, FindLoRa(s).value.1);
      }
    }
  }

  lemma NothingInEmpty()
    ensures forall i: nat, a, b :: !LoRaAt("", i, a, b)
  {
  }

  lemma OneOn(s: string, i: nat, a: string, b: string)
    requires s != ""
    ensures LoRaAt(s, i + 1, a, b) <==> LoRaAt(s[1..], i, a, b)
  {
    if i < |s| {
      assert s[i+1..] == s[1..][i..];
    }
  }

  predicate AllQuotes(s: string) {
    forall k :: 0 <= k < |s| ==> s[k] == '"'
  }

  lemma {:induction false} TrimLeftIs(s: string) returns (quotes: string)
    ensures AllQuotes(quotes) && s == quotes + TrimLeft(s)
    ensures TrimLeft(s) == "" || TrimLeft(s)[0] != '"'
  {
    quotes := "";
    if s != "" && s[0] == '"' {
      var more := TrimLeftIs(s[1..]);
      quotes := [s[0]] + more;
    }
  }

  lemma {:induction false} TrimRightIs(s: string) returns (quotes: string)
    ensures AllQuotes(quotes) && s == TrimRight(s) + quotes
    ensures TrimRight(s) == "" || TrimRight(s)[|TrimRight(s)|-1] != '"'
  {
    quotes := "";
    if s != "" && s[|s|-1] == '"' {
      var more := TrimRightIs(s[..|s|-1]);
      quotes := more + [s[|s|-1]];
    }
  }

  /** Reading JSON takes a number in range for the bit rate, and else the text without the quotes around it. */
  lemma UnmarshalIs(d: DatR, data: string)
    ensures var r := UnmarshalJSON(d, data);
      || (r.lora == d.lora && Parse(data, 0xFFFF_FFFF) == Some(r.fsk))
      || (r.fsk == d.fsk && Parse(data, 0xFFFF_FFFF) == None && exists p, q :: Trimmed(data, p, r.lora, q))
  {
    if Parse(data, 0xFFFF_FFFF) == None {
      var p := TrimLeftIs(data);
      var q := TrimRightIs(TrimLeft(data));
      assert Trimmed(data, p, TrimRight(TrimLeft(data)), q);
    }
  }

  ghost predicate Trimmed(data: string, p: string, s: string, q: string) {
    && data == p + s + q && AllQuotes(p) && AllQuotes(q)
    && (s != "" ==> s[0] != '"' && s[|s|-1] != '"')
  }

  // ----- the round trip -----

  function RoundTrip(d: DataRate): (r: Result<DataRate, DatRError>) {
    NewDataRateFromDatR(UnmarshalJSON(DatR("", 0), MarshalJSON(NewDatRFromDataRate(d))))
  }

  /** The rates that have a DatR of their own. */
  predicate Representable(d: DataRate) {
    || (d.modulation == LORA && d.spreadFactor >= 0 && d.bandwidth >= 0 && d.bitRate == 0)
    || (d.modulation == FSK && 1 <= d.bitRate <= MAX_UINT32 && d.spreadFactor == 0 && d.bandwidth == 0)
  }

  lemma LoRaTrip(d: DataRate)
    requires d.modulation == LORA
    ensures RoundTrip(d) == if d.spreadFactor >= 0 && d.bandwidth >= 0
      then Ok(DataRate(LORA, d.spreadFactor, d.bandwidth, 0)) else Err(NoLoRaMatch)
  {
    var text := LoRaText(d.spreadFactor, d.bandwidth);
    PrintedChars(d.spreadFactor);
    PrintedChars(d.bandwidth);
    UnmarshalQuoted(text);
    FindPrinted(d.spreadFactor, d.bandwidth);
    if d.spreadFactor >= 0 && d.bandwidth >= 0 {
      ParseDecimal(d.spreadFactor, MAX_INT64);
      ParseDecimal(d.bandwidth, MAX_INT64);
    }
  }

  lemma FskTrip(d: DataRate)
    requires d.modulation != LORA
    ensures RoundTrip(d) == var k := d.bitRate % 0x1_0000_0000;
      if k != 0 then Ok(DataRate(FSK, 0, 0, k)) else Err(EmptyDatR)
  {
    ParseDecimal(d.bitRate % 0x1_0000_0000, MAX_UINT32);
  }

  /**
   * Converting to DatR, writing it as JSON, reading that back and converting again returns the same rate
   * exactly for the representable ones: signs, a zero bit rate, and bits above 32 are what is lost.
   */
  lemma RoundTripExactly(d: DataRate)
    ensures RoundTrip(d) == Ok(d) <==> Representable(d)
  {
    if d.modulation == LORA {
      LoRaTrip(d);
    } else {
      FskTrip(d);
    }
  }

  /** A bit rate of 0 does not come back, nor does a negative spreading factor. */
  lemma RatesLost()
    ensures RoundTrip(DataRate(FSK, 0, 0, 0)) != Ok(DataRate(FSK, 0, 0, 0))
    ensures RoundTrip(DataRate(LORA, -7, 125, 0)) != Ok(DataRate(LORA, -7, 125, 0))
  {
    hide RoundTrip;
    RoundTripExactly(DataRate(FSK, 0, 0, 0));
    RoundTripExactly(DataRate(LORA, -7, 125, 0));
  }
}
