/**
  The bytes of a file survive the way through the header: reading what the program
  writes for them, by the rules of C++, gives the bytes back.
 */
module EmbeddedData {
  import opened CxxReader
  import opened Generator

  // ------------------------------------------ the text, literal by literal

  const LINE_START := "\n  \""
  const QUOTE := "\""

  function Escapes(data: seq<Byte>): string {
    if data == [] then "" else HexEscape(data[0]) + Escapes(data[1..])
  }

  /** Literals of 16 bytes each, the last of 1 to 16 bytes and still without its closing quote. */
  function OpenLines(data: seq<Byte>): string {
    if |data| <= 16 then LINE_START + Escapes(data)
    else LINE_START + Escapes(data[..16]) + QUOTE + OpenLines(data[16..])
  }

  lemma {:induction false} EscapesSnoc(data: seq<Byte>, b: Byte)
    ensures Escapes(data + [b]) == Escapes(data) + HexEscape(b)
  {
    if data == [] {
      assert data + [b] == [b];
      assert Escapes([b][1..]) == "";
    } else {
      assert (data + [b])[1..] == data[1..] + [b];
      EscapesSnoc(data[1..], b);
      Assoc(HexEscape(data[0]), Escapes(data[1..]), HexEscape(b));
    }
  }

  /** What goes between the text of `n` bytes and the next escape. */
  function Gap(n: nat): string {
    if n % 16 == 0 then QUOTE + LINE_START else ""
  }

  lemma SecondLine(data: seq<Byte>, b: Byte)
    requires |data| == 16
    ensures OpenLines(data + [b]) == OpenLines(data) + Gap(16) + HexEscape(b)
  {
    var more := data + [b];
    assert more[..16] == data && more[16..] == [b];
    EscapesSnoc([], b);
    assert [] + [b] == [b] && Escapes([]) + HexEscape(b) == HexEscape(b);
    var line := LINE_START + Escapes(data);
    Assoc(line, QUOTE, LINE_START + HexEscape(b));
    Assoc(QUOTE, LINE_START, HexEscape(b));
    Assoc(line, QUOTE + LINE_START, HexEscape(b));
  }

  lemma SameLine(data: seq<Byte>, b: Byte)
    requires 0 < |data| < 16
    ensures OpenLines(data + [b]) == OpenLines(data) + Gap(|data|) + HexEscape(b)
  {
    var line := LINE_START + Escapes(data);
    assert OpenLines(data) == line;
    assert |data + [b]| <= 16 && OpenLines(data + [b]) == LINE_START + Escapes(data + [b]);
    EscapesSnoc(data, b);
    Assoc(LINE_START, Escapes(data), HexEscape(b));
    AppendNothing(line);
    NoGap(|data|);
  }

  lemma GapPeriod(n: nat)
    ensures Gap(n + 16) == Gap(n)
  {
  }

  lemma NoGap(n: nat)
    requires 0 < n < 16
    ensures Gap(n) == ""
  {
  }

  lemma AppendNothing(s: string)
    ensures s + "" == s
  {
  }

  /** One byte more either extends the last literal or starts a new one after 16. */
  lemma {:induction false} OpenLinesSnoc(data: seq<Byte>, b: Byte)
    requires data != []
    ensures OpenLines(data + [b]) == OpenLines(data) + Gap(|data|) + HexEscape(b)
    decreases |data|
  {
    if |data| < 16 {
      SameLine(data, b);
    } else if |data| == 16 {
      SecondLine(data, b);
    } else {
      var more, rest, line := data + [b], data[16..], LINE_START + Escapes(data[..16]) + QUOTE;
      assert more[..16] == data[..16] && more[16..] == rest + [b];
      OpenLinesSnoc(rest, b);
      GapPeriod(|rest|);
      Assoc(line, OpenLines(rest), Gap(|data|));
      Assoc(line, OpenLines(rest) + Gap(|data|), HexEscape(b));
    }
  }

  /** The loop with its running counter writes literals of 16 bytes. */
  lemma {:induction false} BytesTextIsLines(data: seq<Byte>)
    requires data != []
    ensures BytesText(data) == OpenLines(data)
  {
    var n := |data| - 1;
    var front, b := data[..n], data[n];
    assert data == front + [b];
    if n == 0 {
      assert BytesText(front) == "";
      EscapesSnoc([], b);
    } else {
      BytesTextIsLines(front);
      OpenLinesSnoc(front, b);
    }
  }

  // ----------------------------------------------------- quotes in the text

  function Quotes(s: string): nat {
    if s == [] then 0 else Quotes(s[1..]) + if s[0] == '\"' then 1 else 0
  }

  lemma {:induction false} QuotesConcat(a: string, b: string)
    ensures Quotes(a + b) == Quotes(a) + Quotes(b)
  {
    if a == [] {
      assert a + b == b;
    } else {
      assert (a + b)[1..] == a[1..] + b;
      QuotesConcat(a[1..], b);
    }
  }

  lemma NoQuotesIn(s: string)
    requires forall i | 0 <= i < |s| :: s[i] != '\"'
    ensures Quotes(s) == 0
  {
    if s != [] {
      NoQuotesIn(s[1..]);
    }
  }

  lemma {:induction false} NoQuotesInEscapes(data: seq<Byte>)
    ensures Quotes(Escapes(data)) == 0
  {
    if data != [] {
      QuotesConcat(HexEscape(data[0]), Escapes(data[1..]));
      NoQuotesIn(HexEscape(data[0]));
      NoQuotesInEscapes(data[1..]);
    }
  }

  lemma QuotesInLine(data: seq<Byte>)
    ensures Quotes(LINE_START + Escapes(data)) == 1
    ensures Quotes(QUOTE) == 1
  {
    QuotesConcat(LINE_START, Escapes(data));
    NoQuotesInEscapes(data);
    NoQuotesIn(LINE_START[..3]);
    QuotesConcat(LINE_START[..3], QUOTE);
    assert LINE_START[..3] + QUOTE == LINE_START;
    assert QUOTE[1..] == [];
  }

  lemma {:induction false} QuotesInLines(data: seq<Byte>)
    requires data != []
    ensures Quotes(OpenLines(data)) == 2 * ((|data| + 15) / 16) - 1
    decreases |data|
  {
    if |data| <= 16 {
      QuotesInLine(data);
    } else {
      var line := LINE_START + Escapes(data[..16]);
      QuotesInLine(data[..16]);
      QuotesConcat(line, QUOTE);
      QuotesConcat(line + QUOTE, OpenLines(data[16..]));
      QuotesInLines(data[16..]);
    }
  }

  /** A pair of quotes for every 16 bytes begun; for an empty file a single quote with no partner. */
  lemma QuotesPaired(data: seq<Byte>)
    ensures Quotes(BytesText(data) + QUOTE) == if data == [] then 1 else 2 * ((|data| + 15) / 16)
  {
    QuotesConcat(BytesText(data), QUOTE);
    QuotesInLine([]);
    if data != [] {
      BytesTextIsLines(data);
      QuotesInLines(data);
    }
  }

  // ------------------------------------------------------------- reading

  lemma {:induction false} SpanOf(p: char -> bool, s: string, n: nat)
    requires n <= |s| && forall i | 0 <= i < n :: p(s[i])
    requires n < |s| ==> !p(s[n])
    ensures Span(p, s) == n
  {
    if n > 0 {
      SpanOf(p, s[1..], n - 1);
    }
  }

  lemma HexDigitReads(n: nat)
    requires n < 16
    ensures IsHexDigit(HexDigit(n)) && HexValue(HexDigit(n)) == n
    ensures n < 10 <==> IsDigit(HexDigit(n))
  {
  }

  /** Two digits and then something else: the escape stops where it was meant to. */
  lemma EscapeReads(b: Byte, rest: string)
    requires rest != [] && !IsHexDigit(rest[0])
    ensures ReadEscape(HexEscape(b)[1..] + rest) == Got(b, rest)
  {
    var h, l := HexDigit(b as int / 16), HexDigit(b as int % 16);
    var s := HexEscape(b)[1..] + rest;
    HexDigitReads(b as int / 16);
    HexDigitReads(b as int % 16);
    assert s[0] == 'x' && s[1..] == [h, l] + rest;
    SpanOf(IsHexDigit, s[1..], 2);
    assert s[1..][..2] == [h, l] && s[1..][2..] == rest;
    assert [h, l][..1] == [h] && [h][..0] == [];
    assert Number(16, [h]) == b as int / 16;
    assert Number(16, [h, l]) == b as int;
  }

  lemma {:induction false} EscapesRead(data: seq<Byte>, rest: string)
    ensures ReadLiteral(Escapes(data) + (QUOTE + rest)) == Got(data, rest)
  {
    var end := QUOTE + rest;
    if data == [] {
      assert Escapes(data) + end == end;
      assert end[1..] == rest;
    } else {
      var tail := Escapes(data[1..]) + end;
      Assoc(HexEscape(data[0]), Escapes(data[1..]), end);
      var s := HexEscape(data[0]) + tail;
      assert s[0] == '\\' && s[1..] == HexEscape(data[0])[1..] + tail;
      assert tail[0] == '\\' || tail[0] == '\"';
      EscapeReads(data[0], tail);
      EscapesRead(data[1..], rest);
      assert [data[0]] + data[1..] == data;
    }
  }

  /** White space and then no opening quote: the end of a run of literals. */
  predicate EndsLiterals(s: string) {
    var next := SkipSpace(s);
    next == [] || next[0] != '\"'
  }

  lemma SkipLineStart(s: string)
    ensures SkipSpace(LINE_START + s) == QUOTE + s
  {
    var t := LINE_START + s;
    assert t[0] == '\n' && t[1] == ' ' && t[2] == ' ' && t[3] == '\"';
    SpanOf(IsSpace, t, 3);
    assert t[3..] == QUOTE + s;
  }

  lemma ReadOneLiteral(data: seq<Byte>, rest: string)
    ensures ReadLiterals(SkipSpace(LINE_START + Escapes(data) + (QUOTE + rest)))
         == if EndsLiterals(rest) then Got(data, rest) else Join(data, ReadLiterals(SkipSpace(rest)))
  {
    Assoc(LINE_START, Escapes(data), QUOTE + rest);
    SkipLineStart(Escapes(data) + (QUOTE + rest));
    var s := QUOTE + (Escapes(data) + (QUOTE + rest));
    assert s[0] == '\"' && s[1..] == Escapes(data) + (QUOTE + rest);
    EscapesRead(data, rest);
  }

  lemma {:induction false} LinesRead(data: seq<Byte>, rest: string)
    requires data != [] && EndsLiterals(rest)
    ensures ReadLiterals(SkipSpace(OpenLines(data) + (QUOTE + rest))) == Got(data, rest)
    decreases |data|
  {
    if |data| <= 16 {
      ReadOneLiteral(data, rest);
    } else {
      var tail := OpenLines(data[16..]) + (QUOTE + rest);
      Assoc(LINE_START + Escapes(data[..16]) + QUOTE, OpenLines(data[16..]), QUOTE + rest);
      Assoc(LINE_START + Escapes(data[..16]), QUOTE, tail);
      LinesRead(data[16..], rest);
      ReadOneLiteral(data[..16], tail);
      assert data[..16] + data[16..] == data;
    }
  }

  // ---------------------------------------------------- decimal numbers

  lemma {:induction false} DecimalDigits(n: nat)
    ensures Decimal(n) != [] && forall c | c in Decimal(n) :: IsDigit(c)
    ensures Number(10, Decimal(n)) == n
  {
    HexDigitReads(n % 10);
    if n < 10 {
      assert Decimal(n)[..0] == [];
    } else {
      DecimalDigits(n / 10);
      assert Decimal(n)[..|Decimal(n)| - 1] == Decimal(n / 10);
    }
  }

  lemma DecimalReads(n: nat, rest: string)
    requires rest != [] && !IsDigit(rest[0])
    ensures ReadDecimal(Decimal(n) + rest) == Got(n, rest)
  {
    var s := Decimal(n) + rest;
    DecimalDigits(n);
    forall i | 0 <= i < |Decimal(n)| ensures IsDigit(s[i]) {
      assert Decimal(n)[i] in Decimal(n);
    }
    SpanOf(IsDigit, s, |Decimal(n)|);
    assert s[..|Decimal(n)|] == Decimal(n) && s[|Decimal(n)|..] == rest;
  }

  /** Numbers are told apart by their decimal text, so the identifiers built from it are distinct. */
  lemma DecimalInjective(m: nat, n: nat)
    ensures Decimal(m) == Decimal(n) <==> m == n
  {
    DecimalDigits(m);
    DecimalDigits(n);
  }

  // ------------------------------------------------- the whole initializer

  lemma ExpectReads(token: string, rest: string)
    ensures Expect(token + rest, token) == Got((), rest)
  {
  }

  /** What follows the bytes in a definition: the closing quote, the length and the rest of the text. */
  function AfterBytes(n: nat, rest: string): string {
    "\",\n  " + (Decimal(n) + (")" + rest))
  }

  lemma AfterQuote(n: nat, rest: string) returns (tail: string)
    ensures AfterBytes(n, rest) == QUOTE + tail
    ensures ",\n" <= tail && EndsLiterals(tail)
    ensures forall value :: ReadSize(value, tail) == FirstChars(value, n, rest)
  {
    var number := Decimal(n) + (")" + rest);
    tail := ",\n  " + number;
    assert AfterBytes(n, rest) == QUOTE + tail;
    DecimalDigits(n);
    assert Decimal(n)[0] in Decimal(n) && number[0] == Decimal(n)[0];
    assert tail[0] == ',' && tail[1] == '\n';
    SpanOf(IsSpace, tail, 0);
    var s := tail[1..];
    assert s[0] == '\n' && s[1] == ' ' && s[2] == ' ' && s[3] == number[0];
    SpanOf(IsSpace, s, 3);
    assert s[3..] == number;
    SizeReads(n, tail, rest);
  }

  lemma SizeReads(n: nat, tail: string, rest: string)
    requires "," <= tail && SkipSpace(tail[1..]) == Decimal(n) + (")" + rest)
    ensures forall value :: ReadSize(value, tail) == FirstChars(value, n, rest)
  {
    DecimalReads(n, ")" + rest);
    ExpectReads(")", rest);
  }

  /** The initializer of a data definition reads back as the file's bytes exactly when there are some. */
  lemma DataReadsBackIff(data: seq<Byte>, rest: string)
    ensures ReadString(STRING_OF + (BytesText(data) + AfterBytes(|data|, rest)))
         == if data != [] then Got(data, rest) else Fail
  {
    ExpectReads(STRING_OF, BytesText(data) + AfterBytes(|data|, rest));
    if data == [] {
      EmptyDataFails(rest);
    } else {
      DataReadsBack(data, rest);
    }
  }

  lemma DataReadsBack(data: seq<Byte>, rest: string)
    requires data != []
    ensures ReadSized(BytesText(data) + AfterBytes(|data|, rest)) == Got(data, rest)
  {
    var tail := AfterQuote(|data|, rest);
    BytesTextIsLines(data);
    LinesRead(data, tail);
    assert (data + ['\0'])[..|data|] == data;
  }

  /** The one quote written for an empty file opens a literal that the end of the line cuts off. */
  lemma EmptyDataFails(rest: string)
    ensures ReadSized(BytesText([]) + AfterBytes(0, rest)) == Fail
  {
    var tail := AfterQuote(0, rest);
    var s := QUOTE + tail;
    assert BytesText([]) + AfterBytes(0, rest) == s;
    SpanOf(IsSpace, s, 0);
    assert s[1..] == tail && tail[0] == ',' && tail[1] == '\n';
    assert tail[1..][0] == '\n';
    assert ReadLiteral(tail[1..]) == Fail;
  }

  /** Different files are written differently. */
  lemma DataTextInjective(data: seq<Byte>, data': seq<Byte>, rest: string)
    requires STRING_OF + (BytesText(data) + AfterBytes(|data|, rest))
          == STRING_OF + (BytesText(data') + AfterBytes(|data'|, rest))
    ensures data == data'
  {
    DataReadsBackIff(data, rest);
    DataReadsBackIff(data', rest);
  }
}
