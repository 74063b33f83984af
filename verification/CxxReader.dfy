/**
  A reader for the part of C++ that the generated header is written in. String
  literals follow ISO/IEC 14882:2011: a hexadecimal escape takes every hexadecimal
  digit that follows it (section 2.14.3), and adjacent literals are joined after
  their escapes have been replaced (section 2.2, phases 5 and 6, and section 2.14.5).
 */
module CxxReader {

  datatype Read<+T> = Fail | Got(value: T, rest: string)

  // ----------------------------------------------------------- characters

  predicate IsSpace(c: char) {
    c == ' ' || c == '\n' || c == '\t'
  }

  predicate IsDigit(c: char) {
    '0' <= c <= '9'
  }

  predicate IsHexDigit(c: char) {
    IsDigit(c) || 'a' <= c <= 'f' || 'A' <= c <= 'F'
  }

  predicate IsOctalDigit(c: char) {
    '0' <= c <= '7'
  }

  predicate IsIdentChar(c: char) {
    IsDigit(c) || 'a' <= c <= 'z' || 'A' <= c <= 'Z' || c == '_'
  }

  function HexValue(c: char): (v: nat)
    requires IsHexDigit(c)
    ensures v < 16
  {
    if IsDigit(c) then c as int - '0' as int
    else if 'a' <= c <= 'f' then c as int - 'a' as int + 10
    else c as int - 'A' as int + 10
  }

  /** How many characters at the front of `s` satisfy `p`. */
  function Span(p: char -> bool, s: string): (n: nat)
    ensures n <= |s|
    ensures forall i | 0 <= i < n :: p(s[i])
    ensures n < |s| ==> !p(s[n])
  {
    if s != [] && p(s[0]) then 1 + Span(p, s[1..]) else 0
  }

  function SkipSpace(s: string): (rest: string)
    ensures |rest| <= |s|
  {
    s[Span(IsSpace, s)..]
  }

  /** The number that the digits write in this base. */
  function Number(base: nat, digits: string): nat
    requires forall c | c in digits :: IsHexDigit(c)
  {
    if digits == [] then 0
    else Number(base, digits[..|digits| - 1]) * base + HexValue(digits[|digits| - 1])
  }

  // -------------------------------------------------------- string literals

  /** The character with this value, if a `char` can hold it. */
  function CharOf(value: nat, rest: string): Read<char> {
    if value < 256 then Got(value as char, rest) else Fail
  }

  /** An escape sequence, from the character after the backslash on. */
  function ReadEscape(s: string): Read<char> {
    if s == [] then Fail
    else if s[0] == 'x' then
      var n := Span(IsHexDigit, s[1..]);
      if n == 0 then Fail else CharOf(Number(16, s[1..][..n]), s[1..][n..])
    else if IsOctalDigit(s[0]) then
      var n := Span(IsOctalDigit, s);
      var m := if n < 3 then n else 3;
      CharOf(Number(8, s[..m]), s[m..])
    else
      match s[0]
      case '\'' => Got('\'', s[1..])
      case '\"' => Got('\"', s[1..])
      case '?' => Got('?', s[1..])
      case '\\' => Got('\\', s[1..])
      case 'a' => Got(7 as char, s[1..])
      case 'b' => Got(8 as char, s[1..])
      case 'f' => Got(12 as char, s[1..])
      case 'n' => Got('\n', s[1..])
      case 'r' => Got('\r', s[1..])
      case 't' => Got('\t', s[1..])
      case 'v' => Got(11 as char, s[1..])
      case _ => Fail
  }

  lemma EscapeConsumes(s: string)
    requires ReadEscape(s).Got?
    ensures |ReadEscape(s).rest| < |s|
  {
  }

  /** A string literal, from the character after the opening quote on. It cannot span lines. */
  function ReadLiteral(s: string): Read<string>
    decreases |s|
  {
    if s == [] || s[0] == '\n' then Fail
    else if s[0] == '\"' then Got([], s[1..])
    else if s[0] == '\\' then
      match ReadEscape(s[1..])
      case Fail => Fail
      case Got(c, rest) => EscapeConsumes(s[1..]); Prepend(c, ReadLiteral(rest))
    else Prepend(s[0], ReadLiteral(s[1..]))
  }

  function Prepend(c: char, r: Read<string>): Read<string> {
    match r
    case Fail => Fail
    case Got(value, rest) => Got([c] + value, rest)
  }

  lemma {:induction false} LiteralConsumes(s: string)
    requires ReadLiteral(s).Got?
    ensures |ReadLiteral(s).rest| < |s|
    decreases |s|
  {
    if s[0] == '\"' {
    } else if s[0] == '\\' {
      EscapeConsumes(s[1..]);
      LiteralConsumes(ReadEscape(s[1..]).rest);
    } else {
      LiteralConsumes(s[1..]);
    }
  }

  function Join(value: string, r: Read<string>): Read<string> {
    match r
    case Fail => Fail
    case Got(more, rest) => Got(value + more, rest)
  }

  /** One or more literals with white space between them, joined. */
  function ReadLiterals(s: string): Read<string>
    decreases |s|
  {
    if s == [] || s[0] != '\"' then Fail
    else
      match ReadLiteral(s[1..])
      case Fail => Fail
      case Got(value, rest) =>
        LiteralConsumes(s[1..]);
        var next := SkipSpace(rest);
        if next == [] || next[0] != '\"' then Got(value, rest)
        else Join(value, ReadLiterals(next))
  }

  // ------------------------------------------------------- other tokens

  function Expect(s: string, token: string): Read<()> {
    if token <= s then Got((), s[|token|..]) else Fail
  }

  function ReadDecimal(s: string): Read<nat> {
    var n := Span(IsDigit, s);
    if n == 0 then Fail else Got(Number(10, s[..n]), s[n..])
  }

  function ReadIdent(s: string): Read<string> {
    var n := Span(IsIdentChar, s);
    if n == 0 || IsDigit(s[0]) then Fail else Got(s[..n], s[n..])
  }

  // -------------------------------------------------- lists of things

  /** One thing, with the white space after it. */
  function ReadItem<T>(item: string -> Read<T>, s: string): Read<T> {
    match item(s)
    case Fail => Fail
    case Got(value, rest) => Got(value, SkipSpace(rest))
  }

  function Cons<T>(value: T, r: Read<seq<T>>): Read<seq<T>> {
    match r
    case Fail => Fail
    case Got(values, rest) => Got([value] + values, rest)
  }

  /** Things of one kind, as long as the text goes on with the token they start with. */
  function ReadList<T>(open: string, item: string -> Read<T>, s: string): Read<seq<T>>
    decreases |s|
  {
    if Expect(s, open).Fail? then Got([], s)
    else
      match ReadItem(item, s)
      case Fail => Fail
      case Got(value, rest) => if |rest| < |s| then Cons(value, ReadList(open, item, rest)) else Fail
  }

  // ---------------------------------------------- values of `std::string`

  /** A literal as a C string: what lies before the first null character. */
  function CString(value: string): string {
    value[..Span(c => c != '\0', value)]
  }

  /** The array behind the literal has a null character at its end, and `n` may reach as far as that. */
  function FirstChars(value: string, n: nat, rest: string): Read<string> {
    if n <= |value| + 1 then Got((value + ['\0'])[..n], rest) else Fail
  }

  /** `"..." "...", n)`, with white space around the parts. */
  function ReadSized(s: string): Read<string> {
    match ReadLiterals(SkipSpace(s))
    case Fail => Fail
    case Got(value, s1) => ReadSize(value, s1)
  }

  function ReadSize(value: string, s: string): Read<string> {
    match Expect(s, ",")
    case Fail => Fail
    case Got(_, s1) =>
      match ReadDecimal(SkipSpace(s1))
      case Fail => Fail
      case Got(n, s2) =>
        match Expect(s2, ")")
        case Fail => Fail
        case Got(_, s3) => FirstChars(value, n, s3)
  }

  /** `"..." "..."` or `std::string("..." "...", n)`. */
  function ReadString(s: string): Read<string> {
    match Expect(s, "std::string(")
    case Got(_, s1) => ReadSized(s1)
    case Fail =>
      match ReadLiterals(s)
      case Fail => Fail
      case Got(value, rest) => Got(CString(value), rest)
  }
}
