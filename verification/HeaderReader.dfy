/**
  The generated header as a compiler sees it: an include guard around definitions of
  string constants, a table of pointers to them, and the lookup function. The reader's
  tokens are its own.
 */
module HeaderReader {
  import opened CxxReader
  import opened LookupReader
  import opened Generator
  import opened EmbeddedData

  datatype Def = Def(ident: string, value: string)

  /** The order in which the struct declares its two fields. */
  datatype FieldOrder = NameFirst | DataFirst

  /** What a header holds: the table `embedded_files` and the function that searches it. */
  datatype Compiled = Compiled(table: seq<TableRow>, lookup: Routine)

  const DEF_TOKENS := "static const std::string "
  const EQUALS_TOKEN := " = "
  const OPEN_TOKENS := "static const struct embedded_file {"
  const FIELD_TOKENS := "const std::string *"
  const CLOSE_TOKENS := "} embedded_files[] = {"

  // ------------------------------------------------------------- reading

  /** `static const std::string ident = value;` */
  function ReadDef(s: string): Read<Def> {
    match Expect(s, DEF_TOKENS)
    case Fail => Fail
    case Got(_, s1) =>
      match ReadIdent(s1)
      case Fail => Fail
      case Got(ident, s2) => ReadInit(ident, s2)
  }

  function ReadInit(ident: string, s: string): Read<Def> {
    match Expect(s, EQUALS_TOKEN)
    case Fail => Fail
    case Got(_, s1) =>
      match ReadString(s1)
      case Fail => Fail
      case Got(value, s2) =>
        match Expect(s2, ";")
        case Fail => Fail
        case Got(_, s3) => Got(Def(ident, value), s3)
  }

  /** What the identifier is defined to be, if it is. */
  function Lookup(defs: seq<Def>, ident: string): Pointer {
    if defs == [] then Null
    else if defs[0].ident == ident then To(defs[0].value)
    else Lookup(defs[1..], ident)
  }

  /** No identifier is defined twice. */
  predicate Distinct(defs: seq<Def>) {
    forall i, j | 0 <= i < j < |defs| :: defs[i].ident != defs[j].ident
  }

  /** `NULL` or the address of something defined. */
  function ReadPointer(s: string, defs: seq<Def>): Read<Pointer> {
    if Expect(s, "NULL").Got? then Got(Null, Expect(s, "NULL").rest)
    else
      match Expect(s, "&")
      case Fail => Fail
      case Got(_, s1) =>
        match ReadIdent(s1)
        case Fail => Fail
        case Got(ident, s2) => if Lookup(defs, ident).To? then Got(Lookup(defs, ident), s2) else Fail
  }

  /** `const std::string *field;` */
  function ReadField(s: string): Read<string> {
    match Expect(s, FIELD_TOKENS)
    case Fail => Fail
    case Got(_, s1) =>
      match ReadIdent(s1)
      case Fail => Fail
      case Got(field, s2) =>
        match Expect(s2, ";")
        case Fail => Fail
        case Got(_, s3) => Got(field, s3)
  }

  /** The declaration of the struct, up to the opening brace of the table. */
  function ReadStruct(s: string): Read<FieldOrder> {
    match Expect(s, OPEN_TOKENS)
    case Fail => Fail
    case Got(_, s1) => ReadStructEnd(ReadList(FIELD_TOKENS, ReadField, SkipSpace(s1)))
  }

  function ReadStructEnd(fields: Read<seq<string>>): Read<FieldOrder> {
    match fields
    case Fail => Fail
    case Got(names, s1) =>
      match Expect(s1, CLOSE_TOKENS)
      case Fail => Fail
      case Got(_, s2) =>
        if names == ["name", "data"] then Got(NameFirst, s2)
        else if names == ["data", "name"] then Got(DataFirst, s2)
        else Fail
  }

  /** `{first, second}`, which initializes the fields in the order of their declaration. */
  function ReadRow(s: string, defs: seq<Def>, order: FieldOrder): Read<TableRow> {
    match Expect(s, "{")
    case Fail => Fail
    case Got(_, s1) =>
      match ReadPointer(s1, defs)
      case Fail => Fail
      case Got(first, s2) => ReadRowEnd(first, s2, defs, order)
  }

  function ReadRowEnd(first: Pointer, s: string, defs: seq<Def>, order: FieldOrder): Read<TableRow> {
    match Expect(s, ", ")
    case Fail => Fail
    case Got(_, s1) =>
      match ReadPointer(s1, defs)
      case Fail => Fail
      case Got(second, s2) =>
        match Expect(s2, "}")
        case Fail => Fail
        case Got(_, s3) =>
          Got(if order.NameFirst? then TableRow(first, second) else TableRow(second, first), s3)
  }

  /** A comma, which may only be missing at the end of the table. */
  function ReadComma(s: string): Read<()> {
    if Expect(s, ",").Got? then Expect(s, ",")
    else if Expect(SkipSpace(s), "}").Got? then Got((), s)
    else Fail
  }

  function ReadEntry(s: string, defs: seq<Def>, order: FieldOrder): Read<TableRow> {
    match ReadRow(s, defs, order)
    case Fail => Fail
    case Got(row, s1) =>
      match ReadComma(s1)
      case Fail => Fail
      case Got(_, s2) => Got(row, s2)
  }

  function EntryReader(defs: seq<Def>, order: FieldOrder): string -> Read<TableRow> {
    s => ReadEntry(s, defs, order)
  }

  /** `#ifndef GUARD`, `#define GUARD` and `#include <string>`, with the white space after them. */
  function ReadStart(s: string): Read<()> {
    match Expect(s, "#ifndef ")
    case Fail => Fail
    case Got(_, s1) =>
      match ReadIdent(s1)
      case Fail => Fail
      case Got(guard, s2) => ReadDefine(guard, s2)
  }

  function ReadDefine(guard: string, s: string): Read<()> {
    match Expect(s, "\n#define ")
    case Fail => Fail
    case Got(_, s1) =>
      match ReadIdent(s1)
      case Fail => Fail
      case Got(guard', s2) =>
        match Token(s2, "#include <string>\n")
        case Fail => Fail
        case Got(_, s3) => if guard' == guard then Got((), SkipSpace(s3)) else Fail
  }

  /** The end of the table, the lookup function, and `#endif` with an identifier in a comment. Nothing follows. */
  function ReadEnd(s: string): Read<Routine> {
    match Expect(s, "};")
    case Fail => Fail
    case Got(_, s1) =>
      match ReadRoutine(s1)
      case Fail => Fail
      case Got(routine, s2) => ReadEndif(routine, s2)
  }

  function ReadEndif(routine: Routine, s: string): Read<Routine> {
    match TokenThenWord(s, "#endif /*", "*/")
    case Fail => Fail
    case Got(_, s1) => if SkipSpace(s1) == "" then Got(routine, "") else Fail
  }

  /** The readers for the parts of a header that do not depend on the files. */
  datatype Parts = Parts(start: string -> Read<()>, struct: string -> Read<FieldOrder>, end: string -> Read<Routine>)

  function ReadParts(parts: Parts, s: string): Read<Compiled> {
    match parts.start(s)
    case Fail => Fail
    case Got(_, s1) =>
      match ReadList(DEF_TOKENS, ReadDef, s1)
      case Fail => Fail
      case Got(defs, s2) => if Distinct(defs) then ReadRows(parts.end, parts.struct(s2), defs) else Fail
  }

  function ReadRows(end: string -> Read<Routine>, struct: Read<FieldOrder>, defs: seq<Def>): Read<Compiled> {
    match struct
    case Fail => Fail
    case Got(order, s1) =>
      match ReadList("{", EntryReader(defs, order), SkipSpace(s1))
      case Fail => Fail
      case Got(rows, s2) =>
        match end(s2)
        case Fail => Fail
        case Got(routine, s3) => Got(Compiled(rows, routine), s3)
  }

  const HEADER_PARTS := Parts(ReadStart, ReadStruct, ReadEnd)

  /** A header. */
  function ReadHeader(s: string): Read<Compiled> {
    ReadParts(HEADER_PARTS, s)
  }

  // -------------------------------------------------------- identifiers

  function NameIdent(i: nat): string {
    NAME_IDENT + Decimal(i)
  }

  function DataIdent(i: nat): string {
    DATA_IDENT + Decimal(i)
  }

  predicate IsIdent(s: string) {
    s != [] && !IsDigit(s[0]) && forall i | 0 <= i < |s| :: IsIdentChar(s[i])
  }

  lemma NumberedIsIdent(prefix: string, n: nat)
    requires IsIdent(prefix)
    ensures IsIdent(prefix + Decimal(n))
  {
    DecimalDigits(n);
    var s := prefix + Decimal(n);
    forall i | 0 <= i < |s| ensures IsIdentChar(s[i]) {
      if i >= |prefix| {
        assert s[i] == Decimal(n)[i - |prefix|] && s[i] in Decimal(n);
      }
    }
  }

  lemma IdentsAreIdents(n: nat)
    ensures IsIdent(NameIdent(n)) && IsIdent(DataIdent(n))
  {
    NumberedIsIdent(NAME_IDENT, n);
    NumberedIsIdent(DATA_IDENT, n);
  }

  /** All the identifiers of a header differ. */
  lemma IdentsDistinct(m: nat, n: nat)
    ensures NameIdent(m) == NameIdent(n) <==> m == n
    ensures DataIdent(m) == DataIdent(n) <==> m == n
    ensures NameIdent(m) != DataIdent(n)
  {
    DecimalInjective(m, n);
    assert NameIdent(m)[|NAME_IDENT|..] == Decimal(m) && NameIdent(n)[|NAME_IDENT|..] == Decimal(n);
    assert DataIdent(m)[|DATA_IDENT|..] == Decimal(m) && DataIdent(n)[|DATA_IDENT|..] == Decimal(n);
    assert NameIdent(m)[17] == 'n' && DataIdent(n)[17] == 'd';
  }

  lemma IdentReads(ident: string, rest: string)
    requires IsIdent(ident) && rest != [] && !IsIdentChar(rest[0])
    ensures ReadIdent(ident + rest) == Got(ident, rest)
  {
    var s := ident + rest;
    SpanOf(IsIdentChar, s, |ident|);
    assert s[..|ident|] == ident && s[|ident|..] == rest;
  }

  lemma {:induction false} LookupFinds(defs: seq<Def>, n: nat)
    requires Distinct(defs) && n < |defs|
    ensures Lookup(defs, defs[n].ident) == To(defs[n].value)
  {
    if n > 0 {
      assert defs[0].ident != defs[n].ident && defs[1..][n - 1] == defs[n];
      LookupFinds(defs[1..], n - 1);
    }
  }
}
