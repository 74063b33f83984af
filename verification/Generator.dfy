/**
  The program that writes files into a C++ header, and the text it writes.
 */
module Generator {

  /** What `fgetc` returns before the end of the file. */
  type Byte = c: char | c as int < 256 witness '\0'

  datatype File = File(name: string, data: seq<Byte>)

  // ------------------------------------------------------ fixed text

  const GUARD_IFNDEF := "#ifndef TRANSLATION_FILES_H\n"
  const GUARD_DEFINE := "#define TRANSLATION_FILES_H\n\n"
  const INCLUDE_STRING := "#include <string>\n\n"
  const PROLOGUE := GUARD_IFNDEF + GUARD_DEFINE + INCLUDE_STRING

  const DEF := "static const std::string "
  const NAME_IDENT := "translation_file_name_"
  const DATA_IDENT := "translation_file_data_"
  const EQUALS := " = "
  const STRING_OF := "std::string("

  const STRUCT_OPEN := "static const struct embedded_file {\n"
  const STRUCT_NAME := "  const std::string *name;\n"
  const STRUCT_DATA := "  const std::string *data;\n"
  const STRUCT_CLOSE := "} embedded_files[] = {\n"
  const STRUCT := STRUCT_OPEN + STRUCT_NAME + STRUCT_DATA + STRUCT_CLOSE
  const NULL_ROW := "  {NULL, NULL}\n"
  const TABLE_CLOSE := "};\n\n"

  const CODE_SIGNATURE := "static bool find_embedded_file(" + "const std::string &name, std::string &data) {\n"
  const CODE_CURSOR := "  const struct embedded_file *p;\n"
  const CODE_FOR := "  for (p = embedded_files; p->name != NULL; p++) {\n"
  const CODE_IF := "    if (*p->name == name) {\n"
  const CODE_ASSIGN := "      data = *p->data;\n"
  const CODE_FOUND := "      return true;\n"
  const CODE_END_IF := "    }\n"
  const CODE_END_FOR := "  }\n"
  const CODE_MISSING := "  return false;\n"
  const CODE_END := "}\n"
  const CODE_BODY := CODE_FOR + CODE_IF + CODE_ASSIGN + CODE_FOUND + CODE_END_IF + CODE_END_FOR
  const LOOKUP_CODE := CODE_SIGNATURE + CODE_CURSOR + CODE_BODY + CODE_MISSING + CODE_END

  const GUARD_END := "#endif /* TRANSLATION_FILES_H */\n"
  const EPILOGUE := TABLE_CLOSE + LOOKUP_CODE + "\n" + GUARD_END

  // ------------------------------------------------------ formatted text

  function HexDigit(n: nat): char
    requires n < 16
  {
    if n < 10 then '0' + n as char else 'a' + (n - 10) as char
  }

  /** `\\x%02x` */
  function HexEscape(b: Byte): string {
    ['\\', 'x', HexDigit(b as int / 16), HexDigit(b as int % 16)]
  }

  /** `%d`, for the numbers that occur. */
  function Decimal(n: nat): string {
    if n < 10 then [HexDigit(n)] else Decimal(n / 10) + [HexDigit(n % 10)]
  }

  /** What is written for the byte at position `j`. */
  function ByteText(j: nat, b: Byte): string {
    (if j % 16 != 0 then "" else (if j > 0 then "\"" else "") + "\n  \"") + HexEscape(b)
  }

  function BytesText(data: seq<Byte>): string {
    if data == [] then "" else BytesText(data[..|data| - 1]) + ByteText(|data| - 1, data[|data| - 1])
  }

  function NameDef(i: nat, name: string): string {
    DEF + NAME_IDENT + Decimal(i) + EQUALS + "\"" + name + "\";\n"
  }

  function DataDef(i: nat, data: seq<Byte>): string {
    DEF + DATA_IDENT + Decimal(i) + EQUALS + STRING_OF + BytesText(data) + "\",\n  " + Decimal(|data|) + ");\n\n"
  }

  /** The definitions for the files, numbered from 1. */
  function Defs(files: seq<File>): string {
    if files == [] then ""
    else
      var n, file := |files|, files[|files| - 1];
      Defs(files[..n - 1]) + NameDef(n, file.name) + DataDef(n, file.data)
  }

  function RowText(i: nat): string {
    "  {&" + NAME_IDENT + Decimal(i) + ", &" + DATA_IDENT + Decimal(i) + "},\n"
  }

  function Rows(n: nat): string {
    if n == 0 then "" else Rows(n - 1) + RowText(n)
  }

  /** The text before, between and after what depends on the files. */
  datatype Frame = Frame(prologue: string, table: string, epilogue: string)

  const FRAME := Frame(PROLOGUE, STRUCT, EPILOGUE)

  function FramedText(frame: Frame, files: seq<File>): string {
    frame.prologue + Defs(files) + frame.table + Rows(|files|) + NULL_ROW + frame.epilogue
  }

  function HeaderText(files: seq<File>): string {
    FramedText(FRAME, files)
  }

  // --------------------------------------------------------- concatenation

  lemma Assoc(a: string, b: string, c: string)
    ensures (a + b) + c == a + (b + c)
  {
  }

  lemma Assoc4(a: string, b: string, c: string, d: string)
    ensures a + b + c + d == a + (b + c + d)
  {
    Assoc(a, b, c);
    Assoc(a, b + c, d);
  }

  lemma Assoc5(a: string, b: string, c: string, d: string, e: string)
    ensures a + b + c + d + e == a + (b + c + d + e)
  {
    Assoc4(a, b, c, d);
    Assoc(a, b + c + d, e);
  }

  lemma Assoc6(a: string, b: string, c: string, d: string, e: string, f: string)
    ensures a + b + c + d + e + f == a + (b + c + d + e + f)
  {
    Assoc5(a, b, c, d, e);
    Assoc(a, b + c + d + e, f);
  }

  lemma Assoc8(a: string, b: string, c: string, d: string, e: string, f: string, g: string, h: string)
    ensures a + b + c + d + e + f + g + h == a + (b + c + d + e + f + g + h)
  {
    Assoc6(a, b, c, d, e, f);
    Assoc(a, b + c + d + e + f, g);
    Assoc(a, b + c + d + e + f + g, h);
  }

  lemma Assoc10(
      a: string, b: string, c: string, d: string, e: string, f: string, g: string, h: string, k: string, l: string)
    ensures a + b + c + d + e + f + g + h + k + l == a + (b + c + d + e + f + g + h + k + l)
  {
    Assoc8(a, b, c, d, e, f, g, h);
    Assoc(a, b + c + d + e + f + g + h, k);
    Assoc(a, b + c + d + e + f + g + h + k, l);
  }

  // ---------------------------------------------------------- the program

  /** The inner loop of `main`: one file's bytes. `j` counts them in an `int`. */
  method PrintBytes(out: string, data: seq<Byte>) returns (out': string, j: nat)
    requires |data| < 0x8000_0000
    ensures out' == out + BytesText(data) && j == |data|
  {
    out', j := out, 0;
    while j < |data|
      invariant j <= |data| && out' == out + BytesText(data[..j])
    {
      assert data[..j + 1][..j] == data[..j];
      ghost var before := out';
      if j % 16 == 0 {
        if j > 0 {
          out' := out' + "\"";
        }
        out' := out' + "\n  \"";
      }
      out' := out' + HexEscape(data[j]);
      assert out' == before + ByteText(j, data[j]);
      Assoc(out, BytesText(data[..j]), ByteText(j, data[j]));
      j := j + 1;
    }
    assert data[..j] == data;
  }

  method PrintFile(out: string, i: nat, file: File) returns (out': string)
    requires |file.data| < 0x8000_0000
    ensures out' == out + NameDef(i, file.name) + DataDef(i, file.data)
  {
    out' := out + DEF + NAME_IDENT + Decimal(i) + EQUALS + "\"" + file.name + "\";\n";
    Assoc8(out, DEF, NAME_IDENT, Decimal(i), EQUALS, "\"", file.name, "\";\n");
    ghost var start := out';
    out' := out' + DEF + DATA_IDENT + Decimal(i) + EQUALS + STRING_OF;
    var j;
    out', j := PrintBytes(out', file.data);
    out' := out' + "\",\n  " + Decimal(j) + ");\n\n";
    Assoc10(
      start, DEF, DATA_IDENT, Decimal(i), EQUALS, STRING_OF, BytesText(file.data), "\",\n  ", Decimal(j), ");\n\n");
  }

  /** The first loop of `main`, over the arguments. */
  method PrintDefs(out: string, files: seq<File>) returns (out': string)
    requires |files| < 0x7fff_ffff
    requires forall file | file in files :: |file.data| < 0x8000_0000
    ensures out' == out + Defs(files)
  {
    out' := out;
    for i := 1 to |files| + 1
      invariant out' == out + Defs(files[..i - 1])
    {
      assert files[..i][..i - 1] == files[..i - 1];
      out' := PrintFile(out', i, files[i - 1]);
      Assoc4(out, Defs(files[..i - 1]), NameDef(i, files[i - 1].name), DataDef(i, files[i - 1].data));
    }
    assert files[..|files|] == files;
  }

  /** The second loop of `main`. */
  method PrintRows(out: string, n: nat) returns (out': string)
    requires n < 0x7fff_ffff
    ensures out' == out + Rows(n)
  {
    out' := out;
    for i := 1 to n + 1
      invariant out' == out + Rows(i - 1)
    {
      ghost var before := out';
      out' := out' + "  {&" + NAME_IDENT + Decimal(i) + ", &" + DATA_IDENT + Decimal(i) + "},\n";
      Assoc8(before, "  {&", NAME_IDENT, Decimal(i), ", &", DATA_IDENT, Decimal(i), "},\n");
      Assoc(out, Rows(i - 1), RowText(i));
    }
  }

  /** `main`, with the files' contents for arguments and the text of the header for output. */
  method Print(files: seq<File>) returns (out: string)
    requires |files| < 0x7fff_ffff
    requires forall file | file in files :: |file.data| < 0x8000_0000
    ensures out == HeaderText(files)
  {
    out := GUARD_IFNDEF;
    out := out + GUARD_DEFINE;
    out := out + INCLUDE_STRING;
    out := PrintDefs(out, files);
    ghost var defs := out;
    out := out + STRUCT_OPEN;
    out := out + STRUCT_NAME;
    out := out + STRUCT_DATA;
    out := out + STRUCT_CLOSE;
    Assoc5(defs, STRUCT_OPEN, STRUCT_NAME, STRUCT_DATA, STRUCT_CLOSE);
    out := PrintRows(out, |files|);
    out := out + NULL_ROW;
    ghost var rows := out;
    out := out + TABLE_CLOSE;
    out := out + LOOKUP_CODE + "\n";
    out := out + GUARD_END;
    Assoc(rows + TABLE_CLOSE, LOOKUP_CODE, "\n");
    Assoc5(rows, TABLE_CLOSE, LOOKUP_CODE, "\n", GUARD_END);
  }
}
