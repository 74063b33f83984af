/**
  From files to header to lookup: the generated table holds the files that went in,
  and looking a name up in it finds the first file of that name.
 */
module EmbeddedFiles {
  import opened CxxReader
  import opened LookupReader
  import opened Generator
  import opened EmbeddedData
  import opened EmbeddedNames
  import opened HeaderReader
  import opened ListReading
  import opened EmbeddedLookup
  import opened EmbeddedFrame

  // ---------------------------------------------------- one definition

  lemma DefReads(ident: string, init: string, value: string, rest: string)
    requires IsIdent(ident)
    requires ReadString(init) == Got(value, ";" + rest)
    ensures ReadDef(DEF_TOKENS + (ident + (EQUALS_TOKEN + init))) == Got(Def(ident, value), rest)
  {
    ExpectReads(DEF_TOKENS, ident + (EQUALS_TOKEN + init));
    assert (EQUALS_TOKEN + init)[0] == ' ';
    IdentReads(ident, EQUALS_TOKEN + init);
    ExpectReads(EQUALS_TOKEN, init);
    ExpectReads(";", rest);
  }

  lemma DefFails(ident: string, init: string)
    requires IsIdent(ident)
    requires ReadString(init) == Fail
    ensures ReadDef(DEF_TOKENS + (ident + (EQUALS_TOKEN + init))) == Fail
  {
    ExpectReads(DEF_TOKENS, ident + (EQUALS_TOKEN + init));
    assert (EQUALS_TOKEN + init)[0] == ' ';
    IdentReads(ident, EQUALS_TOKEN + init);
    ExpectReads(EQUALS_TOKEN, init);
  }

  lemma NameDefNested(i: nat, name: string, rest: string)
    ensures NameDef(i, name) + rest
         == DEF_TOKENS + (NameIdent(i) + (EQUALS_TOKEN + (QUOTE + (name + (QUOTE + (";" + ("\n" + rest)))))))
  {
    var a, b, c, d := DEF_TOKENS, NameIdent(i), EQUALS_TOKEN, QUOTE;
    var end := "\";\n" + rest;
    assert end == QUOTE + (";" + ("\n" + rest));
    Assoc(DEF_TOKENS, NAME_IDENT, Decimal(i));
    assert NameDef(i, name) == a + b + c + d + name + "\";\n";
    Nest6(a, b, c, d, name, "\";\n", rest);
  }

  lemma Nest6(a: string, b: string, c: string, d: string, e: string, f: string, rest: string)
    ensures (a + b + c + d + e + f) + rest == a + (b + (c + (d + (e + (f + rest)))))
  {
    Assoc(a + b + c + d + e, f, rest);
    Assoc(a + b + c + d, e, f + rest);
    Assoc(a + b + c, d, e + (f + rest));
    Assoc(a + b, c, d + (e + (f + rest)));
    Assoc(a, b, c + (d + (e + (f + rest))));
  }

  lemma DataDefNested(i: nat, data: seq<Byte>, rest: string)
    ensures DataDef(i, data) + rest
         == DEF_TOKENS + (DataIdent(i) + (EQUALS_TOKEN
            + (STRING_OF + (BytesText(data) + AfterBytes(|data|, ";" + ("\n\n" + rest))))))
  {
    var text, number, end := BytesText(data), Decimal(|data|), ");\n\n";
    CloseText(rest);
    Assoc(DEF_TOKENS, DATA_IDENT, Decimal(i));
    Nest8(DEF_TOKENS, DataIdent(i), EQUALS_TOKEN, STRING_OF, text, "\",\n  ", number, end, rest);
  }

  lemma CloseText(rest: string)
    ensures ");\n\n" + rest == ")" + (";" + ("\n\n" + rest))
  {
  }

  lemma Nest8(
      a: string, b: string, c: string, d: string, e: string, f: string, g: string, h: string, rest: string)
    ensures (a + b + c + d + e + f + g + h) + rest == a + (b + (c + (d + (e + (f + (g + (h + rest)))))))
  {
    Assoc(a + b + c + d + e + f + g, h, rest);
    Assoc(a + b + c + d + e + f, g, h + rest);
    Nest6(a, b, c, d, e, f, g + (h + rest));
  }

  lemma SemicolonEndsLiterals(rest: string)
    ensures EndsLiterals(";" + rest)
  {
    assert (";" + rest)[0] == ';';
    SpanOf(IsSpace, ";" + rest, 0);
  }

  lemma NameDefReads(i: nat, name: string, rest: string)
    requires Plain(name)
    ensures ReadDef(NameDef(i, name) + rest) == Got(Def(NameIdent(i), name), "\n" + rest)
  {
    NameDefNested(i, name, rest);
    SemicolonEndsLiterals("\n" + rest);
    NameReadsBackIff(name, ";" + ("\n" + rest));
    IdentsAreIdents(i);
    DefReads(NameIdent(i), QUOTE + (name + (QUOTE + (";" + ("\n" + rest)))), name, "\n" + rest);
  }

  lemma DataDefReads(i: nat, data: seq<Byte>, rest: string)
    ensures ReadDef(DataDef(i, data) + rest)
         == if data != [] then Got(Def(DataIdent(i), data), "\n\n" + rest) else Fail
  {
    DataDefNested(i, data, rest);
    var init := STRING_OF + (BytesText(data) + AfterBytes(|data|, ";" + ("\n\n" + rest)));
    DataReadsBackIff(data, ";" + ("\n\n" + rest));
    IdentsAreIdents(i);
    if data != [] {
      DefReads(DataIdent(i), init, data, "\n\n" + rest);
    } else {
      DefFails(DataIdent(i), init);
    }
  }

  // ---------------------------------------------------- all definitions

  /** The definitions of the files from position `k` on. */
  function DefsFrom(files: seq<File>, k: nat): string
    requires k <= |files|
    decreases |files| - k
  {
    if k == |files| then ""
    else NameDef(k + 1, files[k].name) + (DataDef(k + 1, files[k].data) + DefsFrom(files, k + 1))
  }

  lemma DefsStep(files: seq<File>, k: nat)
    requires k < |files|
    ensures Defs(files[..k + 1])
         == Defs(files[..k]) + NameDef(k + 1, files[k].name) + DataDef(k + 1, files[k].data)
  {
    assert files[..k + 1][..k] == files[..k];
  }

  lemma {:induction false} DefsSplit(files: seq<File>, k: nat)
    requires k <= |files|
    ensures Defs(files[..k]) + DefsFrom(files, k) == Defs(files)
    decreases |files| - k
  {
    if k == |files| {
      assert files[..k] == files;
      AppendNothing(Defs(files));
    } else {
      DefsSplit(files, k + 1);
      DefsStep(files, k);
      var defs, name, data := Defs(files[..k]), NameDef(k + 1, files[k].name), DataDef(k + 1, files[k].data);
      Assoc(defs + name, data, DefsFrom(files, k + 1));
      Assoc(defs, name, data + DefsFrom(files, k + 1));
    }
  }

  lemma DefsAll(files: seq<File>)
    ensures Defs(files) == DefsFrom(files, 0)
  {
    DefsSplit(files, 0);
    assert Defs(files[..0]) == "";
  }

  predicate AllPlain(files: seq<File>) {
    forall i | 0 <= i < |files| :: Plain(files[i].name)
  }

  predicate NoneEmpty(files: seq<File>) {
    forall i | 0 <= i < |files| :: files[i].data != []
  }

  function NameItem(i: nat, name: string): Item<Def> {
    Item(NameDef(i, name), Def(NameIdent(i), name), true)
  }

  function DataItem(i: nat, data: seq<Byte>): Item<Def> {
    Item(DataDef(i, data), Def(DataIdent(i), data), data != [])
  }

  function NameItems(files: seq<File>): seq<Item<Def>> {
    seq(|files|, k requires 0 <= k < |files| => NameItem(k + 1, files[k].name))
  }

  function DataItems(files: seq<File>): seq<Item<Def>> {
    seq(|files|, k requires 0 <= k < |files| => DataItem(k + 1, files[k].data))
  }

  /** A name and data for each file. */
  function DefItems(files: seq<File>): seq<Item<Def>> {
    ByTurns(NameItems(files), DataItems(files))
  }

  function FileDefs(files: seq<File>): seq<Def> {
    ValuesFrom(DefItems(files), 0)
  }

  lemma FileDefsAt(files: seq<File>, k: nat)
    requires k < |files|
    ensures FileDefs(files)[2 * k] == Def(NameIdent(k + 1), files[k].name)
    ensures FileDefs(files)[2 * k + 1] == Def(DataIdent(k + 1), files[k].data)
  {
    ByTurnsAt(NameItems(files), DataItems(files), k);
    assert FileDefs(files)[2 * k - 0] == DefItems(files)[2 * k].value;
    assert FileDefs(files)[2 * k + 1 - 0] == DefItems(files)[2 * k + 1].value;
  }

  lemma TextsOfFile(files: seq<File>, k: nat)
    requires k < |files|
    ensures TextsFrom(DefItems(files), 2 * k)
         == NameDef(k + 1, files[k].name) + (DataDef(k + 1, files[k].data) + TextsFrom(DefItems(files), 2 * (k + 1)))
  {
    var names, data := NameItems(files), DataItems(files);
    assert names[k].text == NameDef(k + 1, files[k].name) && data[k].text == DataDef(k + 1, files[k].data);
    ByTurnsTexts(names, data, k);
  }

  lemma {:induction false} TextsOfDefs(files: seq<File>, k: nat)
    requires k <= |files|
    ensures TextsFrom(DefItems(files), 2 * k) == DefsFrom(files, k)
    decreases |files| - k
  {
    if k < |files| {
      TextsOfDefs(files, k + 1);
      TextsOfFile(files, k);
    }
  }

  lemma SkipNewlines(rest: string)
    requires Solid(rest)
    ensures SkipSpace("\n" + rest) == rest && SkipSpace("\n\n" + rest) == rest
  {
    SkipSolid(rest);
    SkipOne(rest);
    SkipOne("\n" + rest);
    assert "\n\n" + rest == "\n" + ("\n" + rest);
  }

  lemma SkipSolid(s: string)
    requires Solid(s)
    ensures SkipSpace(s) == s
  {
    SpanOf(IsSpace, s, 0);
  }

  lemma SkipOne(s: string)
    ensures SkipSpace("\n" + s) == SkipSpace(s)
  {
    var t := "\n" + s;
    assert t[0] == '\n' && t[1..] == s;
    assert t[1 + Span(IsSpace, s)..] == s[Span(IsSpace, s)..];
  }

  lemma SkipTwo(s: string)
    requires Solid(s)
    ensures SkipSpace("  " + s) == s
  {
    var t := "  " + s;
    assert t[0] == ' ' && t[1] == ' ' && t[2] == s[0];
    SpanOf(IsSpace, t, 2);
    assert t[2..] == s;
  }

  lemma StartsWithDef(i: nat, name: string, data: seq<Byte>)
    ensures DEF_TOKENS <= NameDef(i, name) && Solid(NameDef(i, name))
    ensures DEF_TOKENS <= DataDef(i, data) && Solid(DataDef(i, data))
  {
    NameDefNested(i, name, "");
    DataDefNested(i, data, "");
    AppendNothing(NameDef(i, name));
    AppendNothing(DataDef(i, data));
    assert DEF_TOKENS[0] == 's';
  }

  lemma NameItemReads(i: nat, name: string)
    requires Plain(name)
    ensures AlwaysReads(DEF_TOKENS, ReadDef, NameItem(i, name))
  {
    StartsWithDef(i, name, []);
    forall tail | Solid(tail) ensures ReadsBefore(DEF_TOKENS, ReadDef, NameItem(i, name), tail) {
      SkipNewlines(tail);
      NameDefReads(i, name, tail);
    }
  }

  lemma DataItemReads(i: nat, data: seq<Byte>)
    ensures AlwaysReads(DEF_TOKENS, ReadDef, DataItem(i, data))
  {
    StartsWithDef(i, "", data);
    forall tail | Solid(tail) ensures ReadsBefore(DEF_TOKENS, ReadDef, DataItem(i, data), tail) {
      SkipNewlines(tail);
      DataDefReads(i, data, tail);
    }
  }

  /** Text that starts with neither white space nor a definition. */
  predicate EndsDefs(rest: string) {
    Solid(rest) && Expect(rest, DEF_TOKENS).Fail?
  }

  lemma NameItemsRead(files: seq<File>)
    requires AllPlain(files)
    ensures forall k | 0 <= k < |files| :: AlwaysReads(DEF_TOKENS, ReadDef, NameItems(files)[k])
  {
    var items := NameItems(files);
    forall k | 0 <= k < |items| ensures AlwaysReads(DEF_TOKENS, ReadDef, items[k]) {
      var item := NameItem(k + 1, files[k].name);
      assert items[k] == item;
      NameItemReads(k + 1, files[k].name);
    }
  }

  lemma DataItemsRead(files: seq<File>)
    ensures forall k | 0 <= k < |files| :: AlwaysReads(DEF_TOKENS, ReadDef, DataItems(files)[k])
  {
    var items := DataItems(files);
    forall k | 0 <= k < |items| ensures AlwaysReads(DEF_TOKENS, ReadDef, items[k]) {
      var item := DataItem(k + 1, files[k].data);
      assert items[k] == item;
      DataItemReads(k + 1, files[k].data);
    }
  }

  lemma LegibleUnlessEmpty(files: seq<File>)
    ensures LegibleFrom(NameItems(files), 0)
    ensures LegibleFrom(DataItems(files), 0) <==> NoneEmpty(files)
  {
    assert forall k | 0 <= k < |files| :: DataItems(files)[k].legible <==> files[k].data != [];
  }

  /** The definitions of files with plain names, and what follows them. */
  lemma DefsReadOn(files: seq<File>, rest: string)
    requires AllPlain(files) && Solid(rest)
    ensures var r := ReadList(DEF_TOKENS, ReadDef, Defs(files) + rest);
            && (NoneEmpty(files) ==> r == ConsAll(FileDefs(files), ReadList(DEF_TOKENS, ReadDef, rest)))
            && (Expect(rest, DEF_TOKENS).Fail? && !NoneEmpty(files) ==> r == Fail)
  {
    NameItemsRead(files);
    DataItemsRead(files);
    ByTurnsListReads(DEF_TOKENS, ReadDef, NameItems(files), DataItems(files), rest);
    LegibleUnlessEmpty(files);
    TextsOfDefs(files, 0);
    DefsAll(files);
  }

  lemma DefsRead(files: seq<File>, rest: string)
    requires AllPlain(files) && EndsDefs(rest)
    ensures ReadList(DEF_TOKENS, ReadDef, Defs(files) + rest)
         == if NoneEmpty(files) then Got(FileDefs(files), rest) else Fail
  {
    DefsReadOn(files, rest);
    assert FileDefs(files) + [] == FileDefs(files);
  }

  /** The identifier of the `j`-th definition. */
  function IdentAt(j: nat): string {
    if j % 2 == 0 then NameIdent(j / 2 + 1) else DataIdent(j / 2 + 1)
  }

  lemma IdentsAtDiffer(i: nat, j: nat)
    requires i < j
    ensures IdentAt(i) != IdentAt(j)
  {
    IdentsDistinct(i / 2 + 1, j / 2 + 1);
    IdentsDistinct(j / 2 + 1, i / 2 + 1);
  }

  lemma IdentOfDef(files: seq<File>, j: nat)
    requires j < 2 * |files|
    ensures FileDefs(files)[j].ident == IdentAt(j)
  {
    FileDefsAt(files, j / 2);
    assert j == 2 * (j / 2) || j == 2 * (j / 2) + 1;
  }

  lemma FileDefsDistinct(files: seq<File>)
    ensures Distinct(FileDefs(files))
  {
    var defs := FileDefs(files);
    forall i, j | 0 <= i < j < |defs| ensures defs[i].ident != defs[j].ident {
      IdentOfDef(files, i);
      IdentOfDef(files, j);
      IdentsAtDiffer(i, j);
    }
  }

  /** The names of file `k` and what they stand for. */
  lemma FileIdents(files: seq<File>, k: nat)
    requires k < |files|
    ensures Lookup(FileDefs(files), NameIdent(k + 1)) == To(files[k].name)
    ensures Lookup(FileDefs(files), DataIdent(k + 1)) == To(files[k].data)
  {
    var defs := FileDefs(files);
    FileDefsDistinct(files);
    LookupFinds(defs, 2 * k);
    LookupFinds(defs, 2 * k + 1);
    FileDefsAt(files, k);
  }

  // ------------------------------------------------------------ the table

  function RowOf(file: File): TableRow {
    TableRow(To(file.name), To(file.data))
  }

  /** A row per file, and the null row. */
  function Table(files: seq<File>): seq<TableRow> {
    seq(|files|, i requires 0 <= i < |files| => RowOf(files[i])) + [TableRow(Null, Null)]
  }

  function RowsFrom(k: nat, n: nat): string
    requires k <= n
    decreases n - k
  {
    if k == n then "" else RowText(k + 1) + RowsFrom(k + 1, n)
  }

  lemma {:induction false} RowsSplit(k: nat, n: nat)
    requires k <= n
    ensures Rows(k) + RowsFrom(k, n) == Rows(n)
    decreases n - k
  {
    if k == n {
      AppendNothing(Rows(n));
    } else {
      RowsSplit(k + 1, n);
      Assoc(Rows(k), RowText(k + 1), RowsFrom(k + 1, n));
    }
  }

  lemma RowsAll(n: nat)
    ensures Rows(n) == RowsFrom(0, n)
  {
    RowsSplit(0, n);
    assert Rows(0) == "";
  }

  lemma PointerReads(ident: string, rest: string, defs: seq<Def>)
    requires IsIdent(ident) && rest != [] && !IsIdentChar(rest[0])
    ensures ReadPointer("&" + (ident + rest), defs)
         == if Lookup(defs, ident).To? then Got(Lookup(defs, ident), rest) else Fail
  {
    var s := "&" + (ident + rest);
    assert s[0] == '&' && "NULL"[0] == 'N';
    ExpectReads("&", ident + rest);
    IdentReads(ident, rest);
  }

  lemma NullPointerReads(rest: string, defs: seq<Def>)
    ensures ReadPointer("NULL" + rest, defs) == Got(Null, rest)
  {
    ExpectReads("NULL", rest);
  }

  /** A row after its opening brace. */
  function Cells(name: string, data: string, rest: string): string {
    "&" + (name + (", " + ("&" + (data + ("}" + rest)))))
  }

  /** What the two identifiers of a row are defined to be. */
  function RowOfIdents(defs: seq<Def>, name: string, data: string): TableRow {
    TableRow(Lookup(defs, name), Lookup(defs, data))
  }

  predicate Filled(row: TableRow) {
    row.name.To? && row.data.To?
  }

  lemma RowReads(name: string, data: string, rest: string, defs: seq<Def>)
    requires IsIdent(name) && IsIdent(data)
    ensures var row := RowOfIdents(defs, name, data);
            ReadRow("{" + Cells(name, data, rest), defs, NameFirst) == if Filled(row) then Got(row, rest) else Fail
  {
    var s1 := ", " + ("&" + (data + ("}" + rest)));
    ExpectReads("{", Cells(name, data, rest));
    assert s1[0] == ',';
    PointerReads(name, s1, defs);
    RowEndReads(Lookup(defs, name), data, rest, defs);
  }

  lemma RowEndReads(name: Pointer, data: string, rest: string, defs: seq<Def>)
    requires IsIdent(data)
    ensures ReadRowEnd(name, ", " + ("&" + (data + ("}" + rest))), defs, NameFirst)
         == if Lookup(defs, data).To? then Got(TableRow(name, Lookup(defs, data)), rest) else Fail
  {
    var s := "}" + rest;
    assert s[0] == '}';
    ExpectReads(", ", "&" + (data + s));
    PointerReads(data, s, defs);
    ExpectReads("}", rest);
  }

  lemma NullRowReads(rest: string, defs: seq<Def>)
    ensures ReadRow("{" + ("NULL" + (", " + ("NULL" + ("}" + rest)))), defs, NameFirst)
         == Got(TableRow(Null, Null), rest)
  {
    var s := ", " + ("NULL" + ("}" + rest));
    ExpectReads("{", "NULL" + s);
    NullPointerReads(s, defs);
    ExpectReads(", ", "NULL" + ("}" + rest));
    NullPointerReads("}" + rest, defs);
    ExpectReads("}", rest);
  }

  lemma RowTextNested(i: nat, rest: string)
    ensures RowText(i) + rest == "  " + ("{" + Cells(NameIdent(i), DataIdent(i), "," + ("\n" + rest)))
  {
    RowPieces(rest, NameIdent(i) + (", &" + (DataIdent(i) + ("},\n" + rest))), DataIdent(i) + ("},\n" + rest));
    Assoc("  {&", NAME_IDENT, Decimal(i));
    Assoc("  {&" + NameIdent(i) + ", &", DATA_IDENT, Decimal(i));
    assert RowText(i) == "  {&" + NameIdent(i) + ", &" + DataIdent(i) + "},\n";
    Nest5("  {&", NameIdent(i), ", &", DataIdent(i), "},\n", rest);
  }

  lemma RowPieces(rest: string, t: string, u: string)
    ensures "  {&" + t == "  " + ("{" + ("&" + t))
    ensures ", &" + u == ", " + ("&" + u)
    ensures "},\n" + rest == "}" + ("," + ("\n" + rest))
  {
  }

  lemma Nest5(a: string, b: string, c: string, d: string, e: string, rest: string)
    ensures (a + b + c + d + e) + rest == a + (b + (c + (d + (e + rest))))
  {
    Assoc(a + b + c + d, e, rest);
    Assoc(a + b + c, d, e + rest);
    Assoc(a + b, c, d + (e + rest));
    Assoc(a, b, c + (d + (e + rest)));
  }

  const NULL_ENTRY := "{NULL, NULL}\n"

  /** The `k`-th entry of a table of `n` files, with the space before the next one. */
  function RowItem(defs: seq<Def>, n: nat, k: nat): Item<TableRow> {
    if k == n then Item(NULL_ENTRY, TableRow(Null, Null), true)
    else
      var name, data := NameIdent(k + 1), DataIdent(k + 1);
      Item("{" + Cells(name, data, ",\n  "), RowOfIdents(defs, name, data), Filled(RowOfIdents(defs, name, data)))
  }

  function RowItems(defs: seq<Def>, n: nat): seq<Item<TableRow>> {
    seq(n + 1, k requires 0 <= k <= n => RowItem(defs, n, k))
  }

  lemma RowItemSolid(defs: seq<Def>, n: nat, k: nat)
    requires k <= n
    ensures Solid(RowItems(defs, n)[k].text)
  {
    assert RowItem(defs, n, k).text[0] == '{';
  }

  lemma {:induction false} TextsOfRows(defs: seq<Def>, n: nat, k: nat)
    requires k <= n
    ensures RowsFrom(k, n) + NULL_ROW == "  " + TextsFrom(RowItems(defs, n), k)
    decreases n - k
  {
    var items := RowItems(defs, n);
    assert items[k] == RowItem(defs, n, k);
    if k == n {
      LastText(items);
    } else {
      TextsOfRows(defs, n, k + 1);
      var more := TextsFrom(items, k + 1);
      RowTextShifted(k + 1);
      Assoc(RowText(k + 1), RowsFrom(k + 1, n), NULL_ROW);
      Assoc(RowText(k + 1), "  ", more);
      Assoc("  ", items[k].text, more);
    }
  }

  lemma NullRowText()
    ensures "" + NULL_ROW == "  " + NULL_ENTRY
  {
  }

  lemma LastText(items: seq<Item<TableRow>>)
    requires items != [] && items[|items| - 1].text == NULL_ENTRY
    ensures "" + NULL_ROW == "  " + TextsFrom(items, |items| - 1)
  {
    NullRowText();
    OneText(items);
  }

  /** The two spaces before a row can be counted after it. */
  lemma RowTextShifted(i: nat)
    ensures RowText(i) + "  " == "  " + ("{" + Cells(NameIdent(i), DataIdent(i), ",\n  "))
  {
    RowTextNested(i, "  ");
    assert "," + ("\n" + "  ") == ",\n  ";
  }

  lemma CellsBefore(name: string, data: string, gap: string, tail: string)
    ensures ("{" + Cells(name, data, gap)) + tail == "{" + Cells(name, data, gap + tail)
  {
    Assoc("{", Cells(name, data, gap), tail);
    Assoc("&", name + (", " + ("&" + (data + ("}" + gap)))), tail);
    Assoc(name, ", " + ("&" + (data + ("}" + gap))), tail);
    Assoc(", ", "&" + (data + ("}" + gap)), tail);
    Assoc("&", data + ("}" + gap), tail);
    Assoc(data, "}" + gap, tail);
    Assoc("}", gap, tail);
  }

  lemma CommaReads(tail: string)
    requires Solid(tail)
    ensures ReadComma(",\n  " + tail) == Got((), "\n  " + tail) && SkipSpace("\n  " + tail) == tail
  {
    assert ",\n  " + tail == "," + ("\n  " + tail) && "\n  " + tail == "\n" + ("  " + tail);
    ExpectReads(",", "\n  " + tail);
    SkipOne("  " + tail);
    SkipTwo(tail);
  }

  lemma EntryReads(name: string, data: string, tail: string, defs: seq<Def>)
    requires IsIdent(name) && IsIdent(data) && Solid(tail)
    ensures var row := RowOfIdents(defs, name, data);
            ReadsBefore(
              "{", EntryReader(defs, NameFirst), Item("{" + Cells(name, data, ",\n  "), row, Filled(row)), tail)
  {
    CellsBefore(name, data, ",\n  ", tail);
    RowReads(name, data, ",\n  " + tail, defs);
    CommaReads(tail);
    EntryOf("{" + Cells(name, data, ",\n  " + tail), ",\n  " + tail, "\n  " + tail, defs);
    ExpectReads("{", Cells(name, data, ",\n  "));
  }

  lemma EntryOf(s: string, s1: string, s2: string, defs: seq<Def>)
    requires ReadRow(s, defs, NameFirst).Got? ==> ReadRow(s, defs, NameFirst).rest == s1
    requires ReadComma(s1) == Got((), s2)
    ensures ReadItem(EntryReader(defs, NameFirst), s)
         == match ReadRow(s, defs, NameFirst) case Fail => Fail case Got(row, _) => Got(row, SkipSpace(s2))
  {
  }

  lemma NullEntryNested(rest: string)
    ensures NULL_ENTRY + rest == "{" + ("NULL" + (", " + ("NULL" + ("}" + ("\n" + rest)))))
  {
  }

  lemma NullEntryReads(rest: string, defs: seq<Def>)
    requires rest != [] && rest[0] == '}'
    ensures ReadsBefore("{", EntryReader(defs, NameFirst), Item(NULL_ENTRY, TableRow(Null, Null), true), rest)
  {
    NullEntryNested(rest);
    NullRowReads("\n" + rest, defs);
    assert ("\n" + rest)[0] == '\n';
    SkipNewlines(rest);
    assert "}" <= rest;
    assert ReadComma("\n" + rest) == Got((), "\n" + rest);
    EntryOf(NULL_ENTRY + rest, "\n" + rest, "\n" + rest, defs);
  }

  lemma RowItemReads(defs: seq<Def>, n: nat, k: nat, tail: string)
    requires k <= n && Solid(tail) && (k == n ==> tail[0] == '}')
    ensures ReadsBefore("{", EntryReader(defs, NameFirst), RowItem(defs, n, k), tail)
  {
    if k == n {
      NullEntryReads(tail, defs);
    } else {
      IdentsAreIdents(k + 1);
      EntryReads(NameIdent(k + 1), DataIdent(k + 1), tail, defs);
    }
  }

  lemma AllRowItemsRead(defs: seq<Def>, n: nat, rest: string)
    requires rest != [] && rest[0] == '}'
    ensures forall k | 0 <= k < |RowItems(defs, n)| ::
              ReadsBefore("{", EntryReader(defs, NameFirst), RowItems(defs, n)[k],
                          TextsFrom(RowItems(defs, n), k + 1) + rest)
  {
    var items := RowItems(defs, n);
    forall k | 0 <= k < |items|
      ensures ReadsBefore("{", EntryReader(defs, NameFirst), items[k], TextsFrom(items, k + 1) + rest)
    {
      if k + 1 < |items| {
        RowItemSolid(defs, n, k + 1);
      } else {
        assert TextsFrom(items, k + 1) + rest == rest;
      }
      TextsSolid(items, k + 1, rest);
      RowItemReads(defs, n, k, TextsFrom(items, k + 1) + rest);
    }
  }

  lemma SpacesFirst(a: string, b: string, texts: string, rest: string)
    requires a + b == "  " + texts && Solid(texts + rest)
    ensures SkipSpace(a + (b + rest)) == texts + rest
  {
    Assoc(a, b, rest);
    Assoc("  ", texts, rest);
    SkipTwo(texts + rest);
  }

  lemma RowsText(defs: seq<Def>, n: nat, rest: string)
    requires Solid(rest)
    ensures SkipSpace(Rows(n) + (NULL_ROW + rest)) == TextsFrom(RowItems(defs, n), 0) + rest
  {
    var items := RowItems(defs, n);
    RowsAll(n);
    TextsOfRows(defs, n, 0);
    RowItemSolid(defs, n, 0);
    TextsSolid(items, 0, rest);
    SpacesFirst(Rows(n), NULL_ROW, TextsFrom(items, 0), rest);
  }

  lemma RowsReadBy(read: string -> Read<TableRow>, items: seq<Item<TableRow>>, rest: string)
    requires rest != [] && rest[0] == '}'
    requires forall k | 0 <= k < |items| :: ReadsBefore("{", read, items[k], TextsFrom(items, k + 1) + rest)
    ensures ReadList("{", read, TextsFrom(items, 0) + rest)
         == if LegibleFrom(items, 0) then Got(ValuesFrom(items, 0), rest) else Fail
  {
    ListReads("{", read, items, 0, rest);
  }

  /** The generated rows, given any definitions: they read as the values of their identifiers if all have one. */
  lemma RowsRead(defs: seq<Def>, n: nat, rest: string)
    requires rest != [] && rest[0] == '}'
    ensures ReadList("{", EntryReader(defs, NameFirst), SkipSpace(Rows(n) + (NULL_ROW + rest)))
         == if LegibleFrom(RowItems(defs, n), 0) then Got(ValuesFrom(RowItems(defs, n), 0), rest) else Fail
  {
    RowsText(defs, n, rest);
    AllRowItemsRead(defs, n, rest);
    RowsReadBy(EntryReader(defs, NameFirst), RowItems(defs, n), rest);
  }

  lemma FileRows(files: seq<File>)
    ensures LegibleFrom(RowItems(FileDefs(files), |files|), 0)
    ensures ValuesFrom(RowItems(FileDefs(files), |files|), 0) == Table(files)
  {
    var defs, n := FileDefs(files), |files|;
    var items := RowItems(defs, n);
    var values := ValuesFrom(items, 0);
    forall k | 0 <= k <= n ensures items[k].legible && values[k] == Table(files)[k] {
      assert values[k - 0] == items[k].value;
      if k < n {
        FileIdents(files, k);
      }
    }
  }

  // ------------------------------------------------------ the whole header

  /** The fixed text reads as it should, and the parts around it can be told from it. */
  ghost predicate Separates(frame: Frame, parts: Parts) {
    && (forall rest | Solid(rest) :: parts.start(frame.prologue + rest) == Got((), rest))
    && (forall rest :: EndsDefs(frame.table + rest))
    && (forall rest :: parts.struct(frame.table + rest) == Got(NameFirst, "\n" + rest))
    && Ends(frame, parts.end)
  }

  predicate Ends(frame: Frame, end: string -> Read<Routine>) {
    end(frame.epilogue) == Got(LOOKUP, "") && frame.epilogue != [] && frame.epilogue[0] == '}'
  }

  lemma TableEndsDefs(rest: string)
    ensures EndsDefs(STRUCT + rest)
  {
    var s := STRUCT + rest;
    assert s[0] == STRUCT_OPEN[0] == 's' && s[15] == STRUCT_OPEN[15] == 'r' && DEF_TOKENS[15] == 'd';
  }

  lemma FrameEnds()
    ensures Ends(FRAME, ReadEnd)
  {
    EndReads();
    EpilogueText();
  }

  lemma FrameSeparates()
    ensures Separates(FRAME, HEADER_PARTS)
  {
    forall rest | Solid(rest) ensures ReadStart(PROLOGUE + rest) == Got((), rest) {
      StartReads(rest);
    }
    forall rest ensures EndsDefs(STRUCT + rest) {
      TableEndsDefs(rest);
    }
    forall rest ensures ReadStruct(STRUCT + rest) == Got(NameFirst, "\n" + rest) {
      StructReads(rest);
    }
    FrameEnds();
  }

  function FieldItem(field: string, gap: string): Item<string> {
    Item(FIELD_TOKENS + (field + (";" + gap)), field, true)
  }

  const NAME_FIELD := FieldItem("name", "\n  ")
  const DATA_FIELD := FieldItem("data", "\n")

  lemma NameLine()
    ensures STRUCT_NAME + "  " == "  " + NAME_FIELD.text
  {
  }

  lemma DataLine()
    ensures STRUCT_DATA == "  " + DATA_FIELD.text
  {
  }

  lemma CloseLine()
    ensures STRUCT_CLOSE == CLOSE_TOKENS + "\n"
  {
  }

  lemma OpenLine()
    ensures STRUCT_OPEN == OPEN_TOKENS + "\n"
  {
  }

  /** Two spaces move from the front of a line to the end of the line before. */
  lemma ShiftSpaces(name: string, data: string, name': string, data': string, rest: string)
    requires name + "  " == "  " + name' && data == "  " + data'
    ensures name + (data + rest) == "  " + (name' + (data' + rest))
  {
    Assoc("  ", data', rest);
    Assoc(name, "  ", data' + rest);
    Assoc("  ", name', data' + rest);
  }

  lemma StructNested(rest: string)
    ensures STRUCT + rest
         == OPEN_TOKENS + ("\n" + ("  " + (NAME_FIELD.text + (DATA_FIELD.text + (CLOSE_TOKENS + ("\n" + rest))))))
  {
    Nest4(STRUCT_OPEN, STRUCT_NAME, STRUCT_DATA, STRUCT_CLOSE, rest);
    NameLine();
    DataLine();
    ShiftSpaces(STRUCT_NAME, STRUCT_DATA, NAME_FIELD.text, DATA_FIELD.text, STRUCT_CLOSE + rest);
    OpenLine();
    Assoc(OPEN_TOKENS, "\n", STRUCT_NAME + (STRUCT_DATA + (STRUCT_CLOSE + rest)));
    CloseLine();
    Assoc(CLOSE_TOKENS, "\n", rest);
  }

  lemma FieldReads(field: string, gap: string, tail: string)
    requires IsIdent(field) && SkipSpace(gap + tail) == tail
    ensures ReadsBefore(FIELD_TOKENS, ReadField, FieldItem(field, gap), tail)
  {
    var end := ";" + (gap + tail);
    assert FIELD_TOKENS[0] == 'c' && end[0] == ';';
    Nest4(FIELD_TOKENS, field, ";", gap, tail);
    Nest4(FIELD_TOKENS, field, ";", gap, "");
    AppendNothing(gap);
    AppendNothing(FIELD_TOKENS + field + ";" + gap);
    ExpectReads(FIELD_TOKENS, field + end);
    IdentReads(field, end);
    ExpectReads(";", gap + tail);
  }

  lemma NameFieldReads(tail: string)
    requires Solid(tail)
    ensures ReadsBefore(FIELD_TOKENS, ReadField, NAME_FIELD, tail)
  {
    SkipTwo(tail);
    SkipOne("  " + tail);
    assert "\n  " + tail == "\n" + ("  " + tail);
    FieldReads("name", "\n  ", tail);
  }

  lemma DataFieldReads(tail: string)
    requires Solid(tail)
    ensures ReadsBefore(FIELD_TOKENS, ReadField, DATA_FIELD, tail)
  {
    SkipNewlines(tail);
    FieldReads("data", "\n", tail);
  }

  lemma FieldsRead(rest: string)
    requires Solid(rest) && Expect(rest, FIELD_TOKENS).Fail?
    ensures ReadList(FIELD_TOKENS, ReadField, NAME_FIELD.text + (DATA_FIELD.text + rest)) == Got(["name", "data"], rest)
  {
    DataFieldReads(rest);
    assert Solid(DATA_FIELD.text + rest) by {
      assert (DATA_FIELD.text + rest)[0] == DATA_FIELD.text[0];
    }
    NameFieldReads(DATA_FIELD.text + rest);
    TwoRead(FIELD_TOKENS, ReadField, NAME_FIELD, DATA_FIELD, rest);
  }

  lemma IndentedFieldsRead(rest: string)
    requires Solid(rest) && Expect(rest, FIELD_TOKENS).Fail?
    ensures ReadList(FIELD_TOKENS, ReadField, SkipSpace("\n" + ("  " + (NAME_FIELD.text + (DATA_FIELD.text + rest)))))
         == Got(["name", "data"], rest)
  {
    var fields := NAME_FIELD.text + (DATA_FIELD.text + rest);
    assert fields[0] == NAME_FIELD.text[0] == 'c';
    SkipOne("  " + fields);
    SkipTwo(fields);
    FieldsRead(rest);
  }

  lemma StructEndReads(rest: string)
    ensures ReadStructEnd(Got(["name", "data"], CLOSE_TOKENS + rest)) == Got(NameFirst, rest)
    ensures Solid(CLOSE_TOKENS + rest) && Expect(CLOSE_TOKENS + rest, FIELD_TOKENS).Fail?
  {
    ExpectReads(CLOSE_TOKENS, rest);
    assert (CLOSE_TOKENS + rest)[0] == CLOSE_TOKENS[0] == '}' && FIELD_TOKENS[0] == 'c';
  }

  lemma StructOf(s: string, s1: string, fields: Read<seq<string>>)
    requires Expect(s, OPEN_TOKENS) == Got((), s1)
    requires fields == ReadList(FIELD_TOKENS, ReadField, SkipSpace(s1))
    ensures ReadStruct(s) == ReadStructEnd(fields)
  {
  }

  lemma StructReads(rest: string)
    ensures ReadStruct(STRUCT + rest) == Got(NameFirst, "\n" + rest)
  {
    var end := CLOSE_TOKENS + ("\n" + rest);
    var s1 := "\n" + ("  " + (NAME_FIELD.text + (DATA_FIELD.text + end)));
    StructNested(rest);
    ExpectReads(OPEN_TOKENS, s1);
    StructEndReads("\n" + rest);
    IndentedFieldsRead(end);
    StructOf(STRUCT + rest, s1, Got(["name", "data"], end));
  }

  lemma Nest4(a: string, b: string, c: string, d: string, rest: string)
    ensures (a + b + c + d) + rest == a + (b + (c + (d + rest)))
  {
    Assoc(a + b + c, d, rest);
    Assoc(a + b, c, d + rest);
    Assoc(a, b, c + (d + rest));
  }

  lemma RowsOfStruct(
      frame: Frame, end: string -> Read<Routine>, struct: Read<FieldOrder>, n: nat, defs: seq<Def>)
    requires Ends(frame, end)
    requires struct == Got(NameFirst, "\n" + (Rows(n) + (NULL_ROW + frame.epilogue)))
    ensures ReadRows(end, struct, defs)
         == if LegibleFrom(RowItems(defs, n), 0) then Got(Compiled(ValuesFrom(RowItems(defs, n), 0), LOOKUP), "")
            else Fail
  {
    SkipOne(Rows(n) + (NULL_ROW + frame.epilogue));
    RowsRead(defs, n, frame.epilogue);
  }

  lemma FramedTextNested(frame: Frame, files: seq<File>)
    ensures FramedText(frame, files)
         == frame.prologue + (Defs(files) + (frame.table + (Rows(|files|) + (NULL_ROW + frame.epilogue))))
  {
    Nest5(frame.prologue, Defs(files), frame.table, Rows(|files|), NULL_ROW, frame.epilogue);
  }

  lemma DefsSolid(files: seq<File>, rest: string)
    requires Solid(rest)
    ensures Solid(Defs(files) + rest)
  {
    DefsAll(files);
    if files == [] {
      assert Defs(files) + rest == rest;
    } else {
      StartsWithDef(1, files[0].name, files[0].data);
      assert (Defs(files) + rest)[0] == NameDef(1, files[0].name)[0];
    }
  }

  lemma DefsThenRows(frame: Frame, parts: Parts, files: seq<File>, rest: string)
    requires Separates(frame, parts) && AllPlain(files)
    requires rest == frame.table + (Rows(|files|) + (NULL_ROW + frame.epilogue))
    ensures Solid(Defs(files) + rest)
    ensures ReadList(DEF_TOKENS, ReadDef, Defs(files) + rest)
         == if NoneEmpty(files) then Got(FileDefs(files), rest) else Fail
    ensures Distinct(FileDefs(files))
    ensures ReadRows(parts.end, parts.struct(rest), FileDefs(files)) == Got(Compiled(Table(files), LOOKUP), "")
  {
    DefsSolid(files, rest);
    DefsRead(files, rest);
    FileDefsDistinct(files);
    FileRows(files);
    RowsOfStruct(frame, parts.end, parts.struct(rest), |files|, FileDefs(files));
  }

  lemma FramedReadsBackIff(frame: Frame, parts: Parts, files: seq<File>)
    requires Separates(frame, parts) && AllPlain(files)
    ensures ReadParts(parts, FramedText(frame, files))
         == if NoneEmpty(files) then Got(Compiled(Table(files), LOOKUP), "") else Fail
  {
    var rest := frame.table + (Rows(|files|) + (NULL_ROW + frame.epilogue));
    FramedTextNested(frame, files);
    DefsThenRows(frame, parts, files, rest);
    PartsOf(parts, frame.prologue + (Defs(files) + rest), Defs(files) + rest);
  }

  lemma PartsOf(parts: Parts, s: string, s1: string)
    requires parts.start(s) == Got((), s1)
    ensures ReadParts(parts, s) ==
            match ReadList(DEF_TOKENS, ReadDef, s1)
            case Fail => Fail
            case Got(defs, s2) => if Distinct(defs) then ReadRows(parts.end, parts.struct(s2), defs) else Fail
  {
  }

  /**
    Given plain names, a compiler gets the table of the files and the lookup function from
    the header exactly when no file is empty.
   */
  lemma HeaderReadsBackIff(files: seq<File>)
    requires AllPlain(files)
    ensures ReadHeader(HeaderText(files)) == if NoneEmpty(files) then Got(Compiled(Table(files), LOOKUP), "") else Fail
  {
    FrameSeparates();
    FramedReadsBackIff(FRAME, HEADER_PARTS, files);
  }

  // ------------------------------------------------------------ the lookup

  /**
    `find_embedded_file`, a walk along the table with `p` until the null row. It reads
    no row beyond that one, and answers as the function that is read from the header.
    `end` is where the null row is.
   */
  method FindEmbeddedFile(table: seq<TableRow>, name: string, data: string, ghost end: nat)
    returns (found: bool, data': string)
    requires Terminated(table, end)
    ensures Run(LOOKUP, table, name, data) == Defined(Call(found, data'))
    ensures FindsFirst(table, end, 0, name, data, Call(found, data'))
  {
    LookupRuns(table, end, name, data);
    assert Run(LOOKUP, table, name, data) == Walk(LOOKUP, table, 0, name, data) by {
      LookupDeclared();
    }
    var p := 0;
    while table[p].name != Null
      invariant p <= end
      invariant Walk(LOOKUP, table, 0, name, data) == Walk(LOOKUP, table, p, name, data)
      decreases end - p
    {
      StepRuns(table[p], name, data);
      if table[p].name.value == name {
        return true, table[p].data.value;
      }
      p := p + 1;
    }
    StepRuns(table[p], name, data);
    return false, data;
  }

  /** Row `i` is file `i`, and the null row comes last and is the only one. */
  lemma TableIsTerminated(files: seq<File>)
    ensures Terminated(Table(files), |files|) && |Table(files)| == |files| + 1
    ensures forall i | 0 <= i < |files| :: Table(files)[i] == RowOf(files[i])
  {
  }

  /** The first file of that name, if any; otherwise nothing is found and `data` stays as it was. */
  ghost predicate FindsFile(files: seq<File>, name: string, data: string, call: Call) {
    if call.found then
      exists i | 0 <= i < |files| ::
        && files[i].name == name && call.data == files[i].data
        && forall k | 0 <= k < i :: files[k].name != name
    else
      call.data == data && forall k | 0 <= k < |files| :: files[k].name != name
  }

  lemma RowIsFile(files: seq<File>, name: string, data: string, call: Call)
    requires Terminated(Table(files), |files|) && FindsFirst(Table(files), |files|, 0, name, data, call)
    ensures FindsFile(files, name, data, call)
  {
    var table := Table(files);
    assert forall i | 0 <= i < |files| :: table[i] == RowOf(files[i]);
    if call.found {
      var i :| 0 <= i < |files| && table[i].name.value == name && call.data == table[i].data.value
               && forall k | 0 <= k < i :: table[k].name.value != name;
      assert files[i].name == name && forall k | 0 <= k < i :: files[k].name != name;
    }
  }

  /**
    Calling the function that was read, on the table that was read, from the header of files
    with plain names of which none is empty.
   */
  lemma EmbeddedFileFound(files: seq<File>, name: string, data: string)
    requires AllPlain(files) && NoneEmpty(files)
    ensures ReadHeader(HeaderText(files)).Got?
    ensures var header := ReadHeader(HeaderText(files)).value;
            var call := Run(header.lookup, header.table, name, data);
            call.Defined? && FindsFile(files, name, data, call.value)
  {
    HeaderReadsBackIff(files);
    TableIsTerminated(files);
    LookupRuns(Table(files), |files|, name, data);
    RowIsFile(files, name, data, Run(LOOKUP, Table(files), name, data).value);
  }

  /** Printing and reading: the table holds the files, and the function finds them in it. */
  method Compile(files: seq<File>) returns (ok: bool, header: Compiled)
    requires |files| < 0x7fff_ffff
    requires forall file | file in files :: |file.data| < 0x8000_0000
    requires AllPlain(files)
    ensures ok <==> NoneEmpty(files)
    ensures ok ==> Terminated(header.table, |files|) && |header.table| == |files| + 1
    ensures ok ==> forall i | 0 <= i < |files| :: header.table[i] == RowOf(files[i])
    ensures ok ==> forall name, data ::
              var call := Run(header.lookup, header.table, name, data);
              call.Defined? && FindsFile(files, name, data, call.value)
  {
    var text := Print(files);
    var r := ReadHeader(text);
    HeaderReadsBackIff(files);
    TableIsTerminated(files);
    if r.Got? {
      forall name, data
        ensures var call := Run(r.value.lookup, r.value.table, name, data);
                call.Defined? && FindsFile(files, name, data, call.value)
      {
        EmbeddedFileFound(files, name, data);
      }
    }
    return r.Got?, if r.Got? then r.value else Compiled([], LOOKUP);
  }

  /**
    Printing files, compiling the header, and calling its lookup function. The header
    compiles exactly when no file is empty, and then the call gives the first file of that
    name, if any.
   */
  method EmbedAndFind(files: seq<File>, name: string, data: string)
    returns (compiled: bool, found: bool, data': string)
    requires |files| < 0x7fff_ffff
    requires forall file | file in files :: |file.data| < 0x8000_0000
    requires AllPlain(files)
    ensures compiled <==> forall i | 0 <= i < |files| :: files[i].data != []
    ensures compiled ==> (found <==> exists i | 0 <= i < |files| :: files[i].name == name)
    ensures found ==> exists i | 0 <= i < |files| ::
              && files[i].name == name && files[i].data == data'
              && forall k | 0 <= k < i :: files[k].name != name
    ensures !found ==> data' == data
  {
    var header;
    compiled, header := Compile(files);
    if !compiled {
      return false, false, data;
    }
    var call := Run(header.lookup, header.table, name, data);
    return true, call.value.found, call.value.data;
  }
}
