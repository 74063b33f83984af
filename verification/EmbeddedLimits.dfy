/**
  The converse of the round trip: whatever the names are, a header that reads back as
  the files it was made from had only plain names and no empty file.
 */
module EmbeddedLimits {
  import opened CxxReader
  import opened LookupReader
  import opened Generator
  import opened EmbeddedData
  import opened EmbeddedNames
  import opened HeaderReader
  import opened ListReading
  import opened EmbeddedLookup
  import opened EmbeddedFrame
  import opened EmbeddedFiles
  import opened ReaderSuffix

  // ------------------------------------ a name is not read past its end

  /** The quote at `q` ends the line of a definition. */
  predicate EndsLine(s: string, q: nat) {
    q + 2 < |s| && s[q] == '\"' && s[q + 1] == ';' && s[q + 2] == '\n'
  }

  lemma NothingAfter(s: string, q: nat)
    requires EndsLine(s, q)
    ensures ReadLiteral(s[q + 1..]) == Fail
  {
    assert s[q + 1..][1..] == s[q + 2..];
  }

  /** A run of characters that a quote cannot belong to ends before the quote. */
  lemma SpanWithin(digit: char -> bool, s: string, p: nat, q: nat)
    requires p <= q < |s| && !digit(s[q])
    ensures p + Span(digit, s[p..]) <= q
    ensures s[p..][Span(digit, s[p..])..] == s[p + Span(digit, s[p..])..]
  {
    assert s[p..][q - p] == s[q];
  }

  lemma HexWithin(s: string, p: nat, q: nat) returns (p': nat)
    requires EndsLine(s, q) && p <= q && s[p] == 'x' && ReadEscape(s[p..]).Got?
    ensures p < p' <= q + 1 && ReadEscape(s[p..]).rest == s[p'..]
  {
    assert s[p..][1..] == s[p + 1..];
    SpanWithin(IsHexDigit, s, p + 1, q);
    p' := p + 1 + Span(IsHexDigit, s[p + 1..]);
  }

  lemma OctalWithin(s: string, p: nat, q: nat) returns (p': nat)
    requires EndsLine(s, q) && p <= q && IsOctalDigit(s[p]) && ReadEscape(s[p..]).Got?
    ensures p < p' <= q + 1 && ReadEscape(s[p..]).rest == s[p'..]
  {
    SpanWithin(IsOctalDigit, s, p, q);
    var n := Span(IsOctalDigit, s[p..]);
    p' := p + if n < 3 then n else 3;
    assert s[p..][p' - p..] == s[p'..];
  }

  lemma EscapeWithin(s: string, p: nat, q: nat) returns (p': nat)
    requires EndsLine(s, q) && p <= q && ReadEscape(s[p..]).Got?
    ensures p < p' <= q + 1 && ReadEscape(s[p..]).rest == s[p'..]
  {
    if s[p] == 'x' {
      p' := HexWithin(s, p, q);
    } else if IsOctalDigit(s[p]) {
      p' := OctalWithin(s, p, q);
    } else {
      assert s[p..][1..] == s[p + 1..];
      p' := p + 1;
    }
  }

  lemma AfterEscape(t: string)
    requires t != [] && t[0] == '\\' && ReadLiteral(t).Got?
    ensures ReadEscape(t[1..]).Got? && ReadLiteral(ReadEscape(t[1..]).rest).Got?
    ensures ReadLiteral(t).rest == ReadLiteral(ReadEscape(t[1..]).rest).rest
  {
  }

  lemma AfterChar(t: string)
    requires t != [] && t[0] != '\\' && t[0] != '\"' && ReadLiteral(t).Got?
    ensures ReadLiteral(t[1..]).Got? && ReadLiteral(t).rest == ReadLiteral(t[1..]).rest
  {
  }

  /** The literal goes on after its first character or escape. */
  lemma LiteralGoesOn(s: string, p: nat, q: nat) returns (e: nat)
    requires EndsLine(s, q) && p < q && ReadLiteral(s[p..]).Got? && s[p] != '\"'
    ensures p < e <= q && ReadLiteral(s[e..]).Got? && ReadLiteral(s[p..]).rest == ReadLiteral(s[e..]).rest
  {
    assert s[p..][1..] == s[p + 1..];
    if s[p] == '\\' {
      AfterEscape(s[p..]);
      e := EscapeWithin(s, p + 1, q);
      NothingAfter(s, q);
    } else {
      AfterChar(s[p..]);
      e := p + 1;
    }
  }

  lemma {:induction false} LiteralWithin(s: string, p: nat, q: nat) returns (p': nat)
    requires EndsLine(s, q) && p <= q && ReadLiteral(s[p..]).Got?
    ensures p < p' <= q + 1 && ReadLiteral(s[p..]).rest == s[p'..]
    decreases q - p
  {
    if s[p] == '\"' {
      assert s[p..][1..] == s[p + 1..];
      p' := p + 1;
    } else {
      var e := LiteralGoesOn(s, p, q);
      p' := LiteralWithin(s, e, q);
    }
  }

  lemma SpacesWithin(s: string, p: nat, q: nat) returns (p': nat)
    requires EndsLine(s, q) && p <= q
    ensures p <= p' <= q && SkipSpace(s[p..]) == s[p'..]
  {
    var n := Span(IsSpace, s[p..]);
    assert s[p..][q - p] == '\"';
    p' := p + n;
    assert s[p..][n..] == s[p'..];
  }

  lemma {:induction false} LiteralsWithin(s: string, p: nat, q: nat) returns (p': nat)
    requires EndsLine(s, q) && p <= q && ReadLiterals(s[p..]).Got?
    ensures p < p' <= q + 1 && ReadLiterals(s[p..]).rest == s[p'..]
    decreases q - p
  {
    assert s[p..][1..] == s[p + 1..];
    NothingAfter(s, q);
    var l := LiteralWithin(s, p + 1, q);
    if l == q + 1 {
      assert s[l..][0] == ';';
      SkipSolid(s[l..]);
      p' := l;
    } else {
      var m := SpacesWithin(s, l, q);
      if s[m] == '\"' {
        p' := LiteralsWithin(s, m, q);
      } else {
        p' := l;
      }
    }
  }

  /** A name that is not plain reads as something else, whatever comes after its line. */
  lemma NameMisreads(name: string, tail: string)
    requires !Plain(name)
    ensures var r := ReadString(QUOTE + (name + (QUOTE + (";" + ("\n" + tail)))));
            r.Got? ==> r.value != name
  {
    var s, q := QUOTE + (name + (QUOTE + (";" + ("\n" + tail)))), |name| + 1;
    QuotedIsLiterals(name + (QUOTE + (";" + ("\n" + tail))));
    assert EndsLine(s, q);
    assert s[0..] == s;
    if ReadString(s).Got? {
      CStringOf(ReadLiterals(s).value);
      LiteralsLength(s);
      var p' := LiteralsWithin(s, 0, q);
    }
  }

  lemma DefOf(ident: string, init: string)
    requires IsIdent(ident)
    ensures var r := ReadDef(DEF_TOKENS + (ident + (EQUALS_TOKEN + init)));
            r.Got? ==> ReadString(init).Got? && r.value == Def(ident, ReadString(init).value)
  {
    ExpectReads(DEF_TOKENS, ident + (EQUALS_TOKEN + init));
    assert (EQUALS_TOKEN + init)[0] == ' ';
    IdentReads(ident, EQUALS_TOKEN + init);
    ExpectReads(EQUALS_TOKEN, init);
  }

  lemma NameDefMisreads(i: nat, name: string, tail: string)
    requires !Plain(name)
    ensures var r := ReadDef(NameDef(i, name) + tail);
            r.Got? ==> r.value.ident == NameIdent(i) && r.value.value != name
  {
    NameDefNested(i, name, tail);
    NameMisreads(name, tail);
    IdentsAreIdents(i);
    DefOf(NameIdent(i), QUOTE + (name + (QUOTE + (";" + ("\n" + tail)))));
  }

  // ------------------------------------------------ the first bad file

  /** File `k` cannot be read back, and those before it can. */
  predicate FirstBad(files: seq<File>, k: nat) {
    && k < |files| && !(Plain(files[k].name) && files[k].data != [])
    && forall i | 0 <= i < k :: Plain(files[i].name) && files[i].data != []
  }

  lemma FindBad(files: seq<File>) returns (k: nat)
    requires !(AllPlain(files) && NoneEmpty(files))
    ensures FirstBad(files, k)
  {
    k := 0;
    while Plain(files[k].name) && files[k].data != []
      invariant k < |files| && forall i | 0 <= i < k :: Plain(files[i].name) && files[i].data != []
      decreases |files| - k
    {
      k := k + 1;
    }
  }

  /** The definitions before the bad file read as they should. */
  lemma GoodDefsRead(files: seq<File>, k: nat, rest: string)
    requires k <= |files| && forall i | 0 <= i < k :: Plain(files[i].name) && files[i].data != []
    requires Solid(DefsFrom(files, k) + rest)
    ensures ReadList(DEF_TOKENS, ReadDef, Defs(files) + rest)
         == ConsAll(FileDefs(files[..k]), ReadList(DEF_TOKENS, ReadDef, DefsFrom(files, k) + rest))
  {
    var front := files[..k];
    DefsReadOn(front, DefsFrom(files, k) + rest);
    DefsSplit(files, k);
    Assoc(Defs(front), DefsFrom(files, k), rest);
  }

  lemma DefsFromStart(files: seq<File>, k: nat, rest: string)
    requires k < |files|
    ensures DefsFrom(files, k) + rest
         == NameDef(k + 1, files[k].name) + (DataDef(k + 1, files[k].data) + (DefsFrom(files, k + 1) + rest))
    ensures Solid(DefsFrom(files, k) + rest) && DEF_TOKENS <= DefsFrom(files, k) + rest
  {
    var name, data, more := NameDef(k + 1, files[k].name), DataDef(k + 1, files[k].data), DefsFrom(files, k + 1);
    Assoc(name, data + more, rest);
    Assoc(data, more, rest);
    StartsWithDef(k + 1, files[k].name, files[k].data);
  }

  /** Reading on from the bad file fails, or starts with a wrong value for its name. */
  lemma BadDefsRead(files: seq<File>, k: nat, rest: string)
    requires FirstBad(files, k) && Solid(rest)
    ensures var r := ReadList(DEF_TOKENS, ReadDef, DefsFrom(files, k) + rest);
            r.Got? ==> r.value != [] && r.value[0].ident == NameIdent(k + 1) && r.value[0].value != files[k].name
  {
    var name, data := files[k].name, files[k].data;
    var more := DefsFrom(files, k + 1) + rest;
    DefsFromStart(files, k, rest);
    if !Plain(name) {
      NameDefMisreads(k + 1, name, DataDef(k + 1, data) + more);
      if ReadList(DEF_TOKENS, ReadDef, DefsFrom(files, k) + rest).Got? {
        ListHead(DEF_TOKENS, ReadDef, DefsFrom(files, k) + rest);
      }
    } else {
      EmptyFileFails(k + 1, name, data, more);
    }
  }

  lemma EmptyFileFails(i: nat, name: string, data: seq<Byte>, rest: string)
    requires Plain(name) && data == []
    ensures ReadList(DEF_TOKENS, ReadDef, NameDef(i, name) + (DataDef(i, data) + rest)) == Fail
  {
    StartsWithDef(i, name, data);
    assert Solid(DataDef(i, data) + rest) by {
      assert (DataDef(i, data) + rest)[0] == DataDef(i, data)[0];
    }
    NameItemReads(i, name);
    assert ReadsBefore(DEF_TOKENS, ReadDef, NameItem(i, name), DataDef(i, data) + rest);
    ListStep(DEF_TOKENS, ReadDef, NameItem(i, name), DataDef(i, data) + rest);
    DataFails(i, data, rest);
  }

  lemma DataFails(i: nat, data: seq<Byte>, rest: string)
    requires data == []
    ensures ReadList(DEF_TOKENS, ReadDef, DataDef(i, data) + rest) == Fail
  {
    StartsWithDef(i, "", data);
    DataDefReads(i, data, rest);
    assert DEF_TOKENS <= DataDef(i, data) + rest;
  }

  /** So a bad file is missing among the definitions, or its name is wrong there. */
  lemma DefsMisread(files: seq<File>, k: nat, rest: string)
    requires FirstBad(files, k) && Solid(rest)
    ensures var r := ReadList(DEF_TOKENS, ReadDef, Defs(files) + rest);
            r.Got? && Distinct(r.value) ==>
              Lookup(r.value, NameIdent(k + 1)).To? && Lookup(r.value, NameIdent(k + 1)).value != files[k].name
  {
    DefsFromStart(files, k, rest);
    GoodDefsRead(files, k, rest);
    BadDefsRead(files, k, rest);
    var r := ReadList(DEF_TOKENS, ReadDef, Defs(files) + rest);
    if r.Got? && Distinct(r.value) {
      var front, more := FileDefs(files[..k]), ReadList(DEF_TOKENS, ReadDef, DefsFrom(files, k) + rest).value;
      assert r.value == front + more;
      assert r.value[|front|] == more[0];
      LookupFinds(r.value, |front|);
    }
  }

  // ------------------------------------------- where the table must be

  /** The last `ch` before `end` is at `p`. */
  predicate LastAt(s: string, ch: char, p: nat, end: nat) {
    p < end <= |s| && s[p] == ch && forall i | p < i < end :: s[i] != ch
  }

  lemma LastIsOne(s: string, ch: char, p: nat, p': nat, end: nat)
    requires LastAt(s, ch, p, end) && LastAt(s, ch, p', end)
    ensures p == p'
  {
  }

  /** After the opening of a table, there is no bracket any more. */
  lemma LastBracket(s: string, body: string)
    requires Passes(s, CLOSE_TOKENS + body, {}) && Passes(body, "", BRACKET)
    ensures |body| + 6 <= |s| && LastAt(s, '[', |s| - |body| - 6, |s|)
    ensures s[|s| - |body|..] == body
  {
    var m, n := |s| - |CLOSE_TOKENS| - |body|, |s| - |body|;
    var t := CLOSE_TOKENS + body;
    assert s[m..] == t && t[|CLOSE_TOKENS|..] == body;
    ClosingBracket();
    assert s[n - 6] == t[16] == '[' && forall i | n - 6 < i < n :: s[i] == CLOSE_TOKENS[i - m];
    assert s[n..] == body;
    forall i | n - 6 < i < |s| ensures s[i] != '[' {
      if i >= n {
        assert s[i] == body[i - n];
      }
    }
  }

  lemma ClosingBracket()
    ensures |CLOSE_TOKENS| == 22 && CLOSE_TOKENS[16] == '[' && forall i | 16 < i < 22 :: CLOSE_TOKENS[i] != '['
  {
  }

  /** Two openings of a table after which no other bracket comes are the same. */
  lemma SameBody(s: string, body: string, body': string)
    requires Passes(s, CLOSE_TOKENS + body, {}) && Passes(body, "", BRACKET)
    requires Passes(s, CLOSE_TOKENS + body', {}) && Passes(body', "", BRACKET)
    ensures body == body'
  {
    LastBracket(s, body);
    LastBracket(s, body');
    LastIsOne(s, '[', |s| - |body| - 6, |s| - |body'| - 6, |s|);
  }

  // --------------------------------------------------- what rows pass

  lemma PointerPasses(s: string, defs: seq<Def>)
    requires ReadPointer(s, defs).Got?
    ensures Passes(s, ReadPointer(s, defs).rest, BRACKET)
  {
    if Expect(s, "NULL").Got? {
      ExpectPasses(s, "NULL", BRACKET);
    } else {
      var s1 := Expect(s, "&").rest;
      ExpectPasses(s, "&", BRACKET);
      IdentPasses(s1, BRACKET);
      PassesOn(s, s1, ReadIdent(s1).rest, BRACKET);
    }
  }

  lemma RowEndPasses(first: Pointer, s: string, defs: seq<Def>, order: FieldOrder)
    requires ReadRowEnd(first, s, defs, order).Got?
    ensures Passes(s, ReadRowEnd(first, s, defs, order).rest, BRACKET)
  {
    var s1 := Expect(s, ", ").rest;
    var s2 := ReadPointer(s1, defs).rest;
    ExpectPasses(s, ", ", BRACKET);
    PointerPasses(s1, defs);
    PassesOn(s, s1, s2, BRACKET);
    ExpectPasses(s2, "}", BRACKET);
    PassesOn(s, s2, Expect(s2, "}").rest, BRACKET);
  }

  lemma RowPasses(s: string, defs: seq<Def>, order: FieldOrder)
    requires ReadRow(s, defs, order).Got?
    ensures Passes(s, ReadRow(s, defs, order).rest, BRACKET)
  {
    var s1 := Expect(s, "{").rest;
    var s2 := ReadPointer(s1, defs).rest;
    ExpectPasses(s, "{", BRACKET);
    PointerPasses(s1, defs);
    PassesOn(s, s1, s2, BRACKET);
    RowEndPasses(ReadPointer(s1, defs).value, s2, defs, order);
    PassesOn(s, s2, ReadRow(s, defs, order).rest, BRACKET);
  }

  lemma EntryPasses(s: string, defs: seq<Def>, order: FieldOrder)
    requires ReadEntry(s, defs, order).Got?
    ensures Passes(s, ReadEntry(s, defs, order).rest, BRACKET)
  {
    var s1 := ReadRow(s, defs, order).rest;
    RowPasses(s, defs, order);
    if Expect(s1, ",").Got? {
      ExpectPasses(s1, ",", BRACKET);
      PassesOn(s, s1, Expect(s1, ",").rest, BRACKET);
    }
  }

  /** The end of a header is all that is left, without a bracket. */
  ghost predicate EndsText(end: string -> Read<Routine>) {
    forall s | end(s).Got? :: Passes(s, "", BRACKET)
  }

  /** A table and what follows it hold no bracket. */
  lemma RowsPass(end: string -> Read<Routine>, order: FieldOrder, s: string, defs: seq<Def>)
    requires EndsText(end) && ReadRows(end, Got(order, s), defs).Got?
    ensures Passes(s, "", BRACKET)
  {
    var entry := EntryReader(defs, order);
    forall t | entry(t).Got? ensures Passes(t, entry(t).rest, BRACKET) {
      EntryPasses(t, defs, order);
    }
    SkipPasses(s, BRACKET);
    ListPasses("{", entry, SkipSpace(s), BRACKET);
    var s2 := ReadList("{", entry, SkipSpace(s)).rest;
    PassesOn(s, SkipSpace(s), s2, BRACKET);
    PassesOn(s, s2, "", BRACKET);
  }

  // ------------------------------------------- the order of the fields

  /** At `p` stands the star before the last field `field`, which only its semicolon and space separate from `rest`. */
  predicate FieldAt(s: string, p: nat, field: string, rest: string) {
    && |rest| <= |s| && p + 1 + |field| < |s| && LastAt(s, '*', p, |s| - |rest|)
    && field <= s[p + 1..] && s[p + 1 + |field|] == ';' && ';' !in field
  }

  lemma StarAt(s: string)
    requires Expect(s, FIELD_TOKENS).Got?
    ensures |s| >= 19 && s[18] == '*' && Expect(s, FIELD_TOKENS).rest == s[19..]
  {
    assert FIELD_TOKENS[18] == '*';
  }

  lemma IdentShape(s: string)
    requires ReadIdent(s).Got?
    ensures var field, rest := ReadIdent(s).value, ReadIdent(s).rest;
            field <= s && rest == s[|field|..] && ';' !in field
  {
  }

  lemma FieldShape(s: string, field: string, s1: string, s2: string)
    requires ReadIdent(s) == Got(field, s1) && Expect(s1, ";") == Got((), s2)
    ensures Passes(s, SkipSpace(s2), {'*'})
    ensures |field| < |s| && field <= s && s[|field|] == ';' && ';' !in field
  {
    IdentShape(s);
    IdentPasses(s, {'*'});
    ExpectPasses(s1, ";", {'*'});
    PassesOn(s, s1, s2, {'*'});
    SkipPasses(s2, {'*'});
    PassesOn(s, s2, SkipSpace(s2), {'*'});
  }

  lemma FieldStar(s: string)
    requires ReadItem(ReadField, s).Got?
    ensures Passes(s, ReadItem(ReadField, s).rest, {})
    ensures FieldAt(s, 18, ReadItem(ReadField, s).value, ReadItem(ReadField, s).rest)
  {
    var s1 := Expect(s, FIELD_TOKENS).rest;
    var field, s2 := ReadIdent(s1).value, ReadIdent(s1).rest;
    var s3 := Expect(s2, ";").rest;
    StarAt(s);
    FieldShape(s1, field, s2, s3);
    AfterStar(s, s1, SkipSpace(s3));
    assert ReadItem(ReadField, s) == Got(field, SkipSpace(s3));
  }

  lemma AfterStar(s: string, s1: string, rest: string)
    requires |s| >= 19 && s[18] == '*' && s1 == s[19..] && Passes(s1, rest, {'*'})
    ensures Passes(s, rest, {}) && LastAt(s, '*', 18, |s| - |rest|)
  {
    assert Passes(s, s1, {});
    assert Passes(s1, rest, {});
    PassesOn(s, s1, rest, {});
    forall i | 18 < i < |s| - |rest| ensures s[i] != '*' {
      assert s[i] == s1[i - 19];
    }
  }

  /** What is found at the end of a text is found in a longer one. */
  lemma FieldShifts(s: string, t: string, p: nat, field: string, rest: string)
    requires Passes(s, t, {}) && FieldAt(t, p, field, rest)
    ensures FieldAt(s, |s| - |t| + p, field, rest)
  {
    var n := |s| - |t|;
    assert t == s[n..];
    assert s[n + p + 1..] == t[p + 1..];
    assert forall i | n <= i < |s| :: s[i] == t[i - n];
  }

  ghost predicate HasField(s: string, field: string, rest: string) {
    exists p :: FieldAt(s, p, field, rest)
  }

  /** What holds of an item just read, and still of it with more read in front, holds of the last item of a list. */
  lemma {:induction false} LastTaken<T(!new)>(
      open: string, read: string -> Read<T>, s: string, values: seq<T>, rest: string,
      found: (string, T, string) -> bool)
    requires forall t | ReadItem(read, t).Got? :: found(t, ReadItem(read, t).value, ReadItem(read, t).rest)
    requires forall t, x, rest | ReadItem(read, t).Got? && found(ReadItem(read, t).rest, x, rest) :: found(t, x, rest)
    requires ReadList(open, read, s) == Got(values, rest) && values != []
    ensures found(s, values[|values| - 1], rest)
    decreases |s|
  {
    var x, next := ListParts(open, read, s);
    var more := ReadList(open, read, next).value;
    if more != [] {
      LastTaken(open, read, next, more, rest, found);
      assert values[|values| - 1] == more[|more| - 1];
    }
  }

  lemma SameField(s: string, field: string, field': string, rest: string)
    requires HasField(s, field, rest) && HasField(s, field', rest)
    ensures field == field'
  {
    var p :| FieldAt(s, p, field, rest);
    var p' :| FieldAt(s, p', field', rest);
    LastIsOne(s, '*', p, p', |s| - |rest|);
    var t := s[p + 1..];
    assert t[|field|] == ';' && t[|field'|] == ';';
    assert forall i | 0 <= i < |field| :: t[i] == field[i] && field[i] in field;
    assert forall i | 0 <= i < |field'| :: t[i] == field'[i] && field'[i] in field';
  }

  lemma FieldTaken(s: string)
    requires ReadItem(ReadField, s).Got?
    ensures HasField(s, ReadItem(ReadField, s).value, ReadItem(ReadField, s).rest)
    ensures forall field, rest | HasField(ReadItem(ReadField, s).rest, field, rest) :: HasField(s, field, rest)
  {
    FieldStar(s);
    var next := ReadItem(ReadField, s).rest;
    forall field, rest | HasField(next, field, rest) ensures HasField(s, field, rest) {
      var p :| FieldAt(next, p, field, rest);
      FieldShifts(s, next, p, field, rest);
    }
  }

  lemma LastFieldIn(s: string, t: string, names: seq<string>, rest: string)
    requires Passes(s, t, {}) && ReadList(FIELD_TOKENS, ReadField, t) == Got(names, rest) && names != []
    ensures HasField(s, names[|names| - 1], rest)
  {
    var found := (s: string, field: string, rest: string) => HasField(s, field, rest);
    forall t | ReadItem(ReadField, t).Got?
      ensures found(t, ReadItem(ReadField, t).value, ReadItem(ReadField, t).rest)
      ensures forall x, rest | found(ReadItem(ReadField, t).rest, x, rest) :: found(t, x, rest)
    {
      FieldTaken(t);
    }
    LastTaken(FIELD_TOKENS, ReadField, t, names, rest, found);
    var p :| FieldAt(t, p, names[|names| - 1], rest);
    FieldShifts(s, t, p, names[|names| - 1], rest);
  }

  /** Two struct declarations in front of the same table end with the same field. */
  lemma SameLastField(s: string, t: string, t': string, names: seq<string>, names': seq<string>, rest: string)
    requires Passes(s, t, {}) && ReadList(FIELD_TOKENS, ReadField, t) == Got(names, rest) && names != []
    requires Passes(s, t', {}) && ReadList(FIELD_TOKENS, ReadField, t') == Got(names', rest) && names' != []
    ensures names[|names| - 1] == names'[|names'| - 1]
  {
    LastFieldIn(s, t, names, rest);
    LastFieldIn(s, t', names', rest);
    SameField(s, names[|names| - 1], names'[|names'| - 1], rest);
  }

  // ------------------------------------------------------ the whole header

  lemma DefPasses(s: string)
    requires ReadDef(s).Got?
    ensures Passes(s, ReadDef(s).rest, {})
  {
    var s1 := Expect(s, DEF_TOKENS).rest;
    var s2 := ReadIdent(s1).rest;
    ExpectPasses(s, DEF_TOKENS, {});
    IdentPasses(s1, {});
    PassesOn(s, s1, s2, {});
    InitPasses(ReadIdent(s1).value, s2);
    PassesOn(s, s2, ReadDef(s).rest, {});
  }

  lemma InitPasses(ident: string, s: string)
    requires ReadInit(ident, s).Got?
    ensures Passes(s, ReadInit(ident, s).rest, {})
  {
    var s1 := Expect(s, EQUALS_TOKEN).rest;
    var s2 := ReadString(s1).rest;
    ExpectPasses(s, EQUALS_TOKEN, {});
    StringPasses(s1);
    PassesOn(s, s1, s2, {});
    ExpectPasses(s2, ";", {});
    PassesOn(s, s2, Expect(s2, ";").rest, {});
  }

  lemma DefsPass(s: string)
    requires ReadList(DEF_TOKENS, ReadDef, s).Got?
    ensures Passes(s, ReadList(DEF_TOKENS, ReadDef, s).rest, {})
  {
    forall t | ReadDef(t).Got? ensures Passes(t, ReadDef(t).rest, {}) {
      DefPasses(t);
    }
    ListPasses(DEF_TOKENS, ReadDef, s, {});
  }

  /** A struct declaration that was read: its fields, and what follows them. */
  lemma StructSplits(s: string) returns (t: string, names: seq<string>)
    requires ReadStruct(s).Got?
    ensures Passes(s, t, {})
    ensures ReadList(FIELD_TOKENS, ReadField, t) == Got(names, CLOSE_TOKENS + ReadStruct(s).rest)
    ensures |names| == 2 && (names[1] == "data" ==> ReadStruct(s).value == NameFirst)
  {
    var s1 := Expect(s, OPEN_TOKENS).rest;
    t := SkipSpace(s1);
    ExpectPasses(s, OPEN_TOKENS, {});
    SkipPasses(s1, {});
    PassesOn(s, s1, t, {});
    var fields := ReadList(FIELD_TOKENS, ReadField, t);
    names := fields.value;
    StructEndSplits(fields);
  }

  lemma StructEndSplits(fields: Read<seq<string>>)
    requires ReadStructEnd(fields).Got?
    ensures fields.Got? && fields.rest == CLOSE_TOKENS + ReadStructEnd(fields).rest
    ensures |fields.value| == 2 && (fields.value[1] == "data" ==> ReadStructEnd(fields).value == NameFirst)
  {
    assert "name"[0] != "data"[0];
  }

  lemma PassesFront(a: string, b: string)
    ensures Passes(a + b, b, {})
  {
  }

  lemma FieldsPass(s: string, names: seq<string>, rest: string)
    requires ReadList(FIELD_TOKENS, ReadField, s) == Got(names, rest)
    ensures Passes(s, rest, {})
  {
    forall t | ReadField(t).Got? ensures Passes(t, ReadField(t).rest, {}) {
      var s1 := Expect(t, FIELD_TOKENS).rest;
      var s2 := ReadIdent(s1).rest;
      ExpectPasses(t, FIELD_TOKENS, {});
      IdentPasses(s1, {});
      PassesOn(t, s1, s2, {});
      ExpectPasses(s2, ";", {});
      PassesOn(t, s2, ReadField(t).rest, {});
    }
    ListPasses(FIELD_TOKENS, ReadField, s, {});
  }

  /** The generated rows hold no bracket: with suitable definitions they can be read. */
  lemma GeneratedRowsPass(frame: Frame, end: string -> Read<Routine>, n: nat)
    requires Ends(frame, end) && EndsText(end)
    ensures Passes("\n" + (Rows(n) + (NULL_ROW + frame.epilogue)), "", BRACKET)
  {
    var files := seq(n, i => File("", ['\0']));
    var body := "\n" + (Rows(n) + (NULL_ROW + frame.epilogue));
    FileRows(files);
    RowsOfStruct(frame, end, Got(NameFirst, body), n, FileDefs(files));
    RowsPass(end, NameFirst, body, FileDefs(files));
  }

  /** The fields and the table as they are generated. */
  function FieldsAnd(body: string): string {
    NAME_FIELD.text + (DATA_FIELD.text + (CLOSE_TOKENS + body))
  }

  lemma FieldsAndRead(body: string)
    ensures ReadList(FIELD_TOKENS, ReadField, FieldsAnd(body)) == Got(["name", "data"], CLOSE_TOKENS + body)
    ensures Passes(FieldsAnd(body), CLOSE_TOKENS + body, {})
  {
    StructEndReads(body);
    FieldsRead(CLOSE_TOKENS + body);
    FieldsPass(FieldsAnd(body), ["name", "data"], CLOSE_TOKENS + body);
  }

  /** However the definitions were read, what is read as the table is the generated one, with the name first. */
  lemma TableIsGenerated(
      frame: Frame, end: string -> Read<Routine>, s: string, body: string, n: nat, s2: string, defs: seq<Def>)
    requires Ends(frame, end) && EndsText(end)
    requires body == "\n" + (Rows(n) + (NULL_ROW + frame.epilogue)) && Passes(s, FieldsAnd(body), {})
    requires Passes(s, s2, {}) && ReadRows(end, ReadStruct(s2), defs).Got?
    ensures ReadStruct(s2) == Got(NameFirst, body)
  {
    var order, s3 := ReadStruct(s2).value, ReadStruct(s2).rest;
    var t, names := StructSplits(s2);
    PassesOn(s, s2, t, {});
    FieldsPass(t, names, CLOSE_TOKENS + s3);
    PassesOn(s, t, CLOSE_TOKENS + s3, {});
    FieldsAndRead(body);
    PassesOn(s, FieldsAnd(body), CLOSE_TOKENS + body, {});
    RowsPass(end, order, s3, defs);
    GeneratedRowsPass(frame, end, n);
    SameBody(s, s3, body);
    SameLastField(s, t, FieldsAnd(body), names, ["name", "data"], CLOSE_TOKENS + body);
  }

  /** The struct declaration in front of `rows`, token by token. */
  function StructAnd(rows: string): string {
    OPEN_TOKENS + ("\n" + ("  " + FieldsAnd("\n" + rows)))
  }

  /** The fixed text declares the struct and ends the table. */
  ghost predicate Declares(frame: Frame, parts: Parts) {
    && (forall rows :: frame.table + rows == StructAnd(rows))
    && (forall rest | Solid(rest) :: parts.start(frame.prologue + rest) == Got((), rest))
    && parts.struct == ReadStruct && Ends(frame, parts.end) && EndsText(parts.end)
  }

  lemma FrameDeclares()
    ensures Declares(FRAME, HEADER_PARTS)
  {
    forall rows ensures FRAME.table + rows == StructAnd(rows) {
      StructNested(rows);
    }
    FrameSeparates();
    forall s | ReadEnd(s).Got? ensures Passes(s, "", BRACKET) {
      EndPasses(s);
    }
  }

  lemma StructAndPasses(front: string, rows: string)
    ensures Passes(front + StructAnd(rows), FieldsAnd("\n" + rows), {}) && Solid(StructAnd(rows))
  {
    var t := FieldsAnd("\n" + rows);
    PassesFront("  ", t);
    PassesFront("\n", "  " + t);
    PassesOn("\n" + ("  " + t), "  " + t, t, {});
    PassesFront(OPEN_TOKENS, "\n" + ("  " + t));
    PassesOn(StructAnd(rows), "\n" + ("  " + t), t, {});
    PassesFront(front, StructAnd(rows));
    PassesOn(front + StructAnd(rows), StructAnd(rows), t, {});
    assert StructAnd(rows)[0] == OPEN_TOKENS[0] == 's';
  }

  function RowsAnd(n: nat, rest: string): string {
    Rows(n) + (NULL_ROW + rest)
  }

  lemma HeaderNested(frame: Frame, parts: Parts, files: seq<File>)
    requires Declares(frame, parts)
    ensures FramedText(frame, files)
         == frame.prologue + (Defs(files) + StructAnd(RowsAnd(|files|, frame.epilogue)))
  {
    FramedTextNested(frame, files);
  }

  lemma RowOfBad(files: seq<File>, k: nat, defs: seq<Def>)
    requires k < |files|
    requires Lookup(defs, NameIdent(k + 1)).To? && Lookup(defs, NameIdent(k + 1)).value != files[k].name
    ensures ValuesFrom(RowItems(defs, |files|), 0) != Table(files)
  {
    var items := RowItems(defs, |files|);
    assert ValuesFrom(items, 0)[k - 0] == items[k].value;
    assert items[k].value.name == Lookup(defs, NameIdent(k + 1)) && Table(files)[k] == RowOf(files[k]);
  }

  /** What is read after definitions in which a name is wrong is not the table of the files. */
  lemma BadTable(
      frame: Frame, end: string -> Read<Routine>, files: seq<File>, k: nat, s: string, s2: string, defs: seq<Def>)
    requires Ends(frame, end) && EndsText(end) && k < |files|
    requires Passes(s, FieldsAnd("\n" + RowsAnd(|files|, frame.epilogue)), {}) && Passes(s, s2, {})
    requires Lookup(defs, NameIdent(k + 1)).To? && Lookup(defs, NameIdent(k + 1)).value != files[k].name
    ensures var header := ReadRows(end, ReadStruct(s2), defs);
            header.Got? ==> header.value.table != Table(files)
  {
    var body := "\n" + RowsAnd(|files|, frame.epilogue);
    if ReadRows(end, ReadStruct(s2), defs).Got? {
      TableIsGenerated(frame, end, s, body, |files|, s2, defs);
      RowsOfStruct(frame, end, Got(NameFirst, body), |files|, defs);
      RowOfBad(files, k, defs);
    }
  }

  lemma BadDefsMissed(frame: Frame, parts: Parts, files: seq<File>, k: nat, s: string, rest: string)
    requires Declares(frame, parts) && FirstBad(files, k)
    requires rest == StructAnd(RowsAnd(|files|, frame.epilogue)) && s == Defs(files) + rest
    ensures var r := ReadList(DEF_TOKENS, ReadDef, s);
            r.Got? && Distinct(r.value) ==>
              var header := ReadRows(parts.end, parts.struct(r.rest), r.value);
              header.Got? ==> header.value.table != Table(files)
  {
    StructAndPasses(Defs(files), RowsAnd(|files|, frame.epilogue));
    DefsMisread(files, k, rest);
    var r := ReadList(DEF_TOKENS, ReadDef, s);
    if r.Got? && Distinct(r.value) {
      DefsPass(s);
      BadTable(frame, parts.end, files, k, s, r.rest, r.value);
    }
  }

  /** The header after its start: read as definitions and a table, it does not yield the table of the files. */
  lemma BadText(frame: Frame, parts: Parts, files: seq<File>, k: nat) returns (s: string)
    requires Declares(frame, parts) && FirstBad(files, k)
    ensures FramedText(frame, files) == frame.prologue + s && Solid(s)
    ensures var r := ReadList(DEF_TOKENS, ReadDef, s);
            r.Got? && Distinct(r.value) ==>
              var header := ReadRows(parts.end, parts.struct(r.rest), r.value);
              header.Got? ==> header.value.table != Table(files)
  {
    var rest := StructAnd(RowsAnd(|files|, frame.epilogue));
    s := Defs(files) + rest;
    HeaderNested(frame, parts, files);
    assert Solid(s) by {
      StructAndPasses(Defs(files), RowsAnd(|files|, frame.epilogue));
      DefsSolid(files, rest);
    }
    BadDefsMissed(frame, parts, files, k, s, rest);
  }

  lemma BadFileIsMissed(frame: Frame, parts: Parts, files: seq<File>, k: nat)
    requires Declares(frame, parts) && FirstBad(files, k)
    ensures var header := ReadParts(parts, FramedText(frame, files));
            header.Got? ==> header.value.table != Table(files)
  {
    var s := BadText(frame, parts, files, k);
    PartsOf(parts, frame.prologue + s, s);
  }

  /**
    Whatever the files are: a compiler reads their table back from their header if and only
    if every name is plain and no file is empty, and then the lookup function with it.
   */
  lemma HeaderRoundTripIff(files: seq<File>)
    ensures ReadHeader(HeaderText(files)) == Got(Compiled(Table(files), LOOKUP), "") <==>
            AllPlain(files) && NoneEmpty(files)
    ensures var header := ReadHeader(HeaderText(files));
            header.Got? && header.value.table == Table(files) <==> AllPlain(files) && NoneEmpty(files)
  {
    if AllPlain(files) && NoneEmpty(files) {
      HeaderReadsBackIff(files);
    } else {
      var k := FindBad(files);
      FrameDeclares();
      BadFileIsMissed(FRAME, HEADER_PARTS, files, k);
    }
  }
}
