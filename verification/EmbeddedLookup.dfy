/**
  The emitted lookup function: what the reader makes of its text, and what that does on a
  table that ends with a null row.
 */
module EmbeddedLookup {
  import opened CxxReader
  import opened LookupReader
  import opened Generator
  import opened EmbeddedData
  import opened HeaderReader
  import opened ListReading

  // ------------------------------------------------------------- tokens

  predicate Blank(pad: string) {
    forall i | 0 <= i < |pad| :: IsSpace(pad[i])
  }

  lemma SkipsTo(pad: string, s: string)
    requires Solid(s) && Blank(pad)
    ensures SkipSpace(pad + s) == s
  {
    SpanOf(IsSpace, pad + s, |pad|);
    assert (pad + s)[|pad|..] == s;
  }

  lemma TokenReads(pad: string, token: string, rest: string)
    requires Solid(token) && Blank(pad)
    ensures Token(pad + (token + rest), token) == Got((), rest)
  {
    assert (token + rest)[0] == token[0];
    SkipsTo(pad, token + rest);
    ExpectReads(token, rest);
  }

  lemma OtherToken(pad: string, s: string, token: string)
    requires Solid(s) && token != [] && s[0] != token[0] && Blank(pad)
    ensures Token(pad + s, token) == Fail
  {
    SkipsTo(pad, s);
  }

  /** Text that an identifier does not go on into. */
  predicate EndsWord(s: string) {
    s != [] && !IsIdentChar(s[0])
  }

  lemma WordReads(pad: string, word: string, rest: string)
    requires IsIdent(word) && EndsWord(rest) && Blank(pad)
    ensures Word(pad + (word + rest)) == Got(word, rest)
  {
    assert (word + rest)[0] == word[0];
    SkipsTo(pad, word + rest);
    IdentReads(word, rest);
  }

  lemma WordThenReads(pad: string, word: string, gap: string, token: string, rest: string)
    requires IsIdent(word) && Solid(token) && Blank(pad) && Blank(gap) && EndsWord(gap + (token + rest))
    ensures WordThen(pad + (word + (gap + (token + rest))), token) == Got(word, rest)
  {
    WordReads(pad, word, gap + (token + rest));
    TokenReads(gap, token, rest);
  }

  lemma TokenThenWordReads(
      pad: string, before: string, gap: string, word: string, gap': string, after: string, rest: string)
    requires Solid(before) && IsIdent(word) && Solid(after) && Blank(pad) && Blank(gap) && Blank(gap')
    requires EndsWord(gap' + (after + rest))
    ensures TokenThenWord(pad + (before + (gap + (word + (gap' + (after + rest))))), before, after) == Got(word, rest)
  {
    TokenReads(pad, before, gap + (word + (gap' + (after + rest))));
    WordThenReads(gap, word, gap', after, rest);
  }

  lemma NoPad(s: string)
    ensures "" + s == s
  {
  }

  /** A word and a token with nothing between them. */
  lemma TightWord(pad: string, word: string, after: string, rest: string)
    requires Blank(pad) && IsIdent(word) && Solid(after) && !IsIdentChar(after[0])
    ensures WordThen(pad + (word + (after + rest)), after) == Got(word, rest)
  {
    assert (after + rest)[0] == after[0];
    NoPad(after + rest);
    WordThenReads(pad, word, "", after, rest);
  }

  lemma LeadingWord(word: string, after: string, rest: string)
    requires IsIdent(word) && Solid(after) && !IsIdentChar(after[0])
    ensures WordThen(word + (after + rest), after) == Got(word, rest)
  {
    NoPad(word + (after + rest));
    TightWord("", word, after, rest);
  }

  /** A token, a word and a token, with nothing between them. */
  lemma OpenWord(pad: string, before: string, word: string, after: string, rest: string)
    requires Blank(pad) && Solid(before) && IsIdent(word) && Solid(after) && !IsIdentChar(after[0])
    ensures TokenThenWord(pad + (before + (word + (after + rest))), before, after) == Got(word, rest)
  {
    assert (after + rest)[0] == after[0];
    NoPad(after + rest);
    NoPad(word + (after + rest));
    TokenThenWordReads(pad, before, "", word, "", after, rest);
  }

  // ---------------------------------------------------------- expressions

  /** `pointer->field` */
  lemma PlaceReads(pad: string, pointer: string, field: string, rest: string)
    requires IsIdent(pointer) && IsIdent(field) && EndsWord(rest) && Blank(pad)
    ensures ReadPlace(pad + (pointer + ("->" + (field + rest)))) == Got(Field(pointer, field), rest)
  {
    assert ("->" + (field + rest))[0] == '-';
    WordReads(pad, pointer, "->" + (field + rest));
    ExpectReads("->", field + rest);
    IdentReads(field, rest);
  }

  lemma NameReads(pad: string, name: string, rest: string)
    requires IsIdent(name) && EndsWord(rest) && rest[0] != '-' && Blank(pad)
    ensures ReadPlace(pad + (name + rest)) == Got(if name == "NULL" then NullLiteral else Variable(name), rest)
  {
    WordReads(pad, name, rest);
    assert "->"[0] == '-';
  }

  lemma PlainExpr(pad: string, s: string)
    requires Solid(s) && s[0] != '*' && Blank(pad)
    ensures ReadExpr(pad + s) == ReadPlace(pad + s)
  {
    OtherToken(pad, s, "*");
  }

  lemma FieldExpr(pad: string, pointer: string, field: string, rest: string)
    requires IsIdent(pointer) && IsIdent(field) && EndsWord(rest) && Blank(pad)
    ensures ReadExpr(pad + (pointer + ("->" + (field + rest)))) == Got(Field(pointer, field), rest)
  {
    var s := pointer + ("->" + (field + rest));
    assert s[0] == pointer[0];
    PlainExpr(pad, s);
    PlaceReads(pad, pointer, field, rest);
  }

  lemma NameExpr(pad: string, name: string, rest: string)
    requires IsIdent(name) && EndsWord(rest) && rest[0] != '-' && Blank(pad)
    ensures ReadExpr(pad + (name + rest)) == Got(if name == "NULL" then NullLiteral else Variable(name), rest)
  {
    assert (name + rest)[0] == name[0];
    PlainExpr(pad, name + rest);
    NameReads(pad, name, rest);
  }

  /** What a field of the cursor points to. */
  lemma DerefExpr(pad: string, pointer: string, field: string, text: string, rest: string)
    requires IsIdent(pointer) && IsIdent(field) && EndsWord(rest) && Blank(pad)
    requires text == "*" + (pointer + ("->" + field))
    ensures ReadExpr(pad + (text + rest)) == Got(Deref(Field(pointer, field)), rest)
  {
    var s := pointer + ("->" + (field + rest));
    Tail4("*", pointer, "->", field, rest);
    TokenReads(pad, "*", s);
    NoPad(s);
    PlaceReads("", pointer, field, rest);
  }

  lemma ExprThen(s: string, expr: Expr, token: string, rest: string)
    requires ReadExpr(s) == Got(expr, token + rest) && Solid(token)
    ensures ReadExprThen(s, token) == Got(expr, rest)
  {
    NoPad(token + rest);
    TokenReads("", token, rest);
  }

  /** A test with a token after it, when its two sides read as they should. */
  lemma TestReads(s: string, left: Expr, equal: bool, s1: string, right: Expr, after: string, rest: string)
    requires ReadExpr(s) == Got(left, " " + ((if equal then "==" else "!=") + s1))
    requires ReadExpr(s1) == Got(right, after + rest) && Solid(after)
    ensures ReadTest(s, after) == Got(Test(left, equal, right), rest)
  {
    if equal {
      TokenReads(" ", "==", s1);
    } else {
      OtherToken(" ", "!=" + s1, "==");
      TokenReads(" ", "!=", s1);
    }
    ExprThen(s1, right, after, rest);
  }

  // --------------------------------------------------------- concatenation

  lemma Tail3(a: string, b: string, c: string, rest: string)
    ensures (a + (b + c)) + rest == a + (b + (c + rest))
  {
    Assoc(a, b + c, rest);
    Assoc(b, c, rest);
  }

  lemma Tail4(a: string, b: string, c: string, d: string, rest: string)
    ensures (a + (b + (c + d))) + rest == a + (b + (c + (d + rest)))
  {
    Assoc(a, b + (c + d), rest);
    Tail3(b, c, d, rest);
  }

  lemma Tail5(a: string, b: string, c: string, d: string, e: string, rest: string)
    ensures (a + (b + (c + (d + e)))) + rest == a + (b + (c + (d + (e + rest))))
  {
    Assoc(a, b + (c + (d + e)), rest);
    Tail4(b, c, d, e, rest);
  }

  lemma Tail6(a: string, b: string, c: string, d: string, e: string, f: string, rest: string)
    ensures (a + (b + (c + (d + (e + f))))) + rest == a + (b + (c + (d + (e + (f + rest)))))
  {
    Assoc(a, b + (c + (d + (e + f))), rest);
    Tail5(b, c, d, e, f, rest);
  }

  lemma Nested5(a: string, b: string, c: string, d: string, e: string, rest: string)
    ensures (a + b + c + d + e) + rest == a + (b + (c + (d + (e + rest))))
  {
    Assoc(a + b + c + d, e, rest);
    Assoc(a + b + c, d, e + rest);
    Assoc(a + b, c, d + (e + rest));
    Assoc(a, b, c + (d + (e + rest)));
  }

  lemma Nested6(a: string, b: string, c: string, d: string, e: string, f: string, rest: string)
    ensures (a + b + c + d + e + f) + rest == a + (b + (c + (d + (e + (f + rest)))))
  {
    Assoc(a + b + c + d + e, f, rest);
    Nested5(a, b, c, d, e, f + rest);
  }

  // ---------------------------------------------------------- line by line

  const SIGNATURE_TEXT := "static bool find_embedded_file("
  const PARAMS_TEXT := "const std::string &name, std::string &data) {\n"

  lemma SignatureLine()
    ensures CODE_SIGNATURE == SIGNATURE_TEXT + PARAMS_TEXT
  {
  }

  lemma ParamsLine()
    ensures PARAMS_TEXT == "const std::string &" + ("name" + (", std::string &" + ("data" + (") {" + "\n"))))
  {
  }

  lemma ParamsRead(rest: string)
    ensures ReadParams(PARAMS_TEXT + rest) == Got(("name", "data"), "\n" + rest)
  {
    ParamsLine();
    Tail6("const std::string &", "name", ", std::string &", "data", ") {", "\n", rest);
    TwoWords("const std::string &", "name", ", std::string &", "data", ") {", "\n" + rest);
  }

  lemma TwoWords(a: string, word: string, b: string, word': string, c: string, rest: string)
    requires Solid(a) && IsIdent(word) && Solid(b) && !IsIdentChar(b[0])
    requires IsIdent(word') && Solid(c) && !IsIdentChar(c[0])
    ensures TokenThenWord(a + (word + (b + (word' + (c + rest)))), a, b) == Got(word, word' + (c + rest))
    ensures WordThen(word' + (c + rest), c) == Got(word', rest)
  {
    NoPad(a + (word + (b + (word' + (c + rest)))));
    OpenWord("", a, word, b, word' + (c + rest));
    LeadingWord(word', c, rest);
  }

  lemma SignatureReads(pad: string, rest: string)
    requires Blank(pad)
    ensures ReadSignature(pad + (CODE_SIGNATURE + rest)) == Got(("name", "data"), "\n" + rest)
  {
    SignatureLine();
    Assoc(SIGNATURE_TEXT, PARAMS_TEXT, rest);
    assert SIGNATURE_TEXT[0] == 's';
    TokenReads(pad, SIGNATURE_TEXT, PARAMS_TEXT + rest);
    ParamsRead(rest);
  }

  lemma CursorLine()
    ensures "\n" + CODE_CURSOR == "\n  " + ("const struct embedded_file *" + ("p" + (";" + "\n")))
  {
  }

  lemma CursorReads(rest: string)
    ensures TokenThenWord("\n" + (CODE_CURSOR + rest), "const struct embedded_file *", ";") == Got("p", "\n" + rest)
  {
    CursorLine();
    Assoc("\n", CODE_CURSOR, rest);
    Tail5("\n  ", "const struct embedded_file *", "p", ";", "\n", rest);
    OpenWord("\n  ", "const struct embedded_file *", "p", ";", "\n" + rest);
  }

  // ------------------------------------------------------------- the loop

  const FOR_START := "  for (p = embedded_files;"
  const FOR_TEST := " p->name != NULL;"
  const FOR_STEP := " p++) {\n"

  lemma ForLine()
    ensures CODE_FOR == FOR_START + (FOR_TEST + FOR_STEP)
  {
  }

  lemma ForStartLine()
    ensures "\n" + FOR_START == "\n  " + ("for (" + ("p" + (" " + "= embedded_files;")))
  {
  }

  lemma ForStartReads(rest: string)
    ensures TokenThenWord("\n" + (FOR_START + rest), "for (", "= embedded_files;") == Got("p", rest)
  {
    var end := " " + ("= embedded_files;" + rest);
    ForStartLine();
    Assoc("\n", FOR_START, rest);
    Tail5("\n  ", "for (", "p", " ", "= embedded_files;", rest);
    assert end[0] == ' ';
    NoPad("p" + end);
    TokenThenWordReads("\n  ", "for (", "", "p", " ", "= embedded_files;", rest);
  }

  const LOOP_TEST := Test(Field("p", "name"), false, NullLiteral)

  lemma ForTestLine()
    ensures FOR_TEST == " " + ("p" + ("->" + ("name" + (" != NULL;"))))
    ensures " != NULL;" == " " + ("!=" + (" NULL" + ";"))
    ensures " NULL" == " " + "NULL"
  {
  }

  lemma NullReads(rest: string)
    ensures ReadExpr(" NULL" + (";" + rest)) == Got(NullLiteral, ";" + rest)
  {
    ForTestLine();
    Assoc(" ", "NULL", ";" + rest);
    assert (";" + rest)[0] == ';';
    NameExpr(" ", "NULL", ";" + rest);
  }

  lemma ForTestText(rest: string)
    ensures FOR_TEST + rest == " " + ("p" + ("->" + ("name" + (" " + ("!=" + (" NULL" + (";" + rest)))))))
  {
    ForTestLine();
    Tail5(" ", "p", "->", "name", " != NULL;", rest);
    Tail4(" ", "!=", " NULL", ";", rest);
  }

  lemma NotNull(right: string, rest: string)
    requires ReadExpr(right) == Got(NullLiteral, ";" + rest)
    ensures ReadTest(" " + ("p" + ("->" + ("name" + (" " + ("!=" + right))))), ";") == Got(LOOP_TEST, rest)
  {
    var end := " " + ("!=" + right);
    assert end[0] == ' ';
    FieldExpr(" ", "p", "name", end);
    TestReads(" " + ("p" + ("->" + ("name" + end))), Field("p", "name"), false, right, NullLiteral, ";", rest);
  }

  lemma ForTestReads(rest: string)
    ensures ReadTest(FOR_TEST + rest, ";") == Got(LOOP_TEST, rest)
  {
    ForTestText(rest);
    NullReads(rest);
    NotNull(" NULL" + (";" + rest), rest);
  }

  lemma ForStepReads(rest: string)
    ensures WordThen(FOR_STEP + rest, "++) {") == Got("p", "\n" + rest)
  {
    assert FOR_STEP == " " + ("p" + ("++) {" + "\n"));
    Tail4(" ", "p", "++) {", "\n", rest);
    TightWord(" ", "p", "++) {", "\n" + rest);
  }

  lemma ForReads(rest: string)
    ensures ReadFor("\n" + (CODE_FOR + rest)) == Got(("p", LOOP_TEST, "p"), "\n" + rest)
  {
    ForLine();
    Tail3(FOR_START, FOR_TEST, FOR_STEP, rest);
    ForStartReads(FOR_TEST + (FOR_STEP + rest));
    ForTestReads(FOR_STEP + rest);
    ForStepReads(rest);
  }

  // ------------------------------------------------------ inside the loop

  const HIT_TEST := Test(Deref(Field("p", "name")), true, Variable("name"))

  lemma IfLine()
    ensures "\n" + CODE_IF == "\n    " + ("if (" + ("*p->name" + (" " + ("==" + (" name" + (") {" + "\n"))))))
    ensures "*p->name" == "*" + ("p" + ("->" + "name")) && " name" == " " + "name"
  {
  }

  lemma IfText(rest: string)
    ensures "\n" + (CODE_IF + rest)
         == "\n    " + ("if (" + ("*p->name" + (" " + ("==" + (" name" + (") {" + ("\n" + rest)))))))
  {
    IfLine();
    Assoc("\n", CODE_IF, rest);
    Assoc("\n    ", "if (" + ("*p->name" + (" " + ("==" + (" name" + (") {" + "\n"))))), rest);
    Assoc("if (", "*p->name" + (" " + ("==" + (" name" + (") {" + "\n")))), rest);
    Tail6("*p->name", " ", "==", " name", ") {", "\n", rest);
  }

  lemma HitReads(rest: string)
    ensures ReadTest("*p->name" + (" " + ("==" + (" name" + (") {" + rest)))), ") {") == Got(HIT_TEST, rest)
  {
    var s1 := " name" + (") {" + rest);
    var end := " " + ("==" + s1);
    IfLine();
    assert end[0] == ' ' && (") {" + rest)[0] == ')';
    NoPad("*p->name" + end);
    DerefExpr("", "p", "name", "*p->name", end);
    Assoc(" ", "name", ") {" + rest);
    NameExpr(" ", "name", ") {" + rest);
    TestReads("*p->name" + end, Deref(Field("p", "name")), true, s1, Variable("name"), ") {", rest);
  }

  lemma AssignLine()
    ensures "\n" + CODE_ASSIGN == "\n      " + ("data" + (" " + ("=" + (" *p->data" + (";" + "\n")))))
    ensures " *p->data" == " " + "*p->data" && "*p->data" == "*" + ("p" + ("->" + "data"))
  {
  }

  lemma AssignText(rest: string)
    ensures "\n" + (CODE_ASSIGN + rest)
         == "\n      " + ("data" + (" " + ("=" + (" *p->data" + (";" + ("\n" + rest))))))
  {
    AssignLine();
    Assoc("\n", CODE_ASSIGN, rest);
    Assoc("\n      ", "data" + (" " + ("=" + (" *p->data" + (";" + "\n")))), rest);
    Tail6("data", " ", "=", " *p->data", ";", "\n", rest);
  }

  const SOURCE := Deref(Field("p", "data"))

  lemma SourceReads(rest: string)
    ensures ReadExprThen(" *p->data" + (";" + rest), ";") == Got(SOURCE, rest)
  {
    AssignLine();
    Assoc(" ", "*p->data", ";" + rest);
    assert (";" + rest)[0] == ';';
    DerefExpr(" ", "p", "data", "*p->data", ";" + rest);
    ExprThen(" *p->data" + (";" + rest), SOURCE, ";", rest);
  }

  lemma TargetReads(rest: string)
    ensures WordThen("\n      " + ("data" + (" " + ("=" + rest))), "=") == Got("data", rest)
  {
    assert (" " + ("=" + rest))[0] == ' ';
    WordThenReads("\n      ", "data", " ", "=", rest);
  }

  lemma AssignReads(rest: string)
    ensures ReadAssign("\n" + (CODE_ASSIGN + rest)) == Got(("data", SOURCE), "\n" + rest)
  {
    AssignText(rest);
    TargetReads(" *p->data" + (";" + ("\n" + rest)));
    SourceReads("\n" + rest);
  }

  lemma FoundLine()
    ensures "\n" + CODE_FOUND == "\n      " + ("return" + (" " + ("true" + (";" + "\n"))))
  {
  }

  lemma MissingLine()
    ensures "\n" + CODE_MISSING == "\n  " + ("return" + (" " + ("false" + (";" + "\n"))))
  {
  }

  lemma ReturnWord(line: string, pad: string, word: string, rest: string)
    requires "\n" + line == pad + ("return" + (" " + (word + (";" + "\n")))) && Blank(pad) && IsIdent(word)
    ensures TokenThenWord("\n" + (line + rest), "return", ";") == Got(word, "\n" + rest)
  {
    Assoc("\n", line, rest);
    Tail6(pad, "return", " ", word, ";", "\n", rest);
    var end := ";" + ("\n" + rest);
    assert end[0] == ';';
    NoPad(end);
    TokenThenWordReads(pad, "return", " ", word, "", ";", "\n" + rest);
  }

  lemma FoundReads(rest: string)
    ensures ReadReturn("\n" + (CODE_FOUND + rest)) == Got(true, "\n" + rest)
  {
    FoundLine();
    ReturnWord(CODE_FOUND, "\n      ", "true", rest);
  }

  lemma MissingReads(rest: string)
    ensures ReadReturn("\n" + (CODE_MISSING + rest)) == Got(false, "\n" + rest)
  {
    MissingLine();
    ReturnWord(CODE_MISSING, "\n  ", "false", rest);
    assert "false"[0] != "true"[0];
  }

  lemma BraceLines(rest: string)
    ensures "\n" + (CODE_END_IF + rest) == "\n    " + ("}" + ("\n" + rest))
    ensures "\n" + (CODE_END_FOR + rest) == "\n  " + ("}" + ("\n" + rest))
    ensures "\n" + (CODE_END + rest) == "\n" + ("}" + ("\n" + rest))
  {
  }

  lemma BracesRead(rest: string)
    ensures Token("\n" + (CODE_END_IF + rest), "}") == Got((), "\n" + rest)
    ensures Token("\n" + (CODE_END_FOR + rest), "}") == Got((), "\n" + rest)
    ensures Token("\n" + (CODE_END + rest), "}") == Got((), "\n" + rest)
  {
    BraceLines(rest);
    TokenReads("\n    ", "}", "\n" + rest);
    TokenReads("\n  ", "}", "\n" + rest);
    TokenReads("\n", "}", "\n" + rest);
  }

  // --------------------------------------------------------- all together

  /** The loop and the function, as they are read. */
  const LOOKUP_LOOP := Loop("p", LOOP_TEST, "p", HIT_TEST, "data", SOURCE, true)
  const LOOKUP := Routine("name", "data", "p", LOOKUP_LOOP, false)

  lemma IfOf(s: string, s1: string, test: Test, s2: string)
    requires Token(s, "if (") == Got((), s1) && ReadTest(s1, ") {") == Got(test, s2)
    ensures ReadIf(s) == ReadIfBody(test, s2)
  {
  }

  lemma IfBodyOf(test: Test, s: string, assign: (string, Expr), s1: string, found: bool, s2: string, s3: string)
    requires ReadAssign(s) == Got(assign, s1) && ReadReturn(s1) == Got(found, s2) && Token(s2, "}") == Got((), s3)
    ensures ReadIfBody(test, s) == Got((test, assign, found), s3)
  {
  }

  lemma IfHeadReads(rest: string)
    ensures ReadIf("\n" + (CODE_IF + rest)) == ReadIfBody(HIT_TEST, "\n" + rest)
  {
    var test := "*p->name" + (" " + ("==" + (" name" + (") {" + ("\n" + rest)))));
    IfText(rest);
    TokenReads("\n    ", "if (", test);
    HitReads("\n" + rest);
    IfOf("\n" + (CODE_IF + rest), test, HIT_TEST, "\n" + rest);
  }

  lemma IfBodyReads(rest: string)
    ensures ReadIfBody(HIT_TEST, "\n" + (CODE_ASSIGN + (CODE_FOUND + (CODE_END_IF + rest))))
         == Got((HIT_TEST, ("data", SOURCE), true), "\n" + rest)
  {
    var end := CODE_END_IF + rest;
    var found := CODE_FOUND + end;
    AssignReads(found);
    FoundReads(end);
    BracesRead(rest);
    IfBodyOf(
      HIT_TEST, "\n" + (CODE_ASSIGN + found), ("data", SOURCE), "\n" + found, true, "\n" + end, "\n" + rest);
  }

  lemma IfReads(rest: string)
    ensures ReadIf("\n" + (CODE_IF + (CODE_ASSIGN + (CODE_FOUND + (CODE_END_IF + rest)))))
         == Got((HIT_TEST, ("data", SOURCE), true), "\n" + rest)
  {
    IfHeadReads(CODE_ASSIGN + (CODE_FOUND + (CODE_END_IF + rest)));
    IfBodyReads(rest);
  }

  lemma BodyText(rest: string)
    ensures CODE_BODY + rest
         == CODE_FOR + (CODE_IF + (CODE_ASSIGN + (CODE_FOUND + (CODE_END_IF + (CODE_END_FOR + rest)))))
  {
    Nested6(CODE_FOR, CODE_IF, CODE_ASSIGN, CODE_FOUND, CODE_END_IF, CODE_END_FOR, rest);
  }

  lemma LoopReads(rest: string)
    ensures ReadLoop("\n" + (CODE_BODY + rest)) == Got(LOOKUP_LOOP, "\n" + rest)
  {
    var end := CODE_END_FOR + rest;
    BodyText(rest);
    ForReads(CODE_IF + (CODE_ASSIGN + (CODE_FOUND + (CODE_END_IF + end))));
    IfReads(end);
    BracesRead(rest);
  }

  lemma RoutineOf(s: string, params: (string, string), s1: string, cursor: string, s2: string)
    requires ReadSignature(s) == Got(params, s1)
    requires TokenThenWord(s1, "const struct embedded_file *", ";") == Got(cursor, s2)
    ensures ReadRoutine(s) == ReadBody(params, cursor, s2)
  {
  }

  lemma BodyOf(
      params: (string, string), cursor: string, s: string, loop: Loop, s1: string, missing: bool, s2: string,
      s3: string)
    requires ReadLoop(s) == Got(loop, s1) && ReadReturn(s1) == Got(missing, s2) && Token(s2, "}") == Got((), s3)
    ensures ReadBody(params, cursor, s) == Got(Routine(params.0, params.1, cursor, loop, missing), s3)
  {
  }

  lemma LookupText(rest: string)
    ensures LOOKUP_CODE + rest == CODE_SIGNATURE + (CODE_CURSOR + (CODE_BODY + (CODE_MISSING + (CODE_END + rest))))
  {
    Nested5(CODE_SIGNATURE, CODE_CURSOR, CODE_BODY, CODE_MISSING, CODE_END, rest);
  }

  lemma LinesRead(pad: string, rest: string, end: string, missing: string)
    requires Blank(pad) && end == CODE_END + rest && missing == CODE_MISSING + end
    ensures ReadRoutine(pad + (CODE_SIGNATURE + (CODE_CURSOR + (CODE_BODY + missing)))) == Got(LOOKUP, "\n" + rest)
  {
    var body := CODE_BODY + missing;
    var all := pad + (CODE_SIGNATURE + (CODE_CURSOR + body));
    SignatureReads(pad, CODE_CURSOR + body);
    CursorReads(body);
    LoopReads(missing);
    MissingReads(end);
    BracesRead(rest);
    RoutineOf(all, ("name", "data"), "\n" + (CODE_CURSOR + body), "p", "\n" + body);
    BodyOf(("name", "data"), "p", "\n" + body, LOOKUP_LOOP, "\n" + missing, false, "\n" + end, "\n" + rest);
  }

  /** The emitted function reads as `LOOKUP`. */
  lemma LookupReads(pad: string, rest: string)
    requires Blank(pad)
    ensures ReadRoutine(pad + (LOOKUP_CODE + rest)) == Got(LOOKUP, "\n" + rest)
  {
    LookupText(rest);
    LinesRead(pad, rest, CODE_END + rest, CODE_MISSING + (CODE_END + rest));
  }

  // --------------------------------------------------------------- running

  /** The null row is there, and every row before it is filled. */
  predicate Terminated(table: seq<TableRow>, end: nat) {
    && end < |table| && table[end].name == Null
    && forall i | 0 <= i < end :: table[i].name.To? && table[i].data.To?
  }

  /** What the emitted function does at a row. */
  lemma StepRuns(row: TableRow, name: string, data: string)
    ensures Meets(LOOKUP, Scene(name, data, row), LOOP_TEST) == Defined(row.name != Null)
    ensures row.name.To? ==> Meets(LOOKUP, Scene(name, data, row), HIT_TEST) == Defined(row.name.value == name)
    ensures row.data.To? ==> Eval(LOOKUP, Scene(name, data, row), SOURCE) == Defined(Text(row.data.value))
  {
  }

  /**
    A call finds the first row of that name, from row `p` on, and hands out its data. If
    there is none it says so and leaves the second argument alone.
   */
  ghost predicate FindsFirst(table: seq<TableRow>, end: nat, p: nat, name: string, data: string, call: Call)
    requires Terminated(table, end)
  {
    if call.found then
      exists i | p <= i < end ::
        && table[i].name.value == name && call.data == table[i].data.value
        && forall k | p <= k < i :: table[k].name.value != name
    else
      call.data == data && forall k | p <= k < end :: table[k].name.value != name
  }

  lemma {:induction false} WalkFinds(table: seq<TableRow>, end: nat, p: nat, name: string, data: string)
    requires Terminated(table, end) && p <= end
    ensures Walk(LOOKUP, table, p, name, data).Defined?
    ensures FindsFirst(table, end, p, name, data, Walk(LOOKUP, table, p, name, data).value)
    decreases end - p
  {
    StepRuns(table[p], name, data);
    if p < end && table[p].name.value != name {
      WalkFinds(table, end, p + 1, name, data);
      var call := Walk(LOOKUP, table, p + 1, name, data).value;
      if call.found {
        var i :| p + 1 <= i < end && table[i].name.value == name && call.data == table[i].data.value
                 && forall k | p + 1 <= k < i :: table[k].name.value != name;
        assert forall k | p <= k < i :: table[k].name.value != name;
      }
    }
  }

  lemma LookupDeclared()
    ensures Declared(LOOKUP)
  {
    assert "name"[0] != "data"[0] && |"p"| == 1;
  }

  /** On every table that ends with a null row, the emitted function is defined and finds the first row of the name. */
  lemma LookupRuns(table: seq<TableRow>, end: nat, name: string, data: string)
    requires Terminated(table, end)
    ensures Run(LOOKUP, table, name, data).Defined?
    ensures FindsFirst(table, end, 0, name, data, Run(LOOKUP, table, name, data).value)
  {
    LookupDeclared();
    WalkFinds(table, end, 0, name, data);
  }
}
