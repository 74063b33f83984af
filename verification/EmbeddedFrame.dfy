/**
  The fixed text around the files: the include guard at the start, and the lookup function
  and the end of the guard behind the table. What is read as the end of a header goes on
  to the end of the text and holds no bracket, so no table starts in it.
 */
module EmbeddedFrame {
  import opened CxxReader
  import opened LookupReader
  import opened Generator
  import opened EmbeddedData
  import opened HeaderReader
  import opened ListReading
  import opened EmbeddedLookup
  import opened ReaderSuffix

  // ------------------------------------------------------------ the start

  const GUARD := "TRANSLATION_FILES_H"

  lemma IfndefLine()
    ensures GUARD_IFNDEF == "#ifndef " + (GUARD + "\n")
  {
  }

  lemma DefineLine()
    ensures "\n" + GUARD_DEFINE == "\n#define " + (GUARD + "\n\n")
  {
  }

  lemma IncludeLine()
    ensures INCLUDE_STRING == "#include <string>\n" + "\n"
  {
  }

  lemma GuardIsIdent()
    ensures IsIdent(GUARD)
  {
  }

  lemma IfndefReads(rest: string)
    ensures Expect(GUARD_IFNDEF + rest, "#ifndef ") == Got((), GUARD + ("\n" + rest))
    ensures ReadIdent(GUARD + ("\n" + rest)) == Got(GUARD, "\n" + rest)
  {
    IfndefLine();
    Tail3("#ifndef ", GUARD, "\n", rest);
    ExpectReads("#ifndef ", GUARD + ("\n" + rest));
    GuardIsIdent();
    assert ("\n" + rest)[0] == '\n';
    IdentReads(GUARD, "\n" + rest);
  }

  lemma DefineReads(rest: string)
    ensures Expect("\n" + (GUARD_DEFINE + rest), "\n#define ") == Got((), GUARD + ("\n\n" + rest))
    ensures ReadIdent(GUARD + ("\n\n" + rest)) == Got(GUARD, "\n\n" + rest)
  {
    DefineLine();
    Assoc("\n", GUARD_DEFINE, rest);
    Tail3("\n#define ", GUARD, "\n\n", rest);
    ExpectReads("\n#define ", GUARD + ("\n\n" + rest));
    GuardIsIdent();
    assert ("\n\n" + rest)[0] == '\n';
    IdentReads(GUARD, "\n\n" + rest);
  }

  lemma IncludeReads(rest: string)
    requires Solid(rest)
    ensures Token("\n\n" + (INCLUDE_STRING + rest), "#include <string>\n") == Got((), "\n" + rest)
    ensures SkipSpace("\n" + rest) == rest
  {
    IncludeLine();
    Assoc("#include <string>\n", "\n", rest);
    TokenReads("\n\n", "#include <string>\n", "\n" + rest);
    SkipsTo("\n", rest);
  }

  lemma StartReads(rest: string)
    requires Solid(rest)
    ensures ReadStart(PROLOGUE + rest) == Got((), rest)
  {
    var s := INCLUDE_STRING + rest;
    Assoc(GUARD_IFNDEF + GUARD_DEFINE, INCLUDE_STRING, rest);
    Assoc(GUARD_IFNDEF, GUARD_DEFINE, s);
    IfndefReads(GUARD_DEFINE + s);
    DefineReads(s);
    IncludeReads(rest);
  }

  // -------------------------------------------------------------- the end

  lemma EndifLine()
    ensures "\n" + GUARD_END == "\n" + ("#endif /*" + (" " + (GUARD + (" " + ("*/" + "\n")))))
  {
  }

  lemma EndifReads()
    ensures TokenThenWord("\n" + ("\n" + GUARD_END), "#endif /*", "*/") == Got(GUARD, "\n")
  {
    EndifLine();
    Assoc("\n", "\n", "#endif /*" + (" " + (GUARD + (" " + ("*/" + "\n")))));
    GuardIsIdent();
    assert (" " + ("*/" + "\n"))[0] == ' ';
    TokenThenWordReads("\n" + "\n", "#endif /*", " ", GUARD, " ", "*/", "\n");
  }

  lemma SkipsAll()
    ensures SkipSpace("\n") == ""
  {
    SpanOf(IsSpace, "\n", 1);
  }

  lemma EndOf(s: string, s1: string, routine: Routine, s2: string)
    requires Expect(s, "};") == Got((), s1) && ReadRoutine(s1) == Got(routine, s2)
    ensures ReadEnd(s) == ReadEndif(routine, s2)
  {
  }

  lemma BlankLine()
    ensures Blank("\n\n")
  {
  }

  lemma EndReads()
    ensures ReadEnd(EPILOGUE) == Got(LOOKUP, "")
  {
    var rest := "\n" + GUARD_END;
    var code := "\n\n" + (LOOKUP_CODE + rest);
    BlankLine();
    EpilogueText();
    ExpectReads("};", code);
    LookupReads("\n\n", rest);
    EndOf(EPILOGUE, code, LOOKUP, "\n" + rest);
    EndifReads();
    SkipsAll();
  }

  lemma EpilogueText()
    ensures EPILOGUE == "};" + ("\n\n" + (LOOKUP_CODE + ("\n" + GUARD_END)))
  {
    assert TABLE_CLOSE == "};" + "\n\n";
    Assoc(TABLE_CLOSE + LOOKUP_CODE, "\n", GUARD_END);
    Assoc(TABLE_CLOSE, LOOKUP_CODE, "\n" + GUARD_END);
    Assoc("};", "\n\n", LOOKUP_CODE + ("\n" + GUARD_END));
  }

  // ------------------------------------------- what is not in the end

  /** The reader takes no opening bracket. */
  const BRACKET: set<char> := {'['}

  lemma LoopTokens()
    ensures '[' !in "for (" && '[' !in "= embedded_files;" && '[' !in "++) {" && '[' !in "if (" && '[' !in ") {"
    ensures '[' !in "==" && '[' !in "!=" && '[' !in "*" && '[' !in "="
  {
  }

  lemma OtherTokens()
    ensures '[' !in "return" && '[' !in ";" && '[' !in "}" && '[' !in "};" && '[' !in "#endif /*" && '[' !in "*/"
    ensures '[' !in "const std::string &" && '[' !in ", std::string &" && '[' !in "const struct embedded_file *"
  {
  }

  lemma ArrowToken()
    ensures forall ch | ch in "->" :: ch !in BRACKET
    ensures forall ch | ch in "};" :: ch !in BRACKET
  {
  }

  lemma SignatureToken()
    ensures '[' !in SIGNATURE_TEXT
  {
  }

  lemma TokenPasses(s: string, token: string)
    requires Token(s, token).Got? && '[' !in token
    ensures Passes(s, Token(s, token).rest, BRACKET)
  {
    SkipPasses(s, BRACKET);
    ExpectPasses(SkipSpace(s), token, BRACKET);
    PassesOn(s, SkipSpace(s), Token(s, token).rest, BRACKET);
  }

  lemma WordPasses(s: string)
    requires Word(s).Got?
    ensures Passes(s, Word(s).rest, BRACKET)
  {
    SkipPasses(s, BRACKET);
    IdentPasses(SkipSpace(s), BRACKET);
    PassesOn(s, SkipSpace(s), Word(s).rest, BRACKET);
  }

  lemma WordThenPasses(s: string, token: string)
    requires WordThen(s, token).Got? && '[' !in token
    ensures Passes(s, WordThen(s, token).rest, BRACKET)
  {
    var s1 := Word(s).rest;
    WordPasses(s);
    TokenPasses(s1, token);
    PassesOn(s, s1, Token(s1, token).rest, BRACKET);
  }

  lemma TokenThenWordPasses(s: string, before: string, after: string)
    requires TokenThenWord(s, before, after).Got? && '[' !in before && '[' !in after
    ensures Passes(s, TokenThenWord(s, before, after).rest, BRACKET)
  {
    var s1 := Token(s, before).rest;
    TokenPasses(s, before);
    WordThenPasses(s1, after);
    PassesOn(s, s1, WordThen(s1, after).rest, BRACKET);
  }

  lemma FieldPasses(s: string)
    requires Expect(s, "->").Got? && ReadIdent(Expect(s, "->").rest).Got?
    ensures Passes(s, ReadIdent(Expect(s, "->").rest).rest, BRACKET)
  {
    var s1 := Expect(s, "->").rest;
    ArrowToken();
    ExpectPasses(s, "->", BRACKET);
    IdentPasses(s1, BRACKET);
    PassesOn(s, s1, ReadIdent(s1).rest, BRACKET);
  }

  lemma PlacePasses(s: string)
    requires ReadPlace(s).Got?
    ensures Passes(s, ReadPlace(s).rest, BRACKET)
  {
    var s1 := Word(s).rest;
    WordPasses(s);
    if Expect(s1, "->").Got? {
      FieldPasses(s1);
      PassesOn(s, s1, ReadIdent(Expect(s1, "->").rest).rest, BRACKET);
    }
  }

  lemma ExprPasses(s: string)
    requires ReadExpr(s).Got?
    ensures Passes(s, ReadExpr(s).rest, BRACKET)
  {
    LoopTokens();
    if Token(s, "*").Got? {
      var s1 := Token(s, "*").rest;
      TokenPasses(s, "*");
      PlacePasses(s1);
      PassesOn(s, s1, ReadPlace(s1).rest, BRACKET);
    } else {
      PlacePasses(s);
    }
  }

  lemma ExprThenPasses(s: string, token: string)
    requires ReadExprThen(s, token).Got? && '[' !in token
    ensures Passes(s, ReadExprThen(s, token).rest, BRACKET)
  {
    var s1 := ReadExpr(s).rest;
    ExprPasses(s);
    TokenPasses(s1, token);
    PassesOn(s, s1, Token(s1, token).rest, BRACKET);
  }

  lemma TestEndPasses(left: Expr, equal: bool, s: string, after: string)
    requires ReadTestEnd(left, equal, s, after).Got? && '[' !in after
    ensures Passes(s, ReadTestEnd(left, equal, s, after).rest, BRACKET)
  {
    ExprThenPasses(s, after);
  }

  lemma TestPasses(s: string, after: string)
    requires ReadTest(s, after).Got? && '[' !in after
    ensures Passes(s, ReadTest(s, after).rest, BRACKET)
  {
    LoopTokens();
    var left, s1 := ReadExpr(s).value, ReadExpr(s).rest;
    ExprPasses(s);
    var equal := Token(s1, "==").Got?;
    var sign := if equal then "==" else "!=";
    var s2 := Token(s1, sign).rest;
    TokenPasses(s1, sign);
    PassesOn(s, s1, s2, BRACKET);
    TestEndPasses(left, equal, s2, after);
    PassesOn(s, s2, ReadTestEnd(left, equal, s2, after).rest, BRACKET);
  }

  lemma ReturnPasses(s: string)
    requires ReadReturn(s).Got?
    ensures Passes(s, ReadReturn(s).rest, BRACKET)
  {
    OtherTokens();
    TokenThenWordPasses(s, "return", ";");
  }

  lemma ForPasses(s: string)
    requires ReadFor(s).Got?
    ensures Passes(s, ReadFor(s).rest, BRACKET)
  {
    OtherTokens();
    LoopTokens();
    var s1 := TokenThenWord(s, "for (", "= embedded_files;").rest;
    var s2 := ReadTest(s1, ";").rest;
    TokenThenWordPasses(s, "for (", "= embedded_files;");
    TestPasses(s1, ";");
    PassesOn(s, s1, s2, BRACKET);
    WordThenPasses(s2, "++) {");
    PassesOn(s, s2, WordThen(s2, "++) {").rest, BRACKET);
  }

  lemma AssignPasses(s: string)
    requires ReadAssign(s).Got?
    ensures Passes(s, ReadAssign(s).rest, BRACKET)
  {
    OtherTokens();
    LoopTokens();
    var s1 := WordThen(s, "=").rest;
    WordThenPasses(s, "=");
    ExprThenPasses(s1, ";");
    PassesOn(s, s1, ReadExprThen(s1, ";").rest, BRACKET);
  }

  lemma IfBodyPasses(test: Test, s: string)
    requires ReadIfBody(test, s).Got?
    ensures Passes(s, ReadIfBody(test, s).rest, BRACKET)
  {
    OtherTokens();
    var s1 := ReadAssign(s).rest;
    var s2 := ReadReturn(s1).rest;
    AssignPasses(s);
    ReturnPasses(s1);
    PassesOn(s, s1, s2, BRACKET);
    TokenPasses(s2, "}");
    PassesOn(s, s2, Token(s2, "}").rest, BRACKET);
  }

  lemma IfPasses(s: string)
    requires ReadIf(s).Got?
    ensures Passes(s, ReadIf(s).rest, BRACKET)
  {
    LoopTokens();
    var s1 := Token(s, "if (").rest;
    var test, s2 := ReadTest(s1, ") {").value, ReadTest(s1, ") {").rest;
    TokenPasses(s, "if (");
    TestPasses(s1, ") {");
    PassesOn(s, s1, s2, BRACKET);
    IfBodyPasses(test, s2);
    PassesOn(s, s2, ReadIfBody(test, s2).rest, BRACKET);
  }

  lemma LoopPasses(s: string)
    requires ReadLoop(s).Got?
    ensures Passes(s, ReadLoop(s).rest, BRACKET)
  {
    OtherTokens();
    var s1 := ReadFor(s).rest;
    var s2 := ReadIf(s1).rest;
    ForPasses(s);
    IfPasses(s1);
    PassesOn(s, s1, s2, BRACKET);
    TokenPasses(s2, "}");
    PassesOn(s, s2, Token(s2, "}").rest, BRACKET);
  }

  lemma BodyPasses(params: (string, string), cursor: string, s: string)
    requires ReadBody(params, cursor, s).Got?
    ensures Passes(s, ReadBody(params, cursor, s).rest, BRACKET)
  {
    OtherTokens();
    var s1 := ReadLoop(s).rest;
    var s2 := ReadReturn(s1).rest;
    LoopPasses(s);
    ReturnPasses(s1);
    PassesOn(s, s1, s2, BRACKET);
    TokenPasses(s2, "}");
    PassesOn(s, s2, Token(s2, "}").rest, BRACKET);
  }

  lemma ParamsPass(s: string)
    requires ReadParams(s).Got?
    ensures Passes(s, ReadParams(s).rest, BRACKET)
  {
    LoopTokens();
    OtherTokens();
    var s1 := TokenThenWord(s, "const std::string &", ", std::string &").rest;
    TokenThenWordPasses(s, "const std::string &", ", std::string &");
    WordThenPasses(s1, ") {");
    PassesOn(s, s1, WordThen(s1, ") {").rest, BRACKET);
  }

  lemma SignaturePasses(s: string)
    requires ReadSignature(s).Got?
    ensures Passes(s, ReadSignature(s).rest, BRACKET)
  {
    SignatureToken();
    var s1 := Token(s, SIGNATURE_TEXT).rest;
    TokenPasses(s, SIGNATURE_TEXT);
    ParamsPass(s1);
    PassesOn(s, s1, ReadParams(s1).rest, BRACKET);
  }

  lemma RoutinePasses(s: string)
    requires ReadRoutine(s).Got?
    ensures Passes(s, ReadRoutine(s).rest, BRACKET)
  {
    OtherTokens();
    var params, s1 := ReadSignature(s).value, ReadSignature(s).rest;
    var cursor := TokenThenWord(s1, "const struct embedded_file *", ";");
    SignaturePasses(s);
    TokenThenWordPasses(s1, "const struct embedded_file *", ";");
    PassesOn(s, s1, cursor.rest, BRACKET);
    BodyPasses(params, cursor.value, cursor.rest);
    PassesOn(s, cursor.rest, ReadRoutine(s).rest, BRACKET);
  }

  lemma EndifPasses(routine: Routine, s: string)
    requires ReadEndif(routine, s).Got?
    ensures Passes(s, "", BRACKET) && ReadEndif(routine, s).rest == ""
  {
    OtherTokens();
    var s1 := TokenThenWord(s, "#endif /*", "*/").rest;
    TokenThenWordPasses(s, "#endif /*", "*/");
    SkipPasses(s1, BRACKET);
    PassesOn(s, s1, "", BRACKET);
  }

  /** What is read as the end of a header is all of the text, and there is no bracket in it. */
  lemma EndPasses(s: string)
    requires ReadEnd(s).Got?
    ensures Passes(s, "", BRACKET) && ReadEnd(s).rest == ""
  {
    ArrowToken();
    var s1 := Expect(s, "};").rest;
    var routine, s2 := ReadRoutine(s1).value, ReadRoutine(s1).rest;
    ExpectPasses(s, "};", BRACKET);
    RoutinePasses(s1);
    PassesOn(s, s1, s2, BRACKET);
    EndifPasses(routine, s2);
    PassesOn(s, s2, "", BRACKET);
  }
}
