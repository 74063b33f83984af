/**
  File names go into the header between quotes as they are. They read back exactly
  when they hold none of the characters that mean something else there.
 */
module EmbeddedNames {
  import opened CxxReader
  import opened EmbeddedData

  predicate PlainChar(c: char) {
    c != '\"' && c != '\\' && c != '\n' && c != '\0'
  }

  predicate Plain(name: string) {
    forall i | 0 <= i < |name| :: PlainChar(name[i])
  }

  lemma {:induction false} PlainReads(name: string, rest: string)
    requires Plain(name)
    ensures ReadLiteral(name + (QUOTE + rest)) == Got(name, rest)
  {
    if name == [] {
      assert name + (QUOTE + rest) == QUOTE + rest;
      assert (QUOTE + rest)[1..] == rest;
    } else {
      var s := name + (QUOTE + rest);
      assert s[0] == name[0] && s[1..] == name[1..] + (QUOTE + rest);
      PlainReads(name[1..], rest);
      assert [name[0]] + name[1..] == name;
    }
  }

  /** No special character of a literal is among these. */
  predicate Unescaped(value: string) {
    forall i | 0 <= i < |value| :: value[i] != '\"' && value[i] != '\\' && value[i] != '\n'
  }

  /** A literal is longer than its value; it is longer by the quote alone only if nothing in it is special. */
  lemma {:induction false} LiteralLength(s: string)
    requires ReadLiteral(s).Got?
    ensures |ReadLiteral(s).value| + 1 <= |s| - |ReadLiteral(s).rest|
    ensures |ReadLiteral(s).value| + 1 == |s| - |ReadLiteral(s).rest| ==> Unescaped(ReadLiteral(s).value)
    decreases |s|
  {
    if s[0] == '\"' {
    } else if s[0] == '\\' {
      EscapeConsumes(s[1..]);
      LiteralLength(ReadEscape(s[1..]).rest);
    } else {
      LiteralLength(s[1..]);
      var v := ReadLiteral(s[1..]).value;
      assert forall i | 0 < i <= |v| :: ([s[0]] + v)[i] == v[i - 1];
    }
  }

  lemma {:induction false} LiteralsLength(s: string)
    requires ReadLiterals(s).Got?
    ensures |ReadLiterals(s).value| + 2 <= |s| - |ReadLiterals(s).rest|
    ensures |ReadLiterals(s).value| + 2 == |s| - |ReadLiterals(s).rest| ==> Unescaped(ReadLiterals(s).value)
    decreases |s|
  {
    LiteralLength(s[1..]);
    var next := SkipSpace(ReadLiteral(s[1..]).rest);
    if next != [] && next[0] == '\"' {
      LiteralsLength(next);
    }
  }

  lemma CStringOf(value: string)
    ensures |CString(value)| <= |value|
    ensures |CString(value)| == |value| ==> CString(value) == value && forall i | 0 <= i < |value| :: value[i] != '\0'
    ensures (forall i | 0 <= i < |value| :: value[i] != '\0') ==> CString(value) == value
  {
    var n := Span(c => c != '\0', value);
    assert n == |value| ==> value[..n] == value;
  }

  /** A quoted text does not start like `std::string(`. */
  lemma QuotedIsLiterals(s: string)
    ensures Expect(QUOTE + s, "std::string(") == Fail
  {
    assert (QUOTE + s)[0] == '\"' && "std::string("[0] == 's';
  }

  /** A name reads back from its definition exactly when it is plain. */
  lemma NameReadsBackIff(name: string, rest: string)
    requires EndsLiterals(rest)
    ensures ReadString(QUOTE + (name + (QUOTE + rest))) == Got(name, rest) <==> Plain(name)
  {
    var s := QUOTE + (name + (QUOTE + rest));
    QuotedIsLiterals(name + (QUOTE + rest));
    assert s[0] == '\"' && s[1..] == name + (QUOTE + rest);
    if Plain(name) {
      PlainReads(name, rest);
      CStringOf(name);
    }
    if ReadString(s) == Got(name, rest) {
      LiteralsLength(s);
      CStringOf(ReadLiterals(s).value);
    }
  }
}
