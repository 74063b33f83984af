/**
  What a reader leaves is the end of what it was given. `Passes` says so, and that none
  of the characters it took are among some given ones.
 */
module ReaderSuffix {
  import opened CxxReader

  ghost predicate Passes(s: string, rest: string, avoid: set<char>) {
    && |rest| <= |s| && s[|s| - |rest|..] == rest
    && forall i | 0 <= i < |s| - |rest| :: s[i] !in avoid
  }

  lemma PassesOn(s: string, s1: string, s2: string, avoid: set<char>)
    requires Passes(s, s1, avoid) && Passes(s1, s2, avoid)
    ensures Passes(s, s2, avoid)
  {
    var n, m := |s| - |s1|, |s| - |s2|;
    assert s1 == s[n..];
    assert s[m..] == s1[m - n..];
    forall i | 0 <= i < m ensures s[i] !in avoid {
      if i >= n {
        assert s[i] == s1[i - n];
      }
    }
  }

  lemma PassesNothing(s: string, avoid: set<char>)
    ensures Passes(s, s, avoid)
  {
    assert s[0..] == s;
  }

  lemma SkipPasses(s: string, avoid: set<char>)
    requires forall ch | ch in avoid :: !IsSpace(ch)
    ensures Passes(s, SkipSpace(s), avoid)
  {
  }

  lemma ExpectPasses(s: string, token: string, avoid: set<char>)
    requires Expect(s, token).Got? && forall ch | ch in token :: ch !in avoid
    ensures Passes(s, Expect(s, token).rest, avoid)
  {
    assert forall i | 0 <= i < |token| :: s[i] == token[i] && token[i] in token;
  }

  lemma IdentPasses(s: string, avoid: set<char>)
    requires ReadIdent(s).Got? && forall ch | ch in avoid :: !IsIdentChar(ch)
    ensures Passes(s, ReadIdent(s).rest, avoid)
  {
  }

  /** A list whose items each pass passes. */
  lemma {:induction false} ListPasses<T>(open: string, read: string -> Read<T>, s: string, avoid: set<char>)
    requires forall s | read(s).Got? :: Passes(s, read(s).rest, avoid)
    requires forall ch | ch in avoid :: !IsSpace(ch)
    requires ReadList(open, read, s).Got?
    ensures Passes(s, ReadList(open, read, s).rest, avoid)
    decreases |s|
  {
    if Expect(s, open).Fail? {
      PassesNothing(s, avoid);
    } else {
      var rest := read(s).rest;
      var next := SkipSpace(rest);
      SkipPasses(rest, avoid);
      PassesOn(s, rest, next, avoid);
      ListPasses(open, read, next, avoid);
      PassesOn(s, next, ReadList(open, read, s).rest, avoid);
    }
  }

  // ------------------------------------------------------------- strings

  lemma EscapePasses(s: string)
    requires ReadEscape(s).Got?
    ensures Passes(s, ReadEscape(s).rest, {}) && |ReadEscape(s).rest| < |s|
  {
    if s[0] == 'x' {
      var n := Span(IsHexDigit, s[1..]);
      assert s[1..][n..] == s[n + 1..];
    }
  }

  lemma {:induction false} LiteralPasses(s: string)
    requires ReadLiteral(s).Got?
    ensures Passes(s, ReadLiteral(s).rest, {})
    decreases |s|
  {
    if s[0] == '\"' {
    } else if s[0] == '\\' {
      EscapePasses(s[1..]);
      var rest := ReadEscape(s[1..]).rest;
      LiteralPasses(rest);
      PassesOn(s, s[1..], rest, {});
      PassesOn(s, rest, ReadLiteral(rest).rest, {});
    } else {
      LiteralPasses(s[1..]);
      PassesOn(s, s[1..], ReadLiteral(s[1..]).rest, {});
    }
  }

  lemma {:induction false} LiteralsPass(s: string)
    requires ReadLiterals(s).Got?
    ensures Passes(s, ReadLiterals(s).rest, {})
    decreases |s|
  {
    LiteralPasses(s[1..]);
    LiteralConsumes(s[1..]);
    var rest := ReadLiteral(s[1..]).rest;
    PassesOn(s, s[1..], rest, {});
    var next := SkipSpace(rest);
    if next != [] && next[0] == '\"' {
      SkipPasses(rest, {});
      PassesOn(s, rest, next, {});
      LiteralsPass(next);
      PassesOn(s, next, ReadLiterals(next).rest, {});
    }
  }

  lemma DecimalPasses(s: string)
    requires ReadDecimal(s).Got?
    ensures Passes(s, ReadDecimal(s).rest, {})
  {
  }

  lemma SizePasses(value: string, s: string)
    requires ReadSize(value, s).Got?
    ensures Passes(s, ReadSize(value, s).rest, {})
  {
    var s1 := Expect(s, ",").rest;
    var s2 := SkipSpace(s1);
    var s3 := ReadDecimal(s2).rest;
    ExpectPasses(s, ",", {});
    SkipPasses(s1, {});
    PassesOn(s, s1, s2, {});
    DecimalPasses(s2);
    PassesOn(s, s2, s3, {});
    ExpectPasses(s3, ")", {});
    PassesOn(s, s3, Expect(s3, ")").rest, {});
  }

  lemma StringPasses(s: string)
    requires ReadString(s).Got?
    ensures Passes(s, ReadString(s).rest, {})
  {
    var sized := Expect(s, "std::string(");
    if sized.Got? {
      var s1 := sized.rest;
      var s2 := SkipSpace(s1);
      var s3 := ReadLiterals(s2).rest;
      SkipPasses(s1, {});
      PassesOn(s, s1, s2, {});
      LiteralsPass(s2);
      PassesOn(s, s2, s3, {});
      SizePasses(ReadLiterals(s2).value, s3);
      PassesOn(s, s3, ReadString(s).rest, {});
    } else {
      LiteralsPass(s);
    }
  }
}
