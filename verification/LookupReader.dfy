/**
  A reader for the lookup function of a header, and what a function of that shape does
  when it is called. The names, the tests, the assignment and the results are read from
  the text; nothing in here is shared with the program that writes it.
 */
module LookupReader {
  import opened CxxReader

  // ------------------------------------------------------- the syntax tree

  datatype Expr =
    | NullLiteral
    | Variable(name: string)
    | Field(pointer: string, field: string)
    | Deref(inner: Expr)

  datatype Test = Test(left: Expr, equal: bool, right: Expr)

  /**
    A function of two references, a constant one and one for the result, with a pointer
    that a loop moves along the table, an assignment under a condition, and two results.
   */
  datatype Routine = Routine(key: string, result: string, cursor: string, loop: Loop, missing: bool)

  /** `for (start = embedded_files; test; step++) { if (hit) { target = source; return found; } }` */
  datatype Loop = Loop(
    start: string, test: Test, step: string, hit: Test, target: string, source: Expr, found: bool)

  // --------------------------------------------------------------- reading

  /** The next token, after white space. */
  function Token(s: string, token: string): Read<()> {
    Expect(SkipSpace(s), token)
  }

  function Word(s: string): Read<string> {
    ReadIdent(SkipSpace(s))
  }

  /** An identifier with a token after it. */
  function WordThen(s: string, token: string): Read<string> {
    match Word(s)
    case Fail => Fail
    case Got(word, s1) =>
      match Token(s1, token)
      case Fail => Fail
      case Got(_, s2) => Got(word, s2)
  }

  /** An identifier between two tokens. */
  function TokenThenWord(s: string, before: string, after: string): Read<string> {
    match Token(s, before)
    case Fail => Fail
    case Got(_, s1) => WordThen(s1, after)
  }

  /** `NULL`, `variable` or `pointer->field`. */
  function ReadPlace(s: string): Read<Expr> {
    match Word(s)
    case Fail => Fail
    case Got(name, s1) =>
      match Expect(s1, "->")
      case Fail => Got(if name == "NULL" then NullLiteral else Variable(name), s1)
      case Got(_, s2) =>
        match ReadIdent(s2)
        case Fail => Fail
        case Got(field, s3) => Got(Field(name, field), s3)
  }

  /** The same, or what it points to. */
  function ReadExpr(s: string): Read<Expr> {
    match Token(s, "*")
    case Fail => ReadPlace(s)
    case Got(_, s1) =>
      match ReadPlace(s1)
      case Fail => Fail
      case Got(inner, s2) => Got(Deref(inner), s2)
  }

  function ReadExprThen(s: string, token: string): Read<Expr> {
    match ReadExpr(s)
    case Fail => Fail
    case Got(expr, s1) =>
      match Token(s1, token)
      case Fail => Fail
      case Got(_, s2) => Got(expr, s2)
  }

  function ReadTest(s: string, after: string): Read<Test> {
    match ReadExpr(s)
    case Fail => Fail
    case Got(left, s1) =>
      if Token(s1, "==").Got? then ReadTestEnd(left, true, Token(s1, "==").rest, after)
      else if Token(s1, "!=").Got? then ReadTestEnd(left, false, Token(s1, "!=").rest, after)
      else Fail
  }

  function ReadTestEnd(left: Expr, equal: bool, s: string, after: string): Read<Test> {
    match ReadExprThen(s, after)
    case Fail => Fail
    case Got(right, s1) => Got(Test(left, equal, right), s1)
  }

  /** `return true;` or `return false;` */
  function ReadReturn(s: string): Read<bool> {
    match TokenThenWord(s, "return", ";")
    case Fail => Fail
    case Got(word, s1) => if word == "true" then Got(true, s1) else if word == "false" then Got(false, s1) else Fail
  }

  /** `for (start = embedded_files; test; step++) {` */
  function ReadFor(s: string): Read<(string, Test, string)> {
    match TokenThenWord(s, "for (", "= embedded_files;")
    case Fail => Fail
    case Got(start, s1) =>
      match ReadTest(s1, ";")
      case Fail => Fail
      case Got(test, s2) =>
        match WordThen(s2, "++) {")
        case Fail => Fail
        case Got(step, s3) => Got((start, test, step), s3)
  }

  /** `target = source;` */
  function ReadAssign(s: string): Read<(string, Expr)> {
    match WordThen(s, "=")
    case Fail => Fail
    case Got(target, s1) =>
      match ReadExprThen(s1, ";")
      case Fail => Fail
      case Got(source, s2) => Got((target, source), s2)
  }

  /** `if (hit) { target = source; return found; }` */
  function ReadIf(s: string): Read<(Test, (string, Expr), bool)> {
    match Token(s, "if (")
    case Fail => Fail
    case Got(_, s1) =>
      match ReadTest(s1, ") {")
      case Fail => Fail
      case Got(test, s2) => ReadIfBody(test, s2)
  }

  function ReadIfBody(test: Test, s: string): Read<(Test, (string, Expr), bool)> {
    match ReadAssign(s)
    case Fail => Fail
    case Got(assign, s1) =>
      match ReadReturn(s1)
      case Fail => Fail
      case Got(found, s2) =>
        match Token(s2, "}")
        case Fail => Fail
        case Got(_, s3) => Got((test, assign, found), s3)
  }

  function ReadLoop(s: string): Read<Loop> {
    match ReadFor(s)
    case Fail => Fail
    case Got(head, s1) =>
      match ReadIf(s1)
      case Fail => Fail
      case Got(body, s2) =>
        match Token(s2, "}")
        case Fail => Fail
        case Got(_, s3) => Got(Loop(head.0, head.1, head.2, body.0, body.1.0, body.1.1, body.2), s3)
  }

  /** The names of the two parameters. */
  function ReadSignature(s: string): Read<(string, string)> {
    match Token(s, "static bool find_embedded_file(")
    case Fail => Fail
    case Got(_, s1) => ReadParams(s1)
  }

  function ReadParams(s: string): Read<(string, string)> {
    match TokenThenWord(s, "const std::string &", ", std::string &")
    case Fail => Fail
    case Got(key, s1) =>
      match WordThen(s1, ") {")
      case Fail => Fail
      case Got(result, s2) => Got((key, result), s2)
  }

  /** The loop and what comes after it. */
  function ReadBody(params: (string, string), cursor: string, s: string): Read<Routine> {
    match ReadLoop(s)
    case Fail => Fail
    case Got(loop, s1) =>
      match ReadReturn(s1)
      case Fail => Fail
      case Got(missing, s2) =>
        match Token(s2, "}")
        case Fail => Fail
        case Got(_, s3) => Got(Routine(params.0, params.1, cursor, loop, missing), s3)
  }

  /** The whole function. */
  function ReadRoutine(s: string): Read<Routine> {
    match ReadSignature(s)
    case Fail => Fail
    case Got(params, s1) =>
      match TokenThenWord(s1, "const struct embedded_file *", ";")
      case Fail => Fail
      case Got(cursor, s2) => ReadBody(params, cursor, s2)
  }

  // --------------------------------------------------------------- running

  datatype Pointer = Null | To(value: string)

  /** An `embedded_file`. */
  datatype TableRow = TableRow(name: Pointer, data: Pointer)

  datatype Value = Address(pointer: Pointer) | Text(text: string)

  datatype Maybe<T> = Undefined | Defined(value: T)

  /** What a call sees: the two arguments and the row that the pointer has come to. */
  datatype Scene = Scene(name: string, data: string, row: TableRow)

  function FieldOf(row: TableRow, field: string): Maybe<Value> {
    if field == "name" then Defined(Address(row.name))
    else if field == "data" then Defined(Address(row.data))
    else Undefined
  }

  function Eval(r: Routine, scene: Scene, e: Expr): Maybe<Value> {
    match e
    case NullLiteral => Defined(Address(Null))
    case Variable(name) =>
      if name == r.key then Defined(Text(scene.name))
      else if name == r.result then Defined(Text(scene.data))
      else Undefined
    case Field(pointer, field) => if pointer == r.cursor then FieldOf(scene.row, field) else Undefined
    case Deref(inner) =>
      match Eval(r, scene, inner)
      case Defined(Address(To(value))) => Defined(Text(value))
      case _ => Undefined
  }

  /** Texts compare as texts; a pointer may be compared with the null pointer. */
  function Equal(a: Value, b: Value): Maybe<bool> {
    match (a, b)
    case (Text(x), Text(y)) => Defined(x == y)
    case (Address(p), Address(Null)) => Defined(p == Null)
    case (Address(Null), Address(p)) => Defined(p == Null)
    case _ => Undefined
  }

  function Meets(r: Routine, scene: Scene, test: Test): Maybe<bool> {
    match (Eval(r, scene, test.left), Eval(r, scene, test.right))
    case (Defined(a), Defined(b)) =>
      (match Equal(a, b)
       case Undefined => Undefined
       case Defined(equal) => Defined(equal == test.equal))
    case _ => Undefined
  }

  /** The result of a call, and what it leaves in the second argument. */
  datatype Call = Call(found: bool, data: string)

  /** The walk from row `p` on. Behind the end of the table nothing is defined. */
  function Walk(r: Routine, table: seq<TableRow>, p: nat, name: string, data: string): Maybe<Call>
    decreases |table| - p
  {
    if p >= |table| then Undefined
    else
      var scene := Scene(name, data, table[p]);
      match Meets(r, scene, r.loop.test)
      case Undefined => Undefined
      case Defined(false) => Defined(Call(r.missing, data))
      case Defined(true) =>
        match Meets(r, scene, r.loop.hit)
        case Undefined => Undefined
        case Defined(false) => Walk(r, table, p + 1, name, data)
        case Defined(true) =>
          match Eval(r, scene, r.loop.source)
          case Defined(Text(text)) => Defined(Call(r.loop.found, text))
          case _ => Undefined
  }

  /** Every name is declared once and used for what it stands for. */
  predicate Declared(r: Routine) {
    && r.key != r.result && r.key != r.cursor && r.result != r.cursor
    && r.loop.start == r.cursor && r.loop.step == r.cursor && r.loop.target == r.result
  }

  /** A call of the function that was read. */
  function Run(r: Routine, table: seq<TableRow>, name: string, data: string): Maybe<Call> {
    if Declared(r) then Walk(r, table, 0, name, data) else Undefined
  }
}
