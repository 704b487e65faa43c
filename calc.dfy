/** The calculator of main.c: a lexer, a precedence parser, a direct
    evaluator, a compiler to a small postfix byte code and the stack
    machine that runs it.

    Lines are C strings: a character past the end of the text reads as
    the terminating NUL.  The variable environment holds 26 ints, one per
    lowercase letter. */
module Calc {
  import opened Wrappers
  import opened Bytes

  //============================================================
  // Lexer
  //============================================================

  datatype Token = LParen | RParen | IntTok(value: int) | SymTok(name: string)

  /** The diagnostic for a character no token starts with. */
  function LexError(c: char): string
  {
    "Lex Error: Unexpected character " + [c] + "."
  }

  /** The character at `i` of a C string: NUL past the end. */
  function At(s: string, i: nat): char
  {
    if i < |s| then s[i] else '\0'
  }

  /** num_chars, sym_chars and op_chars of init_lex_tables. */
  predicate IsNumChar(c: char)
  {
    '0' <= c <= '9'
  }

  predicate IsSymChar(c: char)
  {
    'a' <= c <= 'z' || 'A' <= c <= 'Z' || '0' <= c <= '9' || c == '_'
  }

  predicate IsOpChar(c: char)
  {
    c == '-' || c == '+' || c == '*' || c == '/' || c == '='
  }

  datatype CharClass = Digits | SymChars

  predicate InClass(c: char, k: CharClass)
  {
    match k
    case Digits => IsNumChar(c)
    case SymChars => IsSymChar(c)
  }

  /** Where the run of class-`k` characters starting at `i` ends. */
  function Span(s: string, i: nat, k: CharClass): (r: nat)
    requires i <= |s|
    ensures i <= r <= |s| && !InClass(At(s, r), k)
    ensures forall j :: i <= j < r ==> InClass(s[j], k)
    decreases |s| - i
  {
    if InClass(At(s, i), k) then Span(s, i + 1, k) else i
  }

  /** The value of a run of decimal digits. */
  function DigitsValue(ds: string): int
    requires forall k :: 0 <= k < |ds| ==> IsNumChar(ds[k])
  {
    if ds == [] then 0 else 10 * DigitsValue(ds[..|ds| - 1]) + (ds[|ds| - 1] as int - '0' as int)
  }

  /** parse_int on the text of a number token: digits, with a leading
      minus sign for a negative number. */
  function NumberValue(text: string): int
    requires text != [] && (text[0] == '-' || IsNumChar(text[0]))
    requires forall k :: 1 <= k < |text| ==> IsNumChar(text[k])
  {
    if text[0] == '-' then -DigitsValue(text[1..]) else DigitsValue(text)
  }

  /** eat_number: a minus sign directly followed by a digit, or a digit,
      starts a number that runs to the last digit; its value is that of
      the digits, negated after a minus sign. */
  function NumberAt(s: string, i: nat): (r: Option<(Token, nat)>)
    requires i <= |s|
    ensures r.Some? <==> (At(s, i) == '-' && IsNumChar(At(s, i + 1))) || IsNumChar(At(s, i))
    ensures r.Some? ==>
              var d := if At(s, i) == '-' then i + 1 else i;
              && d < r.value.1 <= |s| && r.value.0.IntTok?
              && (forall k :: d <= k < r.value.1 ==> IsNumChar(s[k]))
              && !IsNumChar(At(s, r.value.1))
              && r.value.0.value == (if At(s, i) == '-' then -DigitsValue(s[d..r.value.1]) else DigitsValue(s[d..r.value.1]))
  {
    if At(s, i) == '-' && IsNumChar(At(s, i + 1)) then
      var j := Span(s, i + 1, Digits);
      assert s[i..j][1..] == s[i + 1..j];
      Some((IntTok(NumberValue(s[i..j])), j))
    else if IsNumChar(At(s, i)) then
      var j := Span(s, i, Digits);
      Some((IntTok(NumberValue(s[i..j])), j))
    else None
  }

  /** eat_symbol: the longest run of symbol characters. */
  function SymbolAt(s: string, i: nat): (r: Option<(Token, nat)>)
    requires i <= |s|
    ensures r.Some? ==> i < r.value.1 <= |s| && r.value.0.SymTok?
  {
    if IsSymChar(At(s, i)) then
      var j := Span(s, i, SymChars);
      Some((SymTok(s[i..j]), j))
    else None
  }

  /** eat_operator: one operator character. */
  function OperatorAt(s: string, i: nat): (r: Option<(Token, nat)>)
    requires i <= |s|
    ensures r.Some? ==> i < r.value.1 <= |s|
  {
    if IsOpChar(At(s, i)) then Some((SymTok([s[i]]), i + 1)) else None
  }

  /** eat_paren. */
  function ParenAt(s: string, i: nat): (r: Option<(Token, nat)>)
    requires i <= |s|
    ensures r.Some? ==> i < r.value.1 <= |s|
  {
    if At(s, i) == '(' then Some((LParen, i + 1))
    else if At(s, i) == ')' then Some((RParen, i + 1))
    else None
  }

  /** The token at `i`: number, then symbol, then operator, then paren. */
  function TokenAt(s: string, i: nat): (r: Option<(Token, nat)>)
    requires i <= |s|
    ensures r.Some? ==> i < r.value.1 <= |s|
  {
    if NumberAt(s, i).Some? then NumberAt(s, i)
    else if SymbolAt(s, i).Some? then SymbolAt(s, i)
    else if OperatorAt(s, i).Some? then OperatorAt(s, i)
    else ParenAt(s, i)
  }

  /** eat_whitespace: the spaces and newlines from `i` on, and nothing
      else. */
  function SkipWs(s: string, i: nat): (r: nat)
    requires i <= |s|
    ensures i <= r <= |s| && At(s, r) != ' ' && At(s, r) != '\n'
    ensures forall k :: i <= k < r ==> s[k] == ' ' || s[k] == '\n'
    decreases |s| - i
  {
    if At(s, i) == ' ' || At(s, i) == '\n' then SkipWs(s, i + 1) else i
  }

  /** lex from index `i`: a token, then any whitespace, until the NUL. */
  function LexFrom(s: string, i: nat): Result<seq<Token>>
    requires i <= |s|
    decreases |s| - i
  {
    if At(s, i) == '\0' then Ok([])
    else match TokenAt(s, i)
      case None => Fatal(LexError(s[i]))
      case Some((t, j)) =>
        var rest :- LexFrom(s, SkipWs(s, j));
        Ok([t] + rest)
  }

  function Prefixed<T>(acc: seq<T>, r: Result<seq<T>>): Result<seq<T>>
  {
    match r
    case Ok(rest) => Ok(acc + rest)
    case Fatal(m) => Fatal(m)
  }

  /** A symbol token is either one operator character or a run of symbol
      characters that does not start with a digit, since numbers are
      tried first; every number token comes from digits. */
  predicate LexedToken(t: Token)
  {
    match t
    case SymTok(n) =>
      (|n| == 1 && IsOpChar(n[0]))
      || (n != [] && !IsNumChar(n[0]) && forall k :: 0 <= k < |n| ==> IsSymChar(n[k]))
    case _ => true
  }

  lemma {:induction false} LexedTokens(s: string, i: nat)
    requires i <= |s| && LexFrom(s, i).Ok?
    ensures forall k :: 0 <= k < |LexFrom(s, i).value| ==> LexedToken(LexFrom(s, i).value[k])
    decreases |s| - i
  {
    if At(s, i) != '\0' {
      var tj := TokenAt(s, i).value;
      LexedTokens(s, SkipWs(s, tj.1));
      if NumberAt(s, i).None? && SymbolAt(s, i).Some? {
        var j := Span(s, i, SymChars);
        assert s[i..j][0] == s[i];
      }
    }
  }

  /** Whitespace is skipped only after a token: where a token is
      expected, a space, a newline or any other blank is an unexpected
      character. */
  lemma LeadingSpace(s: string, i: nat)
    requires i < |s| && (s[i] == ' ' || s[i] == '\n' || s[i] == '\t' || s[i] == '\r')
    ensures LexFrom(s, i) == Fatal(LexError(s[i]))
  {
  }

  /** Numbers are tried before symbols: a digit, or a minus sign directly
      before a digit, always starts a number token, although digits are
      also symbol characters and the minus sign an operator. */
  lemma NumbersFirst(s: string, i: nat)
    requires i <= |s| && ((At(s, i) == '-' && IsNumChar(At(s, i + 1))) || IsNumChar(At(s, i)))
    ensures TokenAt(s, i) == NumberAt(s, i) && TokenAt(s, i).Some? && TokenAt(s, i).value.0.IntTok?
    ensures At(s, i) == '-' ==> TokenAt(s, i).value.0.value <= 0
    ensures IsNumChar(At(s, i)) ==> IsSymChar(At(s, i)) && SymbolAt(s, i).Some?
    ensures At(s, i) == '-' ==> OperatorAt(s, i).Some?
  {
    var r := NumberAt(s, i).value;
    var d := if At(s, i) == '-' then i + 1 else i;
    DigitsNonNegative(s[d..r.1]);
  }

  lemma {:induction false} DigitsNonNegative(ds: string)
    requires forall k :: 0 <= k < |ds| ==> IsNumChar(ds[k])
    ensures DigitsValue(ds) >= 0
    decreases |ds|
  {
    if ds != [] {
      DigitsNonNegative(ds[..|ds| - 1]);
    }
  }

  /** A minus sign directly before a digit starts a negative number, even
      after a symbol, so "a-1" is a symbol and a number while "a - 1" is
      a symbol, the operator and a number. */
  lemma MinusBeforeDigit()
    ensures LexFrom("a-1", 0) == Ok([SymTok("a"), IntTok(-1)])
    ensures LexFrom("a - 1", 0) == Ok([SymTok("a"), SymTok("-"), IntTok(1)])
  {
    var s := "a-1";
    assert Span(s, 2, Digits) == 3;
    assert s[1..3] == "-1" && "-1"[1..] == "1" && "1"[..0] == "";
    assert DigitsValue("1") == 1;
    assert NumberAt(s, 1) == Some((IntTok(-1), 3));
    assert TokenAt(s, 1) == Some((IntTok(-1), 3));
    assert LexFrom(s, SkipWs(s, 3)) == Ok([]);
    LexStep(s, 1);
    assert [IntTok(-1)] + [] == [IntTok(-1)];
    assert LexFrom(s, 1) == Ok([IntTok(-1)]);
    LexStep(s, 0);
    assert Span(s, 0, SymChars) == 1 && s[0..1] == "a";
    assert TokenAt(s, 0) == Some((SymTok("a"), 1));
    assert [SymTok("a")] + [IntTok(-1)] == [SymTok("a"), IntTok(-1)];
    var t := "a - 1";
    assert Span(t, 4, Digits) == 5 && t[4..5] == "1";
    assert TokenAt(t, 4) == Some((IntTok(1), 5));
    assert LexFrom(t, SkipWs(t, 5)) == Ok([]);
    LexStep(t, 4);
    assert [IntTok(1)] + [] == [IntTok(1)];
    assert LexFrom(t, 4) == Ok([IntTok(1)]);
    assert t[2..3] == "-";
    assert TokenAt(t, 2) == Some((SymTok("-"), 3));
    assert SkipWs(t, 3) == 4;
    LexStep(t, 2);
    assert [SymTok("-")] + [IntTok(1)] == [SymTok("-"), IntTok(1)];
    assert LexFrom(t, 2) == Ok([SymTok("-"), IntTok(1)]);
    assert Span(t, 0, SymChars) == 1 && t[0..1] == "a";
    assert TokenAt(t, 0) == Some((SymTok("a"), 1));
    assert SkipWs(t, 1) == 2;
    LexStep(t, 0);
    assert [SymTok("a")] + [SymTok("-"), IntTok(1)] == [SymTok("a"), SymTok("-"), IntTok(1)];
  }

  /** The lexer stops at the NUL. */
  lemma LexEnd(s: string, i: nat)
    requires i <= |s| && At(s, i) == '\0'
    ensures LexFrom(s, i) == Ok([])
  {
  }

  /** One turn of the lexer's loop. */
  lemma LexStep(s: string, i: nat)
    requires i <= |s| && At(s, i) != '\0'
    ensures TokenAt(s, i).None? ==> LexFrom(s, i) == Fatal(LexError(s[i]))
    ensures TokenAt(s, i).Some? ==>
      LexFrom(s, i) == Prefixed([TokenAt(s, i).value.0], LexFrom(s, SkipWs(s, TokenAt(s, i).value.1)))
  {
  }

  //============================================================
  // Parser
  //============================================================

  datatype Op = Plus | Minus | Times | Over

  datatype Exp = BinExp(op: Op, a: Exp, b: Exp) | IntExp(value: int) | VarExp(name: string)

  datatype Stmt = CalcStmt(exp: Exp) | LetStmt(name: string, exp: Exp)

  const END_OF_INPUT := "Parse error: Unexpected end of input."
  const UNBALANCED := "Parse error: Unbalanced parenthesis."
  const OUT_OF_BOUNDS := "Index out of bounds."

  function OpName(op: Op): string
  {
    match op
    case Plus => "+"
    case Minus => "-"
    case Times => "*"
    case Over => "/"
  }

  /** The binding level of an operator: + and - at 0, * and / at 1. */
  function Level(op: Op): nat
  {
    if op == Plus || op == Minus then 0 else 1
  }

  /** is_op, together with the strcmp chain of parse_ops that picks the
      operator: which operator of level `p` the token is, if any. */
  function OpAt(p: nat, t: Token): (r: Option<Op>)
    ensures r.Some? ==> t.SymTok? && Level(r.value) == p && t.name == OpName(r.value)
    ensures r.None? ==> forall op: Op :: Level(op) == p ==> t != SymTok(OpName(op))
  {
    if !t.SymTok? then None
    else if p == 0 && t.name == "+" then Some(Plus)
    else if p == 0 && t.name == "-" then Some(Minus)
    else if p == 1 && t.name == "*" then Some(Times)
    else if p == 1 && t.name == "/" then Some(Over)
    else None
  }

  /** The number parse_atom and ensure_no_more_tokens print for a tag. */
  function Tag(t: Token): char
  {
    match t
    case LParen => '0'
    case RParen => '1'
    case IntTok(_) => '2'
    case SymTok(_) => '3'
  }

  function Unexpected(t: Token): string
  {
    "Parse error: Unexpected token with tag " + [Tag(t)] + "."
  }

  function BadName(n: string): string
  {
    "Invalid variable name: " + n
  }

  /** A variable is a single lowercase letter. */
  predicate ValidName(n: string)
  {
    |n| == 1 && 'a' <= n[0] <= 'z'
  }

  /** The name of a let selects one of the 26 slots: only its first
      character counts, so "abc" names the slot of "a". */
  predicate LetName(n: string)
  {
    'a' <= At(n, 0) <= 'z'
  }

  /** parse_term(p) from token `pos`: the expression and the position
      after it. */
  function Term(toks: seq<Token>, pos: nat, p: nat): (r: Result<(Exp, nat)>)
    requires pos <= |toks| && p <= 2
    ensures r.Ok? ==> pos < r.value.1 <= |toks|
    decreases |toks| - pos, 3 - p
  {
    if p < 2 then
      var t :- Term(toks, pos, p + 1);
      Ops(toks, t.0, t.1, p)
    else Atom(toks, pos)
  }

  /** parse_ops(a, p): folds the level-`p` operators that follow `a` to
      the left. */
  function Ops(toks: seq<Token>, a: Exp, pos: nat, p: nat): (r: Result<(Exp, nat)>)
    requires pos <= |toks| && p < 2
    ensures r.Ok? ==> pos <= r.value.1 <= |toks|
    decreases |toks| - pos, 0
  {
    if pos < |toks| && OpAt(p, toks[pos]).Some? then
      var t :- Term(toks, pos + 1, p + 1);
      Ops(toks, BinExp(OpAt(p, toks[pos]).value, a, t.0), t.1, p)
    else Ok((a, pos))
  }

  /** parse_atom: an integer, a variable or a parenthesised expression. */
  function Atom(toks: seq<Token>, pos: nat): (r: Result<(Exp, nat)>)
    requires pos <= |toks|
    ensures r.Ok? ==> pos < r.value.1 <= |toks|
    decreases |toks| - pos, 0
  {
    if pos == |toks| then Fatal(END_OF_INPUT)
    else match toks[pos]
      case IntTok(v) => Ok((IntExp(v), pos + 1))
      case SymTok(n) => if ValidName(n) then Ok((VarExp(n), pos + 1)) else Fatal(BadName(n))
      case LParen =>
        var t :- Term(toks, pos + 1, 0);
        if t.1 == |toks| then Fatal(OUT_OF_BOUNDS)
        else if toks[t.1] != RParen then Fatal(UNBALANCED)
        else Ok((t.0, t.1 + 1))
      case RParen => Fatal(Unexpected(RParen))
  }

  /** let_pending: a symbol followed by "=". */
  predicate LetPending(toks: seq<Token>)
  {
    |toks| >= 2 && toks[0].SymTok? && toks[1] == SymTok("=")
  }

  /** parse_stmt as written: the name of a let is not checked, so a let
      may name a slot outside the 26 of the environment. */
  function UncheckedStatement(toks: seq<Token>): (r: Result<(Stmt, nat)>)
    ensures r.Ok? ==> r.value.1 <= |toks|
    ensures r.Ok? ==> (r.value.0.LetStmt? <==> LetPending(toks))
  {
    if LetPending(toks) then
      var t :- Term(toks, 2, 0);
      Ok((LetStmt(toks[0].name, t.0), t.1))
    else
      var t :- Term(toks, 0, 0);
      Ok((CalcStmt(t.0), t.1))
  }

  /** parse_stmt with the name of a let checked to select one of the 26
      slots; it differs from parse_stmt as written only on the lets whose
      name selects none. */
  function Statement(toks: seq<Token>): (r: Result<(Stmt, nat)>)
    ensures r.Ok? ==> r.value.1 <= |toks|
    ensures r.Ok? ==> (r.value.0.LetStmt? <==> LetPending(toks))
    ensures r.Ok? && r.value.0.LetStmt? ==> 0 <= VarIdx(r.value.0.name) < 26
    ensures r.Ok? ==> r == UncheckedStatement(toks)
    ensures r.Fatal? && UncheckedStatement(toks).Ok? ==> LetPending(toks) && !(0 <= VarIdx(toks[0].name) < 26)
  {
    if LetPending(toks) && !LetName(toks[0].name) then Fatal(BadName(toks[0].name))
    else UncheckedStatement(toks)
  }

  /** parse_one_stmt after lexing: one statement and no tokens left. */
  function OneStatement(toks: seq<Token>): (r: Result<Stmt>)
  {
    var t :- Statement(toks);
    if t.1 < |toks| then Fatal(Unexpected(toks[t.1])) else Ok(t.0)
  }

  /** parse_one_stmt: lex the line, then parse one statement. */
  function ParseLine(line: string): Result<Stmt>
  {
    var toks :- LexFrom(line, 0);
    OneStatement(toks)
  }

  /** A parser method's result and final position match the parse `spec`
      of its starting position. */
  predicate Agrees<T(==)>(r: Result<T>, at: nat, spec: Result<(T, nat)>)
  {
    match spec
    case Ok(v) => r == Ok(v.0) && at == v.1
    case Fatal(m) => r == Fatal(m)
  }

  //------------------------------------------------------------
  // Printing an expression back to tokens
  //------------------------------------------------------------

  /** Every variable of the expression is a single lowercase letter. */
  predicate Named(e: Exp)
  {
    match e
    case BinExp(_, a, b) => Named(a) && Named(b)
    case IntExp(_) => true
    case VarExp(n) => ValidName(n)
  }

  /** The tokens of `e` where an expression of level `p` is expected:
      operands of the same level chain to the left, a right operand is
      printed one level up and a looser operator is parenthesised. */
  function Unparse(e: Exp, p: nat): seq<Token>
    requires p <= 2
    decreases e, p
  {
    match e
    case IntExp(v) => [IntTok(v)]
    case VarExp(n) => [SymTok(n)]
    case BinExp(op, a, b) =>
      if Level(op) >= p then Unparse(a, Level(op)) + [SymTok(OpName(op))] + Unparse(b, Level(op) + 1)
      else [LParen] + Unparse(e, 0) + [RParen]
  }

  /** No operator of level `p` or above is at `pos`. */
  predicate Stops(toks: seq<Token>, pos: nat, p: nat)
  {
    pos >= |toks| || forall q: nat :: p <= q < 2 ==> OpAt(q, toks[pos]).None?
  }

  /** The leftmost operand of the level-`p` chain that `e` is. */
  function First(e: Exp, p: nat): (r: Exp)
    ensures !(r.BinExp? && Level(r.op) == p)
    ensures r == e || r < e
    ensures Named(e) ==> Named(r)
  {
    if e.BinExp? && Level(e.op) == p then First(e.a, p) else e
  }

  function Rank(e: Exp, p: nat): nat
  {
    if !e.BinExp? then (if p <= 2 then 2 - p else 0)
    else if p <= Level(e.op) then Level(e.op) - p
    else if p == 2 then Level(e.op) + 1
    else 2
  }

  lemma UnparseLift(e: Exp, p: nat)
    requires p < 2 && !(e.BinExp? && Level(e.op) == p)
    ensures Unparse(e, p) == Unparse(e, p + 1)
  {
  }

  /** Parsing the printed tokens of `e` at level `p` gives `e` back and
      stops right after them. */
  lemma {:induction false} TermUnparse(e: Exp, p: nat, toks: seq<Token>, pos: nat)
    requires Named(e) && p <= 2
    requires Holds(toks, pos, Unparse(e, p)) && Stops(toks, pos + |Unparse(e, p)|, p)
    ensures Term(toks, pos, p) == Ok((e, pos + |Unparse(e, p)|))
    decreases e, 2 * Rank(e, p) + 2
  {
    if p == 2 && e.BinExp? {
      ParenUnparse(e, toks, pos);
    } else if p == 2 {
      assert toks[pos] == Unparse(e, p)[0];
    } else if e.BinExp? && Level(e.op) == p {
      ChainUnparse(e, p, toks, pos);
    } else {
      LiftUnparse(e, p, toks, pos);
    }
  }

  /** At level 2 a binary expression is printed in parentheses. */
  lemma {:induction false} ParenUnparse(e: Exp, toks: seq<Token>, pos: nat)
    requires Named(e) && e.BinExp?
    requires Holds(toks, pos, Unparse(e, 2)) && Stops(toks, pos + |Unparse(e, 2)|, 2)
    ensures Term(toks, pos, 2) == Ok((e, pos + |Unparse(e, 2)|))
    decreases e, 2 * Rank(e, 2) + 1
  {
    var inner := Unparse(e, 0);
    assert Unparse(e, 2) == [LParen] + inner + [RParen];
    HoldsSplit(toks, pos, [LParen] + inner, [RParen]);
    HoldsSplit(toks, pos, [LParen], inner);
    var close := pos + 1 + |inner|;
    assert toks[pos] == LParen && toks[close] == RParen;
    NotOp(RParen);
    assert Stops(toks, close, 0);
    hide Term, Ops, Atom, Unparse, Stops, OpAt, Holds, First, Named, Level;
    TermUnparse(e, 0, toks, pos + 1);
    AtomParen(toks, pos, e, close);
  }

  /** A chain of level-`p` operators: its first operand one level up, then
      parse_ops folds the rest. */
  lemma {:induction false} ChainUnparse(e: Exp, p: nat, toks: seq<Token>, pos: nat)
    requires Named(e) && p < 2 && e.BinExp? && Level(e.op) == p
    requires Holds(toks, pos, Unparse(e, p)) && Stops(toks, pos + |Unparse(e, p)|, p)
    ensures Term(toks, pos, p) == Ok((e, pos + |Unparse(e, p)|))
    decreases e, 2 * Rank(e, p) + 1
  {
    hide *;
    var end := pos + |Unparse(e, p)|;
    HoldsFits(toks, pos, Unparse(e, p));
    var f := First(e, p);
    var mid := pos + |Unparse(f, p)|;
    ChainFirst(e, p, toks, pos);
    StopsUp(toks, end, p);
    Spine(e, p, toks, pos);
    OpsStop(toks, e, end, p);
    ChainJoin(toks, pos, p, f, mid, e, end);
  }

  /** A chain whose first operand reads as `f` and whose operators then
      read as `e` reads as `e`. */
  lemma ChainJoin(toks: seq<Token>, pos: nat, p: nat, f: Exp, mid: nat, e: Exp, end: nat)
    requires pos <= |toks| && p < 2
    requires Term(toks, pos, p + 1) == Ok((f, mid)) && Ops(toks, f, mid, p) == Ok((e, end))
    ensures Term(toks, pos, p) == Ok((e, end))
  {
    TermChain(toks, pos, p);
  }

  /** The first operand of a chain is read one level up. */
  lemma {:induction false} ChainFirst(e: Exp, p: nat, toks: seq<Token>, pos: nat)
    requires Named(e) && p < 2 && e.BinExp? && Level(e.op) == p
    requires Holds(toks, pos, Unparse(e, p))
    ensures Term(toks, pos, p + 1) == Ok((First(e, p), pos + |Unparse(First(e, p), p)|))
    decreases e, 2 * Rank(e, p)
  {
    hide *;
    var f := First(e, p);
    FirstUnparse(e, p, toks, pos);
    UnparseLift(f, p);
    TermUnparse(f, p + 1, toks, pos);
  }

  /** Anything else prints the same one level up. */
  lemma {:induction false} LiftUnparse(e: Exp, p: nat, toks: seq<Token>, pos: nat)
    requires Named(e) && p < 2 && !(e.BinExp? && Level(e.op) == p)
    requires Holds(toks, pos, Unparse(e, p)) && Stops(toks, pos + |Unparse(e, p)|, p)
    ensures Term(toks, pos, p) == Ok((e, pos + |Unparse(e, p)|))
    decreases e, 2 * Rank(e, p) + 1
  {
    var end := pos + |Unparse(e, p)|;
    UnparseLift(e, p);
    hide Term, Ops, Atom, Unparse, Stops, OpAt;
    StopsUp(toks, end, p);
    TermUnparse(e, p + 1, toks, pos);
    TermChain(toks, pos, p);
    OpsStop(toks, e, end, p);
  }

  lemma NotOp(t: Token)
    requires !t.SymTok?
    ensures forall q: nat :: OpAt(q, t).None?
  {
  }

  lemma StopsUp(toks: seq<Token>, pos: nat, p: nat)
    requires Stops(toks, pos, p)
    ensures Stops(toks, pos, p + 1)
  {
  }

  /** A parenthesised expression is an atom. */
  lemma AtomParen(toks: seq<Token>, pos: nat, e: Exp, close: nat)
    requires pos < close < |toks| && toks[pos] == LParen && toks[close] == RParen
    requires Term(toks, pos + 1, 0) == Ok((e, close))
    ensures Term(toks, pos, 2) == Ok((e, close + 1))
  {
  }

  /** parse_term(p) below level 2 is parse_ops over parse_term(p + 1). */
  lemma TermChain(toks: seq<Token>, pos: nat, p: nat)
    requires pos <= |toks| && p < 2
    ensures Term(toks, pos, p) ==
      if Term(toks, pos, p + 1).Fatal? then Fatal(Term(toks, pos, p + 1).msg)
      else Ops(toks, Term(toks, pos, p + 1).value.0, Term(toks, pos, p + 1).value.1, p)
  {
  }

  /** parse_ops stops where no operator of its level follows. */
  lemma OpsStop(toks: seq<Token>, a: Exp, pos: nat, p: nat)
    requires pos <= |toks| && p < 2 && Stops(toks, pos, p)
    ensures Ops(toks, a, pos, p) == Ok((a, pos))
  {
  }

  /** The printed tokens of `e` begin with those of its first operand,
      followed by an operator of level `p` when there is more. */
  lemma {:induction false} FirstUnparse(e: Exp, p: nat, toks: seq<Token>, pos: nat)
    requires p < 2 && Holds(toks, pos, Unparse(e, p))
    ensures Holds(toks, pos, Unparse(First(e, p), p))
    ensures First(e, p) != e ==> Stops(toks, pos + |Unparse(First(e, p), p)|, p + 1)
    decreases e
  {
    if e.BinExp? && Level(e.op) == p {
      var ua := Unparse(e.a, p);
      HoldsSplit(toks, pos, ua + [SymTok(OpName(e.op))], Unparse(e.b, p + 1));
      HoldsSplit(toks, pos, ua, [SymTok(OpName(e.op))]);
      FirstUnparse(e.a, p, toks, pos);
      assert toks[pos + |ua|] == SymTok(OpName(e.op));
    }
  }

  /** parse_ops folds the rest of the chain of `e` onto its first operand. */
  lemma {:induction false} Spine(e: Exp, p: nat, toks: seq<Token>, pos: nat)
    requires Named(e) && p < 2
    requires Holds(toks, pos, Unparse(e, p)) && Stops(toks, pos + |Unparse(e, p)|, p + 1)
    ensures Holds(toks, pos, Unparse(First(e, p), p))
    ensures Ops(toks, First(e, p), pos + |Unparse(First(e, p), p)|, p) == Ops(toks, e, pos + |Unparse(e, p)|, p)
    decreases e, 0
  {
    hide Unparse, Ops, Term, Atom, Stops, OpAt, Holds;
    FirstUnparse(e, p, toks, pos);
    if e.BinExp? && Level(e.op) == p {
      hide First;
      var ea := SpineSplit(e, p, toks, pos);
      Spine(e.a, p, toks, pos);
      SpineTail(e, p, toks, pos, ea);
      FirstStep(e, p);
    }
  }

  /** Past the left operand of a chain, parse_ops reads the operator and
      the right operand and carries on with the whole binary expression. */
  lemma SpineTail(e: Exp, p: nat, toks: seq<Token>, pos: nat, ea: nat)
    requires Named(e) && p < 2 && e.BinExp? && Level(e.op) == p && Named(e.b)
    requires ea < |toks| && toks[ea] == SymTok(OpName(e.op))
    requires Holds(toks, ea + 1, Unparse(e.b, p + 1))
    requires ea + 1 + |Unparse(e.b, p + 1)| == pos + |Unparse(e, p)|
    requires Stops(toks, pos + |Unparse(e, p)|, p + 1)
    ensures Ops(toks, e.a, ea, p) == Ops(toks, e, pos + |Unparse(e, p)|, p)
    decreases e.b, 2 * Rank(e.b, p + 1) + 3
  {
    hide Unparse, Ops, Term, First, Atom, Stops, OpAt, Holds;
    TermUnparse(e.b, p + 1, toks, ea + 1);
    OpsStep(toks, e.a, ea, p, e.op);
  }

  /** Where the left operand of a chain ends, and what follows it. */
  lemma SpineSplit(e: Exp, p: nat, toks: seq<Token>, pos: nat) returns (ea: nat)
    requires Named(e) && p < 2 && e.BinExp? && Level(e.op) == p
    requires Holds(toks, pos, Unparse(e, p)) && Stops(toks, pos + |Unparse(e, p)|, p + 1)
    ensures Named(e.a) && Named(e.b)
    ensures ea == pos + |Unparse(e.a, p)| && ea < |toks| && toks[ea] == SymTok(OpName(e.op))
    ensures Holds(toks, pos, Unparse(e.a, p)) && Stops(toks, ea, p + 1)
    ensures Holds(toks, ea + 1, Unparse(e.b, p + 1))
    ensures ea + 1 + |Unparse(e.b, p + 1)| == pos + |Unparse(e, p)|
    ensures Stops(toks, ea + 1 + |Unparse(e.b, p + 1)|, p + 1)
  {
    var ua, ub := Unparse(e.a, p), Unparse(e.b, p + 1);
    var t := SymTok(OpName(e.op));
    assert Unparse(e, p) == ua + [t] + ub;
    hide Unparse, Stops, OpAt;
    HoldsSplit(toks, pos, ua + [t], ub);
    HoldsSplit(toks, pos, ua, [t]);
    ea := pos + |ua|;
    assert toks[ea] == t;
    assert Stops(toks, ea, p + 1) by {
      OpLevel(e.op);
    }
  }

  lemma OpLevel(op: Op)
    ensures Level(op) < 2
    ensures forall q: nat :: Level(op) < q < 2 ==> OpAt(q, SymTok(OpName(op))).None?
  {
  }

  lemma FirstStep(e: Exp, p: nat)
    requires e.BinExp? && Level(e.op) == p
    ensures First(e, p) == First(e.a, p)
  {
  }

  /** One turn of parse_ops on an operator of its level. */
  lemma OpsStep(toks: seq<Token>, a: Exp, pos: nat, p: nat, op: Op)
    requires pos < |toks| && p < 2 && toks[pos] == SymTok(OpName(op)) && Level(op) == p
    ensures Term(toks, pos + 1, p + 1).Fatal? ==> Ops(toks, a, pos, p) == Fatal(Term(toks, pos + 1, p + 1).msg)
    ensures Term(toks, pos + 1, p + 1).Ok? ==>
      Ops(toks, a, pos, p) == Ops(toks, BinExp(op, a, Term(toks, pos + 1, p + 1).value.0), Term(toks, pos + 1, p + 1).value.1, p)
  {
    assert OpAt(p, toks[pos]) == Some(op);
  }

  /** No printed expression holds the "=" of a let. */
  lemma {:induction false} NoEquals(e: Exp, p: nat)
    requires Named(e) && p <= 2
    ensures SymTok("=") !in Unparse(e, p)
    decreases e, p
  {
    match e
    case BinExp(op, a, b) =>
      if Level(op) >= p {
        NoEquals(a, Level(op));
        NoEquals(b, Level(op) + 1);
      } else {
        NoEquals(e, 0);
      }
    case _ =>
  }

  /** A printed expression, alone on a line, parses back to itself. */
  lemma CalcRoundTrip(e: Exp)
    requires Named(e)
    ensures OneStatement(Unparse(e, 0)) == Ok(CalcStmt(e))
  {
    var toks := Unparse(e, 0);
    NoEquals(e, 0);
    if |toks| >= 2 {
      assert toks[1] in toks;
    }
    assert toks[0..|toks|] == toks;
    TermUnparse(e, 0, toks, 0);
  }

  /** A let of a variable and a printed expression parses back to itself. */
  lemma LetRoundTrip(x: string, e: Exp)
    requires ValidName(x) && Named(e)
    ensures OneStatement([SymTok(x), SymTok("=")] + Unparse(e, 0)) == Ok(LetStmt(x, e))
  {
    var toks := [SymTok(x), SymTok("=")] + Unparse(e, 0);
    assert toks[2..2 + |Unparse(e, 0)|] == Unparse(e, 0);
    TermUnparse(e, 0, toks, 2);
  }

  /** Operators of one level group to the left: "a - b - c" is (a - b) - c. */
  lemma LeftAssociative(a: string, b: string, c: string)
    requires ValidName(a) && ValidName(b) && ValidName(c)
    ensures OneStatement([SymTok(a), SymTok("-"), SymTok(b), SymTok("-"), SymTok(c)])
      == Ok(CalcStmt(BinExp(Minus, BinExp(Minus, VarExp(a), VarExp(b)), VarExp(c))))
  {
    var e := BinExp(Minus, BinExp(Minus, VarExp(a), VarExp(b)), VarExp(c));
    assert Unparse(e.a, 0) == [SymTok(a)] + [SymTok("-")] + [SymTok(b)];
    assert Unparse(e, 0) == [SymTok(a), SymTok("-"), SymTok(b), SymTok("-"), SymTok(c)];
    CalcRoundTrip(e);
  }

  /** "*" binds tighter than "+" on either side of it. */
  lemma TimesBindsTighter(a: string, b: string, c: string)
    requires ValidName(a) && ValidName(b) && ValidName(c)
    ensures OneStatement([SymTok(a), SymTok("+"), SymTok(b), SymTok("*"), SymTok(c)])
      == Ok(CalcStmt(BinExp(Plus, VarExp(a), BinExp(Times, VarExp(b), VarExp(c)))))
    ensures OneStatement([SymTok(a), SymTok("*"), SymTok(b), SymTok("+"), SymTok(c)])
      == Ok(CalcStmt(BinExp(Plus, BinExp(Times, VarExp(a), VarExp(b)), VarExp(c))))
  {
    var e1 := BinExp(Plus, VarExp(a), BinExp(Times, VarExp(b), VarExp(c)));
    assert Unparse(e1.b, 1) == [SymTok(b)] + [SymTok("*")] + [SymTok(c)];
    assert Unparse(e1, 0) == [SymTok(a), SymTok("+"), SymTok(b), SymTok("*"), SymTok(c)];
    CalcRoundTrip(e1);
    var e2 := BinExp(Plus, BinExp(Times, VarExp(a), VarExp(b)), VarExp(c));
    assert Unparse(e2.a, 0) == [SymTok(a)] + [SymTok("*")] + [SymTok(b)];
    assert Unparse(e2, 0) == [SymTok(a), SymTok("*"), SymTok(b), SymTok("+"), SymTok(c)];
    CalcRoundTrip(e2);
  }

  //------------------------------------------------------------
  // What the parser accepts can be evaluated
  //------------------------------------------------------------

  /** Every integer token is a C int. */
  predicate SmallLits(toks: seq<Token>)
  {
    forall i :: 0 <= i < |toks| && toks[i].IntTok? ==> IsInt32(toks[i].value)
  }

  lemma {:induction false} TermWf(toks: seq<Token>, pos: nat, p: nat)
    requires SmallLits(toks) && pos <= |toks| && p <= 2
    ensures Term(toks, pos, p).Ok? ==> WfExp(Term(toks, pos, p).value.0)
    decreases |toks| - pos, 3 - p
  {
    if p < 2 {
      TermWf(toks, pos, p + 1);
      var a := Term(toks, pos, p + 1);
      if a.Ok? {
        OpsWf(toks, a.value.0, a.value.1, p);
      }
    } else {
      AtomWf(toks, pos);
    }
  }

  lemma {:induction false} OpsWf(toks: seq<Token>, a: Exp, pos: nat, p: nat)
    requires SmallLits(toks) && pos <= |toks| && p < 2 && WfExp(a)
    ensures Ops(toks, a, pos, p).Ok? ==> WfExp(Ops(toks, a, pos, p).value.0)
    decreases |toks| - pos, 0
  {
    if pos < |toks| && OpAt(p, toks[pos]).Some? {
      TermWf(toks, pos + 1, p + 1);
      var t := Term(toks, pos + 1, p + 1);
      if t.Ok? {
        OpsWf(toks, BinExp(OpAt(p, toks[pos]).value, a, t.value.0), t.value.1, p);
      }
    }
  }

  lemma {:induction false} AtomWf(toks: seq<Token>, pos: nat)
    requires SmallLits(toks) && pos <= |toks|
    ensures Atom(toks, pos).Ok? ==> WfExp(Atom(toks, pos).value.0)
    decreases |toks| - pos, 0
  {
    if pos < |toks| && toks[pos] == LParen {
      TermWf(toks, pos + 1, 0);
    }
  }

  /** A statement the parser accepts from C-int tokens can be run: its
      variables and the variable of a let select slots of the environment. */
  lemma ParsedWf(toks: seq<Token>)
    requires SmallLits(toks)
    ensures OneStatement(toks).Ok? ==> WfStmt(OneStatement(toks).value)
  {
    if LetPending(toks) {
      TermWf(toks, 2, 0);
    } else {
      TermWf(toks, 0, 0);
    }
  }

  /** The let name "A" passes parse_stmt as written and selects slot -32. */
  lemma LetNameUnchecked()
    ensures UncheckedStatement([SymTok("A"), SymTok("="), IntTok(1)]) == Ok((LetStmt("A", IntExp(1)), 3))
    ensures !WfStmt(LetStmt("A", IntExp(1))) && VarIdx("A") == -32
    ensures Statement([SymTok("A"), SymTok("="), IntTok(1)]) == Fatal(BadName("A"))
  {
    var toks := [SymTok("A"), SymTok("="), IntTok(1)];
    assert Atom(toks, 2) == Ok((IntExp(1), 3));
    assert Term(toks, 2, 1) == Ok((IntExp(1), 3));
  }

  /** "abc = 1" is a let of the slot of "a": var_idx reads only the
      first character of the name. */
  lemma LongLetName()
    ensures Statement([SymTok("abc"), SymTok("="), IntTok(1)]) == Ok((LetStmt("abc", IntExp(1)), 3))
    ensures VarIdx("abc") == 0
  {
    var toks := [SymTok("abc"), SymTok("="), IntTok(1)];
    assert Atom(toks, 2) == Ok((IntExp(1), 3));
    assert Term(toks, 2, 1) == Ok((IntExp(1), 3));
  }

  /** The globals of the lexer and parser: the line, the index into it,
      the lexemes and the parser's index into them. */
  class Frontend {
    var buffer: string
    var index: nat
    var lexemes: seq<Token>
    var parseIndex: nat

    ghost predicate Valid()
      reads this
    {
      index <= |buffer|
    }

    /** init_lex_tables: an empty lexeme vector (the character tables are
        the predicates IsNumChar, IsSymChar and IsOpChar). */
    constructor()
      ensures Valid() && lexemes == [] && buffer == [] && index == 0 && parseIndex == 0
    {
      buffer := [];
      index := 0;
      lexemes := [];
      parseIndex := 0;
    }

    /** eat_nchars: the next `n` characters, consumed. */
    method EatNChars(n: nat) returns (text: string)
      requires Valid() && index + n <= |buffer|
      modifies this
      ensures buffer == old(buffer) && lexemes == old(lexemes) && index == old(index) + n
      ensures Valid() && text == buffer[old(index)..index]
    {
      text := buffer[index..index + n];
      index := index + n;
    }

    /** eat_chars: consumes the class-`k` characters from `start` on. */
    method EatChars(start: nat, k: CharClass) returns (text: string)
      requires Valid() && index + start <= |buffer|
      modifies this
      ensures buffer == old(buffer) && lexemes == old(lexemes)
      ensures index == Span(buffer, old(index) + start, k)
      ensures Valid() && text == buffer[old(index)..index]
    {
      var n := start;
      while InClass(At(buffer, index + n), k)
        invariant index + n <= |buffer|
        invariant Span(buffer, index + n, k) == Span(buffer, index + start, k)
        decreases |buffer| - index - n
      {
        n := n + 1;
      }
      text := EatNChars(n);
    }

    /** Consumes the token `TokenAt`-style function `spec` found, if any. */
    twostate predicate Ate(ate: bool, spec: Option<(Token, nat)>)
      reads this
    {
      buffer == old(buffer)
      && (ate <==> spec.Some?)
      && (ate ==> lexemes == old(lexemes) + [spec.value.0] && index == spec.value.1)
      && (!ate ==> lexemes == old(lexemes) && index == old(index))
    }

    method EatNumber() returns (ate: bool)
      requires Valid()
      modifies this
      ensures Valid() && Ate(ate, NumberAt(old(buffer), old(index)))
    {
      if At(buffer, index) == '-' && IsNumChar(At(buffer, index + 1)) {
        var num := EatChars(1, Digits);
        lexemes := lexemes + [IntTok(NumberValue(num))];
        ate := true;
      } else if IsNumChar(At(buffer, index)) {
        var num := EatChars(0, Digits);
        lexemes := lexemes + [IntTok(NumberValue(num))];
        ate := true;
      } else {
        ate := false;
      }
    }

    method EatSymbol() returns (ate: bool)
      requires Valid()
      modifies this
      ensures Valid() && Ate(ate, SymbolAt(old(buffer), old(index)))
    {
      if IsSymChar(At(buffer, index)) {
        var name := EatChars(0, SymChars);
        lexemes := lexemes + [SymTok(name)];
        ate := true;
      } else {
        ate := false;
      }
    }

    method EatOperator() returns (ate: bool)
      requires Valid()
      modifies this
      ensures Valid() && Ate(ate, OperatorAt(old(buffer), old(index)))
    {
      if IsOpChar(At(buffer, index)) {
        var name := EatNChars(1);
        assert name == [buffer[index - 1]];
        lexemes := lexemes + [SymTok(name)];
        ate := true;
      } else {
        ate := false;
      }
    }

    method EatParen() returns (ate: bool)
      requires Valid()
      modifies this
      ensures Valid() && Ate(ate, ParenAt(old(buffer), old(index)))
    {
      if At(buffer, index) == '(' {
        index := index + 1;
        lexemes := lexemes + [LParen];
        ate := true;
      } else if At(buffer, index) == ')' {
        index := index + 1;
        lexemes := lexemes + [RParen];
        ate := true;
      } else {
        ate := false;
      }
    }

    method EatWhitespace()
      requires Valid()
      modifies this
      ensures buffer == old(buffer) && lexemes == old(lexemes)
      ensures Valid() && index == SkipWs(buffer, old(index))
    {
      while At(buffer, index) == ' ' || At(buffer, index) == '\n'
        invariant buffer == old(buffer) && lexemes == old(lexemes)
        invariant Valid() && SkipWs(buffer, index) == SkipWs(buffer, old(index))
        decreases |buffer| - index
      {
        index := index + 1;
      }
    }

    /** The alternatives of lex's loop, tried in order. */
    method EatToken() returns (ate: bool)
      requires Valid()
      modifies this
      ensures Valid() && Ate(ate, TokenAt(old(buffer), old(index)))
    {
      ate := EatNumber();
      if !ate {
        ate := EatSymbol();
      }
      if !ate {
        ate := EatOperator();
      }
      if !ate {
        ate := EatParen();
      }
    }

    /** lex: the lexemes of the line, or the lex error. */
    method Lex(str: string) returns (r: Outcome)
      requires Valid()
      modifies this
      ensures Valid() && buffer == str
      ensures r.Pass? <==> LexFrom(str, 0).Ok?
      ensures r.Pass? ==> lexemes == LexFrom(str, 0).value
      ensures r.Fail? ==> r.msg == LexFrom(str, 0).msg
    {
      hide LexFrom, TokenAt, SkipWs;
      buffer := str;
      index := 0;
      lexemes := [];
      assert LexFrom(str, 0) == Prefixed([], LexFrom(str, 0)) by {
        if LexFrom(str, 0).Ok? {
          assert [] + LexFrom(str, 0).value == LexFrom(str, 0).value;
        }
      }
      while At(buffer, index) != '\0'
        invariant Valid() && buffer == str
        invariant LexFrom(str, 0) == Prefixed(lexemes, LexFrom(str, index))
        decreases |buffer| - index
      {
        ghost var before := lexemes;
        ghost var at := index;
        var ate := EatToken();
        if !ate {
          LexStep(str, at);
          return Fail(LexError(buffer[index]));
        }
        EatWhitespace();
        var tj := TokenAt(str, at).value;
        assert lexemes == before + [tj.0] && index == SkipWs(str, tj.1);
        LexStep(str, at);
        if LexFrom(str, index).Ok? {
          assert before + ([tj.0] + LexFrom(str, index).value) == lexemes + LexFrom(str, index).value;
        }
      }
      LexEnd(str, index);
      assert lexemes + [] == lexemes;
      r := Pass;
    }

    /** parse_term(p). */
    method ParseTerm(p: nat) returns (r: Result<Exp>)
      requires parseIndex <= |lexemes| && p <= 2
      modifies `parseIndex
      ensures Agrees(r, parseIndex, Term(lexemes, old(parseIndex), p))
      decreases |lexemes| - parseIndex, 3 - p
    {
      if p < 2 {
        var a := ParseTerm(p + 1);
        if a.Fatal? {
          return Fatal(a.msg);
        }
        r := ParseOps(a.value, p);
      } else {
        r := ParseAtom();
      }
    }

    /** parse_ops(a, p). */
    method ParseOps(a: Exp, p: nat) returns (r: Result<Exp>)
      requires parseIndex <= |lexemes| && p < 2
      modifies `parseIndex
      ensures Agrees(r, parseIndex, Ops(lexemes, a, old(parseIndex), p))
      decreases |lexemes| - parseIndex, 0
    {
      if parseIndex < |lexemes| && OpAt(p, lexemes[parseIndex]).Some? {
        var op := OpAt(p, lexemes[parseIndex]).value;
        parseIndex := parseIndex + 1;
        var b := ParseTerm(p + 1);
        if b.Fatal? {
          return Fatal(b.msg);
        }
        r := ParseOps(BinExp(op, a, b.value), p);
      } else {
        r := Ok(a);
      }
    }

    /** parse_atom. */
    method ParseAtom() returns (r: Result<Exp>)
      requires parseIndex <= |lexemes|
      modifies `parseIndex
      ensures Agrees(r, parseIndex, Atom(lexemes, old(parseIndex)))
      decreases |lexemes| - parseIndex, 0
    {
      if parseIndex == |lexemes| {
        return Fatal(END_OF_INPUT);
      }
      var t := lexemes[parseIndex];
      parseIndex := parseIndex + 1;
      match t {
        case IntTok(v) =>
          r := Ok(IntExp(v));
        case SymTok(n) =>
          if !ValidName(n) {
            return Fatal(BadName(n));
          }
          r := Ok(VarExp(n));
        case LParen =>
          var e := ParseTerm(0);
          if e.Fatal? {
            return e;
          }
          if parseIndex == |lexemes| {
            return Fatal(OUT_OF_BOUNDS);
          }
          var close := lexemes[parseIndex];
          parseIndex := parseIndex + 1;
          if close != RParen {
            return Fatal(UNBALANCED);
          }
          r := e;
        case RParen =>
          r := Fatal(Unexpected(RParen));
      }
    }

    /** parse_stmt, from the first token. */
    method ParseStmt() returns (r: Result<Stmt>)
      requires parseIndex == 0
      modifies `parseIndex
      ensures Agrees(r, parseIndex, Statement(lexemes))
    {
      if |lexemes| >= 2 && lexemes[0].SymTok? && lexemes[1] == SymTok("=") {
        var x := lexemes[0];
        if !LetName(x.name) {
          return Fatal(BadName(x.name));
        }
        parseIndex := 2;
        var e := ParseTerm(0);
        if e.Fatal? {
          return Fatal(e.msg);
        }
        r := Ok(LetStmt(x.name, e.value));
      } else {
        var e := ParseTerm(0);
        if e.Fatal? {
          return Fatal(e.msg);
        }
        r := Ok(CalcStmt(e.value));
      }
    }

    /** parse_one_stmt. */
    method ParseOneStmt(str: string) returns (r: Result<Stmt>)
      requires Valid()
      modifies this
      ensures r == ParseLine(str)
    {
      var lexed := Lex(str);
      if lexed.Fail? {
        return Fatal(lexed.msg);
      }
      parseIndex := 0;
      r := ParseStmt();
      if r.Ok? && parseIndex < |lexemes| {
        r := Fatal(Unexpected(lexemes[parseIndex]));
      }
    }
  }

  //============================================================
  // Evaluator
  //============================================================

  /** Every variable of the expression is a single lowercase letter and
      every literal is a C int. */
  predicate WfExp(e: Exp)
  {
    match e
    case BinExp(_, a, b) => WfExp(a) && WfExp(b)
    case IntExp(v) => IsInt32(v)
    case VarExp(n) => ValidName(n)
  }

  predicate WfStmt(s: Stmt)
  {
    WfExp(s.exp) && (s.LetStmt? ==> LetName(s.name))
  }

  /** new_env: 26 C ints, one per letter. */
  predicate EnvOk(env: seq<int>)
  {
    |env| == 26 && forall i :: 0 <= i < 26 ==> IsInt32(env[i])
  }

  /** var_idx: the letter's distance from 'a'. */
  function VarIdx(name: string): int
  {
    At(name, 0) as int - 'a' as int
  }

  /** The variables are exactly the one-character names whose index
      selects one of the 26 slots, and the names a let accepts are exactly
      those whose index does. */
  lemma VarIdxRange(n: string)
    ensures |n| == 1 ==> (ValidName(n) <==> 0 <= VarIdx(n) < 26)
    ensures LetName(n) <==> 0 <= VarIdx(n) < 26
  {
  }

  /** One arithmetic operator on C ints; a zero divisor is fatal. */
  function Arith(op: Op, x: int, y: int): (r: Result<int>)
    ensures r.Fatal? <==> op == Over && y == 0
    ensures r.Fatal? ==> r.msg == DIV_BY_ZERO
    ensures r.Ok? ==> IsInt32(r.value)
    ensures r.Ok? && IsInt32(x) && IsInt32(y) && op != Times && op != Over ==>
      r.value == Wrap32(if op == Plus then x + y else x - y)
  {
    match op
    case Plus => Ok(Wrap32(x + y))
    case Minus => Ok(Wrap32(x - y))
    case Times => Ok(Wrap32(x * y))
    case Over => if y == 0 then Fatal(DIV_BY_ZERO) else Ok(Wrap32(CDiv(x, y)))
  }

  /** eval_exp: operands left to right. */
  function Eval(e: Exp, env: seq<int>): (r: Result<int>)
    requires EnvOk(env) && WfExp(e)
    ensures r.Ok? ==> IsInt32(r.value)
    ensures r.Fatal? ==> r.msg == DIV_BY_ZERO
  {
    match e
    case BinExp(op, a, b) =>
      var x :- Eval(a, env);
      var y :- Eval(b, env);
      Arith(op, x, y)
    case IntExp(v) => Ok(v)
    case VarExp(n) => Ok(env[VarIdx(n)])
  }

  /** The value of a division-free expression does not fail. */
  predicate NoDivision(e: Exp)
  {
    match e
    case BinExp(op, a, b) => op != Over && NoDivision(a) && NoDivision(b)
    case _ => true
  }

  lemma {:induction false} EvalTotal(e: Exp, env: seq<int>)
    requires EnvOk(env) && WfExp(e) && NoDivision(e)
    ensures Eval(e, env).Ok?
  {
    match e
    case BinExp(op, a, b) =>
      EvalTotal(a, env);
      EvalTotal(b, env);
    case _ =>
  }

  /** run_stmt: the value of the statement and the environment after it;
      a let stores the value in its variable. */
  function RunStmt(s: Stmt, env: seq<int>): (r: Result<(int, seq<int>)>)
    requires EnvOk(env) && WfStmt(s)
    ensures r.Fatal? <==> Eval(s.exp, env).Fatal?
    ensures r.Ok? ==> EnvOk(r.value.1) && r.value.0 == Eval(s.exp, env).value
    ensures r.Ok? && s.CalcStmt? ==> r.value.1 == env
    ensures r.Ok? && s.LetStmt? ==> r.value.1[VarIdx(s.name)] == r.value.0
    ensures r.Ok? && s.LetStmt? ==> forall i :: 0 <= i < 26 && i != VarIdx(s.name) ==> r.value.1[i] == env[i]
  {
    var v :- Eval(s.exp, env);
    match s
    case CalcStmt(_) => Ok((v, env))
    case LetStmt(n, _) => Ok((v, env[VarIdx(n) := v]))
  }

  //============================================================
  // Byte code
  //============================================================

  const LIT_OP: Byte := 0
  const ADD_OP: Byte := 1
  const SUB_OP: Byte := 2
  const MUL_OP: Byte := 3
  const DIV_OP: Byte := 4
  const GET_OP: Byte := 5
  const SET_OP: Byte := 6
  const END_OP: Byte := 7

  /** Room malloc'd for the code of one statement. */
  const CODE_SIZE := 1024 * 1024

  function OpCode(op: Op): (r: Byte)
    ensures ADD_OP <= r <= DIV_OP
  {
    match op
    case Plus => ADD_OP
    case Minus => SUB_OP
    case Times => MUL_OP
    case Over => DIV_OP
  }

  function OpOfCode(b: Byte): (r: Op)
    requires ADD_OP <= b <= DIV_OP
    ensures OpCode(r) == b
  {
    if b == ADD_OP then Plus else if b == SUB_OP then Minus else if b == MUL_OP then Times else Over
  }

  /** A C int cast to a char: its low byte. */
  function CharOf(x: int): Byte
  {
    x % 256
  }

  /** The four bytes b3, b2, b1, b0 of a LIT instruction: v >> 24, v >> 16,
      v >> 8 and v, each cast to char. */
  function LitBytes(v: int): (r: seq<Byte>)
    ensures |r| == 4
  {
    [CharOf(v / TWO_24), CharOf(v / TWO_16), CharOf(v / TWO_8), CharOf(v)]
  }

  /** The bytes of a LIT instruction are the int's bytes, high byte first. */
  lemma LitBytesHighFirst(v: int)
    ensures LitBytes(v) == [Bytes32(v)[3], Bytes32(v)[2], Bytes32(v)[1], Bytes32(v)[0]]
  {
    LitBytesAre(v);
    Bytes32Are(v);
    hide LitBytes, Bytes32, CharOf;
    var q, m := v / TWO_32, v % TWO_32;
    ShiftedByte3(v, q, m);
    ShiftedByte2(v, q, m);
    ShiftedByte1(v, q, m);
    ShiftedByte0(v, q, m);
  }

  lemma ShiftedByte0(v: int, q: int, m: int)
    requires v == q * TWO_32 + m && 0 <= m < TWO_32
    ensures CharOf(v) == m % TWO_8
  {
    var t, r := m / TWO_8, m % TWO_8;
    Div8(m, t, r);
    Div8(v, q * TWO_24 + t, r);
  }

  lemma LitBytesAre(v: int)
    ensures LitBytes(v) == [CharOf(v / TWO_24), CharOf(v / TWO_16), CharOf(v / TWO_8), CharOf(v)]
  {
  }

  lemma Bytes32Are(v: int)
    ensures var m := v % TWO_32; Bytes32(v) == [m % TWO_8, (m / TWO_8) % TWO_8, (m / TWO_16) % TWO_8, m / TWO_24]
  {
  }

  lemma ShiftedByte3(v: int, q: int, m: int)
    requires v == q * TWO_32 + m && 0 <= m < TWO_32
    ensures CharOf(v / TWO_24) == m / TWO_24
  {
    var t, r := m / TWO_24, m % TWO_24;
    Div24(m, t, r);
    Div24(v, q * TWO_8 + t, r);
    Div8(q * TWO_8 + t, q, t);
  }

  lemma ShiftedByte2(v: int, q: int, m: int)
    requires v == q * TWO_32 + m && 0 <= m < TWO_32
    ensures CharOf(v / TWO_16) == (m / TWO_16) % TWO_8
  {
    var t, r := m / TWO_16, m % TWO_16;
    Div16(m, t, r);
    Div16(v, q * TWO_16 + t, r);
    var tq, tr := t / TWO_8, t % TWO_8;
    Div8(t, tq, tr);
    Div8(q * TWO_16 + t, q * TWO_8 + tq, tr);
  }

  lemma ShiftedByte1(v: int, q: int, m: int)
    requires v == q * TWO_32 + m && 0 <= m < TWO_32
    ensures CharOf(v / TWO_8) == (m / TWO_8) % TWO_8
  {
    var t, r := m / TWO_8, m % TWO_8;
    Div8(m, t, r);
    Div8(v, q * TWO_24 + t, r);
    var tq, tr := t / TWO_8, t % TWO_8;
    Div8(t, tq, tr);
    Div8(q * TWO_24 + t, q * TWO_16 + tq, tr);
  }

  /** run_ins's reading of a literal: each byte is a signed char before
      it is shifted into place. */
  function LitValue(b3: Byte, b2: Byte, b1: Byte, b0: Byte): (r: int)
    ensures IsInt32(r)
  {
    Wrap32(Signed8(b3) * TWO_24 + Signed8(b2) * TWO_16 + Signed8(b1) * TWO_8 + Signed8(b0))
  }

  /** push_ins: postfix code, the left operand's code, the right
      operand's code, then the operator. */
  function Code(e: Exp): (r: seq<Byte>)
    ensures |r| > 0
  {
    match e
    case BinExp(op, a, b) => Code(a) + Code(b) + [OpCode(op)]
    case IntExp(v) => [LIT_OP] + LitBytes(v)
    case VarExp(n) => [GET_OP, CharOf(VarIdx(n))]
  }

  /** compile: the expression's code, a SET of the variable for a let,
      then END. */
  function Compiled(s: Stmt): (r: seq<Byte>)
    ensures |r| > 0 && r[|r| - 1] == END_OP
    ensures s.CalcStmt? ==> r == Code(s.exp) + [END_OP]
    ensures s.LetStmt? ==> r[..|r| - 1] == Code(s.exp) + [SET_OP, CharOf(VarIdx(s.name))]
  {
    match s
    case CalcStmt(e) => Code(e) + [END_OP]
    case LetStmt(n, e) =>
      var r := Code(e) + [SET_OP, CharOf(VarIdx(n)), END_OP];
      assert r[..|r| - 1] == Code(e) + [SET_OP, CharOf(VarIdx(n))];
      r
  }

  /** How run_ins ends: the top of the stack at END with the environment,
      a trap, or no defined outcome (code or stack exhausted, an index
      outside the environment, or an unknown opcode, on which the C loop
      spins forever). */
  datatype Halt = Halted(value: int, env: seq<int>) | Trapped(msg: string) | Stuck

  /** run_ins from `pc` with `stack`. */
  function Exec(code: seq<Byte>, pc: nat, stack: seq<int>, env: seq<int>): Halt
    decreases |code| - pc
  {
    if pc >= |code| then Stuck
    else
      var op := code[pc];
      if op == LIT_OP then
        if pc + 5 > |code| then Stuck
        else Exec(code, pc + 5, stack + [LitValue(code[pc + 1], code[pc + 2], code[pc + 3], code[pc + 4])], env)
      else if op == GET_OP then
        if pc + 2 > |code| || !(0 <= Signed8(code[pc + 1]) < |env|) then Stuck
        else Exec(code, pc + 2, stack + [env[Signed8(code[pc + 1])]], env)
      else if op == SET_OP then
        if pc + 2 > |code| || !(0 <= Signed8(code[pc + 1]) < |env|) || stack == [] then Stuck
        else Exec(code, pc + 2, stack, env[Signed8(code[pc + 1]) := stack[|stack| - 1]])
      else if ADD_OP <= op <= DIV_OP then
        if |stack| < 2 then Stuck
        else match Arith(OpOfCode(op), stack[|stack| - 2], stack[|stack| - 1])
          case Fatal(m) => Trapped(m)
          case Ok(v) => Exec(code, pc + 1, stack[..|stack| - 2] + [v], env)
      else if op == END_OP then
        if stack == [] then Stuck else Halted(stack[|stack| - 1], env)
      else Stuck
  }

  /** The outcome run_stmt gives, as a halt of the machine. */
  function HaltOf(r: Result<(int, seq<int>)>): Halt
  {
    match r
    case Ok(v) => Halted(v.0, v.1)
    case Fatal(m) => Trapped(m)
  }

  /** The expression whose value the code of `e` computes: every literal
      replaced by the value run_ins decodes from its bytes. */
  function Decoded(e: Exp): (r: Exp)
    ensures WfExp(e) ==> WfExp(r)
  {
    match e
    case BinExp(op, a, b) => BinExp(op, Decoded(a), Decoded(b))
    case IntExp(v) => var b := LitBytes(v); IntExp(LitValue(b[0], b[1], b[2], b[3]))
    case VarExp(n) => e
  }

  function DecodedStmt(s: Stmt): (r: Stmt)
    ensures WfStmt(s) ==> WfStmt(r)
  {
    match s
    case CalcStmt(e) => CalcStmt(Decoded(e))
    case LetStmt(n, e) => LetStmt(n, Decoded(e))
  }

  /** `u` sits in `code` at `pc`. */
  predicate Holds<T(==)>(code: seq<T>, pc: nat, u: seq<T>)
  {
    pc + |u| <= |code| && code[pc..pc + |u|] == u
  }

  lemma HoldsFits<T>(code: seq<T>, pc: nat, u: seq<T>)
    requires Holds(code, pc, u)
    ensures pc + |u| <= |code|
  {
  }

  lemma HoldsSplit<T>(code: seq<T>, pc: nat, u: seq<T>, v: seq<T>)
    requires Holds(code, pc, u + v)
    ensures Holds(code, pc, u) && Holds(code, pc + |u|, v)
  {
    assert code[pc..pc + |u|] == (u + v)[..|u|];
    assert code[pc + |u|..pc + |u| + |v|] == (u + v)[|u|..];
  }

  lemma EvalBin(op: Op, a: Exp, b: Exp, env: seq<int>)
    requires EnvOk(env) && WfExp(a) && WfExp(b)
    ensures Eval(BinExp(op, a, b), env) ==
      if Eval(a, env).Fatal? then Eval(a, env)
      else if Eval(b, env).Fatal? then Eval(b, env)
      else Arith(op, Eval(a, env).value, Eval(b, env).value)
  {
  }

  /** One binary operator instruction. */
  lemma ExecBin(code: seq<Byte>, pc: nat, stack: seq<int>, x: int, y: int, env: seq<int>, op: Op)
    requires pc < |code| && code[pc] == OpCode(op)
    ensures Exec(code, pc, stack + [x, y], env) ==
      match Arith(op, x, y)
      case Ok(v) => Exec(code, pc + 1, stack + [v], env)
      case Fatal(m) => Trapped(m)
  {
    var st := stack + [x, y];
    assert st[|st| - 2] == x && st[|st| - 1] == y && st[..|st| - 2] == stack;
  }

  /** The code of `e` at `pc` pushes the value of the decoded expression,
      or traps as its evaluation does. */
  lemma {:induction false} ExecCode(e: Exp, code: seq<Byte>, pc: nat, stack: seq<int>, env: seq<int>)
    requires EnvOk(env) && WfExp(e) && Holds(code, pc, Code(e))
    ensures Exec(code, pc, stack, env) ==
      match Eval(Decoded(e), env)
      case Ok(v) => Exec(code, pc + |Code(e)|, stack + [v], env)
      case Fatal(m) => Trapped(m)
    decreases e
  {
    hide Exec, Eval, Arith, LitValue, LitBytes, EnvOk;
    match e
    case BinExp(op, a, b) =>
      var ca, cb := Code(a), Code(b);
      HoldsSplit(code, pc, ca + cb, [OpCode(op)]);
      HoldsSplit(code, pc, ca, cb);
      EvalBin(op, Decoded(a), Decoded(b), env);
      ExecCode(a, code, pc, stack, env);
      if Eval(Decoded(a), env).Ok? {
        var x := Eval(Decoded(a), env).value;
        ExecCode(b, code, pc + |ca|, stack + [x], env);
        if Eval(Decoded(b), env).Ok? {
          var y := Eval(Decoded(b), env).value;
          assert code[pc + |ca| + |cb|] == OpCode(op);
          assert stack + [x] + [y] == stack + [x, y];
          ExecBin(code, pc + |ca| + |cb|, stack, x, y, env, op);
        }
      }
    case IntExp(v) =>
      ExecLit(code, pc, stack, env, v);
    case VarExp(n) =>
      ExecGet(code, pc, stack, env, n);
  }

  lemma ExecLit(code: seq<Byte>, pc: nat, stack: seq<int>, env: seq<int>, v: int)
    requires EnvOk(env) && Holds(code, pc, Code(IntExp(v)))
    ensures Eval(Decoded(IntExp(v)), env) == Ok(Decoded(IntExp(v)).value)
    ensures Exec(code, pc, stack, env) == Exec(code, pc + 5, stack + [Decoded(IntExp(v)).value], env)
  {
    hide LitValue, Bytes32;
    var b := LitBytes(v);
    assert code[pc] == LIT_OP;
    assert code[pc + 1] == b[0] && code[pc + 2] == b[1] && code[pc + 3] == b[2] && code[pc + 4] == b[3];
  }

  lemma ExecGet(code: seq<Byte>, pc: nat, stack: seq<int>, env: seq<int>, n: string)
    requires EnvOk(env) && ValidName(n) && Holds(code, pc, Code(VarExp(n)))
    ensures Eval(VarExp(n), env) == Ok(env[VarIdx(n)])
    ensures Exec(code, pc, stack, env) == Exec(code, pc + 2, stack + [env[VarIdx(n)]], env)
  {
    assert code[pc] == GET_OP && code[pc + 1] == CharOf(VarIdx(n));
  }

  /** compile is correct: the compiled code halts with the value and the
      environment run_stmt gives for the decoded statement, or traps as
      it does, whatever follows the code in the buffer. */
  lemma CompileCorrect(s: Stmt, code: seq<Byte>, env: seq<int>)
    requires EnvOk(env) && WfStmt(s) && Holds(code, 0, Compiled(s))
    ensures Exec(code, 0, [], env) == HaltOf(RunStmt(DecodedStmt(s), env))
  {
    hide Exec, Eval, LitValue, LitBytes, Code;
    var c := Code(s.exp);
    var tail := if s.CalcStmt? then [END_OP] else [SET_OP, CharOf(VarIdx(s.name)), END_OP];
    assert Compiled(s) == c + tail;
    HoldsSplit(code, 0, c, tail);
    ExecCode(s.exp, code, 0, [], env);
    if Eval(Decoded(s.exp), env).Ok? {
      var v := Eval(Decoded(s.exp), env).value;
      assert [] + [v] == [v];
      if s.CalcStmt? {
        ExecEnd(code, |c|, [v], env);
      } else {
        HoldsSplit(code, |c|, [SET_OP, CharOf(VarIdx(s.name))], [END_OP]);
        ExecSet(code, |c|, [v], env, VarIdx(s.name));
        ExecEnd(code, |c| + 2, [v], env[VarIdx(s.name) := v]);
      }
    }
  }

  lemma ExecSet(code: seq<Byte>, pc: nat, stack: seq<int>, env: seq<int>, i: int)
    requires Holds(code, pc, [SET_OP, CharOf(i)]) && 0 <= i < |env| && i < 128 && stack != []
    ensures Exec(code, pc, stack, env) == Exec(code, pc + 2, stack, env[i := stack[|stack| - 1]])
  {
    assert code[pc] == SET_OP && code[pc + 1] == CharOf(i);
  }

  lemma ExecEnd(code: seq<Byte>, pc: nat, stack: seq<int>, env: seq<int>)
    requires Holds(code, pc, [END_OP]) && stack != []
    ensures Exec(code, pc, stack, env) == Halted(stack[|stack| - 1], env)
  {
    assert code[pc] == END_OP;
  }

  /** Congruent values wrap to the same C int. */
  lemma WrapCongruent(x: int, y: int, k: int)
    requires x - y == TWO_32 * k
    ensures Wrap32(x) == Wrap32(y)
  {
    assert x % TWO_32 == y % TWO_32;
  }

  /** A literal comes back from its four bytes exactly when its three low
      bytes are below 128: run_ins sign-extends each byte, so a low byte
      of 128 or more takes 256 times its place value off the result. */
  lemma {:induction false} LitRoundTrip(v: int)
    requires IsInt32(v)
    ensures var b := LitBytes(v);
      LitValue(b[0], b[1], b[2], b[3]) == v <==> b[1] < 128 && b[2] < 128 && b[3] < 128
  {
    LitBytesHighFirst(v);
    var b := Bytes32(v);
    Int(v);
    hide Bytes32, Wrap32, Signed8, LE32U, LE32;
    var d := SignLoss(b);
    var k := v / TWO_32;
    var sum := Signed8(b[3]) * TWO_24 + Signed8(b[2]) * TWO_16 + Signed8(b[1]) * TWO_8 + Signed8(b[0]);
    assert LE32U(b) == v - TWO_32 * k;
    WrapCongruent(sum, v - d, -k - (if b[3] >= 128 then 1 else 0));
    WrapOffset(v, d);
  }

  /** What sign extension takes off the unsigned value of four bytes,
      below 2^32: 256 times the place value of each low byte of 128 or more. */
  lemma SignLoss(b: seq<Byte>) returns (d: int)
    requires |b| == 4
    ensures 0 <= d < TWO_32 && (d == 0 <==> b[0] < 128 && b[1] < 128 && b[2] < 128)
    ensures Signed8(b[3]) * TWO_24 + Signed8(b[2]) * TWO_16 + Signed8(b[1]) * TWO_8 + Signed8(b[0])
      == LE32U(b) - d - TWO_32 * (if b[3] >= 128 then 1 else 0)
  {
    var c0: int := if b[0] >= 128 then 1 else 0;
    var c1: int := if b[1] >= 128 then 1 else 0;
    var c2: int := if b[2] >= 128 then 1 else 0;
    var c3: int := if b[3] >= 128 then 1 else 0;
    d := TWO_8 * c0 + TWO_16 * c1 + TWO_24 * c2;
  }

  /** Taking a positive amount below 2^32 off a C int changes its wrap. */
  lemma WrapOffset(v: int, d: int)
    requires IsInt32(v) && 0 <= d < TWO_32
    ensures Wrap32(v - d) == v <==> d == 0
  {
  }

  /** A literal with a low byte of 128 decodes to something else. */
  lemma LitSigned()
    ensures Decoded(IntExp(128)) == IntExp(-128)
  {
    assert LitBytes(128) == [0, 0, 0, 128];
  }

  /** Every literal of the expression survives the trip through its bytes. */
  predicate ExactLits(e: Exp)
  {
    match e
    case BinExp(_, a, b) => ExactLits(a) && ExactLits(b)
    case IntExp(v) => var b := LitBytes(v); b[1] < 128 && b[2] < 128 && b[3] < 128
    case VarExp(_) => true
  }

  lemma {:induction false} DecodedExact(e: Exp)
    requires WfExp(e) && ExactLits(e)
    ensures Decoded(e) == e
  {
    match e
    case BinExp(_, a, b) =>
      DecodedExact(a);
      DecodedExact(b);
    case IntExp(v) =>
      LitRoundTrip(v);
    case VarExp(_) =>
  }

  /** For statements whose literals survive the trip, the compiled code
      computes exactly what run_stmt does. */
  lemma CompileExact(s: Stmt, code: seq<Byte>, env: seq<int>)
    requires EnvOk(env) && WfStmt(s) && ExactLits(s.exp) && Holds(code, 0, Compiled(s))
    ensures Exec(code, 0, [], env) == HaltOf(RunStmt(s, env))
  {
    CompileCorrect(s, code, env);
    DecodedExact(s.exp);
    assert DecodedStmt(s) == s;
  }

  //============================================================
  // Compiler and machine, in place
  //============================================================

  /** push_ins: writes the code of `e` into `buf` at `at` and returns
      where the code ends. */
  method PushIns(e: Exp, buf: array<Byte>, at: nat) returns (end: nat)
    requires at + |Code(e)| <= buf.Length
    modifies buf
    ensures end == at + |Code(e)| && buf[at..end] == Code(e)
    ensures buf[..at] == old(buf[..at]) && buf[end..] == old(buf[end..])
    decreases e
  {
    match e
    case BinExp(op, a, b) =>
      var mid := PushIns(a, buf, at);
      ghost var afterA := buf[..];
      end := PushIns(b, buf, mid);
      ghost var afterB := buf[..];
      buf[end] := OpCode(op);
      end := end + 1;
      Spliced(old(buf[..]), afterA, afterB, buf[..], at, mid, end, Code(a), Code(b), OpCode(op));
    case IntExp(v) =>
      buf[at] := LIT_OP;
      buf[at + 1] := CharOf(v / TWO_24);
      buf[at + 2] := CharOf(v / TWO_16);
      buf[at + 3] := CharOf(v / TWO_8);
      buf[at + 4] := CharOf(v);
      end := at + 5;
      assert buf[at..end] == [LIT_OP] + LitBytes(v);
    case VarExp(n) =>
      buf[at] := GET_OP;
      buf[at + 1] := CharOf(VarIdx(n));
      end := at + 2;
  }

  /** The buffer after push_ins's three steps for a binary expression. */
  lemma Spliced(b0: seq<Byte>, b1: seq<Byte>, b2: seq<Byte>, b3: seq<Byte>, at: nat, mid: nat, end: nat,
                ca: seq<Byte>, cb: seq<Byte>, op: Byte)
    requires at + |ca| == mid && mid + |cb| + 1 == end <= |b0| == |b1| == |b2| == |b3|
    requires b1[at..mid] == ca && b1[..at] == b0[..at] && b1[mid..] == b0[mid..]
    requires b2[mid..end - 1] == cb && b2[..mid] == b1[..mid] && b2[end - 1..] == b1[end - 1..]
    requires b3 == b2[end - 1 := op]
    ensures b3[at..end] == ca + cb + [op]
    ensures b3[..at] == b0[..at] && b3[end..] == b0[end..]
  {
    assert b3[at..end] == b2[at..mid] + b2[mid..end - 1] + [op];
    assert b2[at..mid] == b1[..mid][at..];
    assert b3[end..] == b2[end..];
    assert b2[end..] == b1[end - 1..][1..];
    assert b1[end..] == b0[mid..][end - mid..];
  }

  /** compile: a fresh code buffer holding the statement's code. */
  method Compile(s: Stmt) returns (code: array<Byte>)
    requires |Compiled(s)| <= CODE_SIZE
    ensures fresh(code) && code.Length == CODE_SIZE && Holds(code[..], 0, Compiled(s))
  {
    code := new Byte[CODE_SIZE];
    var end := PushIns(s.exp, code, 0);
    if s.LetStmt? {
      code[end] := SET_OP;
      code[end + 1] := CharOf(VarIdx(s.name));
      end := end + 2;
    }
    code[end] := END_OP;
    assert code[..][0..|Compiled(s)|] == Compiled(s);
  }

  /** run_ins: runs the code against `env` with a stack that starts
      empty. */
  method RunIns(code: array<Byte>, env: array<int>) returns (r: Halt)
    modifies env
    ensures r == Exec(code[..], 0, [], old(env[..]))
    ensures r.Halted? ==> env[..] == r.env
  {
    var pc := 0;
    var stack: seq<int> := [];
    while pc < code.Length
      invariant Exec(code[..], 0, [], old(env[..])) == Exec(code[..], pc, stack, env[..])
      decreases code.Length - pc
    {
      var op := code[pc];
      if op == LIT_OP {
        if pc + 5 > code.Length {
          return Stuck;
        }
        stack := stack + [LitValue(code[pc + 1], code[pc + 2], code[pc + 3], code[pc + 4])];
        pc := pc + 5;
      } else if op == GET_OP {
        if pc + 2 > code.Length || !(0 <= Signed8(code[pc + 1]) < env.Length) {
          return Stuck;
        }
        stack := stack + [env[Signed8(code[pc + 1])]];
        pc := pc + 2;
      } else if op == SET_OP {
        if pc + 2 > code.Length || !(0 <= Signed8(code[pc + 1]) < env.Length) || stack == [] {
          return Stuck;
        }
        env[Signed8(code[pc + 1])] := stack[|stack| - 1];
        pc := pc + 2;
      } else if ADD_OP <= op <= DIV_OP {
        if |stack| < 2 {
          return Stuck;
        }
        var v := Arith(OpOfCode(op), stack[|stack| - 2], stack[|stack| - 1]);
        if v.Fatal? {
          return Trapped(v.msg);
        }
        stack := stack[..|stack| - 2] + [v.value];
        pc := pc + 1;
      } else if op == END_OP {
        if stack == [] {
          return Stuck;
        }
        return Halted(stack[|stack| - 1], env[..]);
      } else {
        return Stuck;
      }
    }
    r := Stuck;
  }

  /** compile_run_stmt: compiles the statement and runs it on `env`. */
  method CompileRun(s: Stmt, env: array<int>) returns (r: Halt)
    requires EnvOk(env[..]) && WfStmt(s) && |Compiled(s)| <= CODE_SIZE
    modifies env
    ensures r == HaltOf(RunStmt(DecodedStmt(s), old(env[..])))
    ensures r.Halted? ==> env[..] == r.env
  {
    var code := Compile(s);
    CompileCorrect(s, code[..], env[..]);
    r := RunIns(code, env);
  }
}
