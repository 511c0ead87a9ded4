/**
 * `when` conditions: the printer (apps/server/src/keybindings.ts:161-172), and the
 * tokenizer and recursive-descent parser that read them back
 * (packages/shared/src/keybindings.ts:116-248).
 */
module WhenExpression {
  import opened Prelude
  import opened Text

  // MAX_WHEN_EXPRESSION_DEPTH (packages/contracts/src/keybindings.ts:6)
  const MAX_DEPTH: nat := 64

  datatype Node =
    | Identifier(name: string)
    | Not(node: Node)
    | And(left: Node, right: Node)
    | Or(left: Node, right: Node)

  datatype Token = IdentifierToken(value: string) | NotToken | AndToken | OrToken | LeftParen | RightParen

  function Encode(node: Node): string {
    match node
    case Identifier(name) => name
    case Not(n) => "!(" + Encode(n) + ")"
    case And(l, r) => "(" + Encode(l) + " && " + Encode(r) + ")"
    case Or(l, r) => "(" + Encode(l) + " || " + Encode(r) + ")"
  }

  // ----- the tokenizer -----

  predicate IsIdentifierStart(c: char) {
    IsLetter(c) || c == '_'
  }

  predicate IsIdentifierChar(c: char) {
    IsIdentifierStart(c) || IsDigit(c) || c == '.' || c == '-'
  }

  predicate IsIdentifier(s: string) {
    s != [] && IsIdentifierStart(s[0]) && forall k :: 0 <= k < |s| ==> IsIdentifierChar(s[k])
  }

  function IdentifierEnd(s: string, i: nat): (end: nat)
    requires i <= |s|
    ensures i <= end <= |s|
    ensures forall k :: i <= k < end ==> IsIdentifierChar(s[k])
    ensures end < |s| ==> !IsIdentifierChar(s[end])
    decreases |s| - i
  {
    if i < |s| && IsIdentifierChar(s[i]) then IdentifierEnd(s, i + 1) else i
  }

  /** The token at `i`, which is no space, and where it ends. */
  function TokenAt(s: string, i: nat): (r: Option<(Token, nat)>)
    requires i < |s|
    ensures r.Some? ==> i < r.value.1 <= |s|
  {
    if i + 1 < |s| && s[i] == '&' && s[i + 1] == '&' then Some((AndToken, i + 2))
    else if i + 1 < |s| && s[i] == '|' && s[i + 1] == '|' then Some((OrToken, i + 2))
    else if s[i] == '!' then Some((NotToken, i + 1))
    else if s[i] == '(' then Some((LeftParen, i + 1))
    else if s[i] == ')' then Some((RightParen, i + 1))
    else if IsIdentifierStart(s[i]) then
      var end := IdentifierEnd(s, i);
      Some((IdentifierToken(s[i..end]), end))
    else None
  }

  function TokensFrom(s: string, i: nat): Option<seq<Token>>
    requires i <= |s|
    decreases |s| - i
  {
    if i == |s| then Some([])
    else if IsSpace(s[i]) then TokensFrom(s, i + 1)
    else
      match TokenAt(s, i)
      case None => None
      case Some((token, end)) =>
        match TokensFrom(s, end)
        case None => None
        case Some(rest) => Some([token] + rest)
  }

  ghost function Prepend(tokens: seq<Token>, rest: Option<seq<Token>>): Option<seq<Token>> {
    match rest
    case None => None
    case Some(more) => Some(tokens + more)
  }

  lemma PrependNothing(rest: Option<seq<Token>>)
    ensures Prepend([], rest) == rest
  {
    if rest.Some? {
      assert [] + rest.value == rest.value;
    }
  }

  lemma PrependTwice(a: seq<Token>, b: seq<Token>, rest: Option<seq<Token>>)
    ensures Prepend(a, Prepend(b, rest)) == Prepend(a + b, rest)
  {
    if rest.Some? {
      assert a + (b + rest.value) == a + b + rest.value;
    }
  }

  method Tokenize(expression: string) returns (r: Option<seq<Token>>)
    ensures r == TokensFrom(expression, 0)
  {
    var tokens: seq<Token> := [];
    var index := 0;
    PrependNothing(TokensFrom(expression, 0));
    while index < |expression|
      invariant 0 <= index <= |expression|
      invariant TokensFrom(expression, 0) == Prepend(tokens, TokensFrom(expression, index))
    {
      if IsSpace(expression[index]) {
        index := index + 1;
      } else {
        match TokenAt(expression, index)
        case None => return None;
        case Some((token, end)) =>
          PrependTwice(tokens, [token], TokensFrom(expression, end));
          tokens := tokens + [token];
          index := end;
      }
    }
    assert tokens + [] == tokens;
    return Some(tokens);
  }

  // ----- the parser -----

  datatype Parsed = Parsed(node: Node, index: nat)

  function NotRun(ts: seq<Token>, i: nat): (end: nat)
    requires i <= |ts|
    ensures i <= end <= |ts|
    ensures end < |ts| ==> ts[end] != NotToken
    decreases |ts| - i
  {
    if i < |ts| && ts[i] == NotToken then NotRun(ts, i + 1) else i
  }

  function Negate(node: Node, count: nat): Node
    decreases count
  {
    if count == 0 then node else Negate(Not(node), count - 1)
  }

  function ParsePrimary(ts: seq<Token>, i: nat, depth: nat): (r: Option<Parsed>)
    requires i <= |ts|
    ensures r.Some? ==> i < r.value.index <= |ts|
    decreases |ts| - i, 0
  {
    if depth > MAX_DEPTH || i == |ts| then None
    else
      match ts[i]
      case IdentifierToken(name) => Some(Parsed(Identifier(name), i + 1))
      case LeftParen =>
        (match ParseOr(ts, i + 1, depth + 1)
         case None => None
         case Some(p) =>
           if p.index < |ts| && ts[p.index] == RightParen then Some(Parsed(p.node, p.index + 1)) else None)
      case _ => None
  }

  function ParseUnary(ts: seq<Token>, i: nat, depth: nat): (r: Option<Parsed>)
    requires i <= |ts|
    ensures r.Some? ==> i < r.value.index <= |ts|
    decreases |ts| - i, 1
  {
    var j := NotRun(ts, i);
    if j - i > MAX_DEPTH then None
    else
      match ParsePrimary(ts, j, depth)
      case None => None
      case Some(p) => Some(Parsed(Negate(p.node, j - i), p.index))
  }

  function AndLoop(ts: seq<Token>, left: Node, i: nat, depth: nat): (r: Option<Parsed>)
    requires i <= |ts|
    ensures r.Some? ==> i <= r.value.index <= |ts|
    decreases |ts| - i, 2
  {
    if i < |ts| && ts[i] == AndToken then
      match ParseUnary(ts, i + 1, depth)
      case None => None
      case Some(p) => AndLoop(ts, And(left, p.node), p.index, depth)
    else Some(Parsed(left, i))
  }

  function ParseAnd(ts: seq<Token>, i: nat, depth: nat): (r: Option<Parsed>)
    requires i <= |ts|
    ensures r.Some? ==> i < r.value.index <= |ts|
    decreases |ts| - i, 3
  {
    match ParseUnary(ts, i, depth)
    case None => None
    case Some(p) => AndLoop(ts, p.node, p.index, depth)
  }

  function OrLoop(ts: seq<Token>, left: Node, i: nat, depth: nat): (r: Option<Parsed>)
    requires i <= |ts|
    ensures r.Some? ==> i <= r.value.index <= |ts|
    decreases |ts| - i, 4
  {
    if i < |ts| && ts[i] == OrToken then
      match ParseAnd(ts, i + 1, depth)
      case None => None
      case Some(p) => OrLoop(ts, Or(left, p.node), p.index, depth)
    else Some(Parsed(left, i))
  }

  function ParseOr(ts: seq<Token>, i: nat, depth: nat): (r: Option<Parsed>)
    requires i <= |ts|
    ensures r.Some? ==> i < r.value.index <= |ts|
    decreases |ts| - i, 5
  {
    match ParseAnd(ts, i, depth)
    case None => None
    case Some(p) => OrLoop(ts, p.node, p.index, depth)
  }

  function Parse(expression: string): Option<Node> {
    match TokensFrom(expression, 0)
    case None => None
    case Some(ts) =>
      if ts == [] then None
      else
        match ParseOr(ts, 0, 0)
        case None => None
        case Some(p) => if p.index == |ts| then Some(p.node) else None
  }

  /** What a parse leaves behind: the node, and the position behind it. */
  ghost predicate Agrees(expected: Option<Parsed>, node: Option<Node>, index: nat) {
    match expected
    case None => node.None?
    case Some(p) => node == Some(p.node) && index == p.index
  }

  /** The parser's functions share the position; it is not restored when one fails. */
  class Parser {
    const tokens: seq<Token>
    var index: nat

    constructor (tokens: seq<Token>)
      ensures this.tokens == tokens && index == 0
    {
      this.tokens, this.index := tokens, 0;
    }

    method Primary(depth: nat) returns (r: Option<Node>)
      requires index <= |tokens|
      modifies this
      ensures old(index) <= index <= |tokens| && Agrees(ParsePrimary(tokens, old(index), depth), r, index)
      decreases |tokens| - index, 0
    {
      if depth > MAX_DEPTH || index == |tokens| {
        return None;
      }
      var token := tokens[index];
      if token.IdentifierToken? {
        index := index + 1;
        return Some(Identifier(token.value));
      }
      if token.LeftParen? {
        index := index + 1;
        var node := Disjunction(depth + 1);
        if node.None? || index == |tokens| || tokens[index] != RightParen {
          return None;
        }
        index := index + 1;
        return node;
      }
      return None;
    }

    method Unary(depth: nat) returns (r: Option<Node>)
      requires index <= |tokens|
      modifies this
      ensures old(index) <= index <= |tokens| && Agrees(ParseUnary(tokens, old(index), depth), r, index)
      decreases |tokens| - index, 1
    {
      var notCount := 0;
      ghost var start := index;
      while index < |tokens| && tokens[index] == NotToken
        invariant start <= index <= |tokens| && notCount == index - start <= MAX_DEPTH
        invariant NotRun(tokens, start) == NotRun(tokens, index)
      {
        index := index + 1;
        notCount := notCount + 1;
        if notCount > MAX_DEPTH {
          return None;
        }
      }
      r := Primary(depth);
      if r.None? {
        return None;
      }
      var node := r.value;
      while notCount > 0
        invariant Negate(node, notCount) == Negate(r.value, NotRun(tokens, start) - start)
      {
        node := Not(node);
        notCount := notCount - 1;
      }
      return Some(node);
    }

    method Conjunction(depth: nat) returns (r: Option<Node>)
      requires index <= |tokens|
      modifies this
      ensures old(index) <= index <= |tokens| && Agrees(ParseAnd(tokens, old(index), depth), r, index)
      decreases |tokens| - index, 2
    {
      ghost var expected := ParseAnd(tokens, index, depth);
      r := Unary(depth);
      if r.None? {
        return None;
      }
      var left := r.value;
      while index < |tokens| && tokens[index] == AndToken
        invariant old(index) <= index <= |tokens|
        invariant AndLoop(tokens, left, index, depth) == expected
        decreases |tokens| - index
      {
        index := index + 1;
        var right := Unary(depth);
        if right.None? {
          return None;
        }
        left := And(left, right.value);
      }
      return Some(left);
    }

    method Disjunction(depth: nat) returns (r: Option<Node>)
      requires index <= |tokens|
      modifies this
      ensures old(index) <= index <= |tokens| && Agrees(ParseOr(tokens, old(index), depth), r, index)
      decreases |tokens| - index, 3
    {
      ghost var expected := ParseOr(tokens, index, depth);
      r := Conjunction(depth);
      if r.None? {
        return None;
      }
      var left := r.value;
      while index < |tokens| && tokens[index] == OrToken
        invariant old(index) <= index <= |tokens|
        invariant OrLoop(tokens, left, index, depth) == expected
        decreases |tokens| - index
      {
        index := index + 1;
        var right := Conjunction(depth);
        if right.None? {
          return None;
        }
        left := Or(left, right.value);
      }
      return Some(left);
    }
  }

  method ParseWhenExpression(expression: string) returns (r: Option<Node>)
    ensures r == Parse(expression)
  {
    var tokens := Tokenize(expression);
    if tokens.None? || |tokens.value| == 0 {
      return None;
    }
    var parser := new Parser(tokens.value);
    r := parser.Disjunction(0);
    if r.None? || parser.index != |tokens.value| {
      return None;
    }
  }

  // ----- what the printer prints, token by token -----

  ghost function Tokens(node: Node): seq<Token> {
    match node
    case Identifier(name) => [IdentifierToken(name)]
    case Not(n) => [NotToken, LeftParen] + Tokens(n) + [RightParen]
    case And(l, r) => [LeftParen] + Tokens(l) + [AndToken] + Tokens(r) + [RightParen]
    case Or(l, r) => [LeftParen] + Tokens(l) + [OrToken] + Tokens(r) + [RightParen]
  }

  ghost predicate OrdinaryNames(node: Node) {
    match node
    case Identifier(name) => IsIdentifier(name)
    case Not(n) => OrdinaryNames(n)
    case And(l, r) => OrdinaryNames(l) && OrdinaryNames(r)
    case Or(l, r) => OrdinaryNames(l) && OrdinaryNames(r)
  }

  lemma NameTokenizes(s: string, i: nat, name: string)
    requires IsIdentifier(name) && Has(s, i, name)
    requires i + |name| < |s| ==> !IsIdentifierChar(s[i + |name|])
    ensures TokensFrom(s, i) == Prepend([IdentifierToken(name)], TokensFrom(s, i + |name|))
  {
    HasChars(s, i, name);
    assert IdentifierEnd(s, i) == i + |name|;
  }

  /** A printed node not followed by an identifier character is read as its tokens. */
  lemma {:induction false} EncodeTokenizes(s: string, i: nat, node: Node)
    requires OrdinaryNames(node) && Has(s, i, Encode(node))
    requires i + |Encode(node)| < |s| ==> !IsIdentifierChar(s[i + |Encode(node)|])
    ensures TokensFrom(s, i) == Prepend(Tokens(node), TokensFrom(s, i + |Encode(node)|))
    decreases node, 2
  {
    match node
    case Identifier(name) => NameTokenizes(s, i, name);
    case Not(_) => NotTokenizes(s, i, node);
    case And(l, r) => BinaryTokenizes(s, i, node, l, r, " && ", AndToken);
    case Or(l, r) => BinaryTokenizes(s, i, node, l, r, " || ", OrToken);
  }

  lemma ParenTokenizes(s: string, i: nat)
    requires i < |s|
    ensures s[i] == '(' ==> TokensFrom(s, i) == Prepend([LeftParen], TokensFrom(s, i + 1))
    ensures s[i] == ')' ==> TokensFrom(s, i) == Prepend([RightParen], TokensFrom(s, i + 1))
    ensures s[i] == '!' ==> TokensFrom(s, i) == Prepend([NotToken], TokensFrom(s, i + 1))
  {
  }

  lemma OperatorTokenizes(s: string, i: nat)
    requires i + 4 <= |s| && s[i] == ' ' && s[i + 3] == ' '
    ensures s[i + 1] == '&' && s[i + 2] == '&' ==> TokensFrom(s, i) == Prepend([AndToken], TokensFrom(s, i + 4))
    ensures s[i + 1] == '|' && s[i + 2] == '|' ==> TokensFrom(s, i) == Prepend([OrToken], TokensFrom(s, i + 4))
  {
    assert TokensFrom(s, i) == TokensFrom(s, i + 1);
    if (s[i + 1] == '&' && s[i + 2] == '&') || (s[i + 1] == '|' && s[i + 2] == '|') {
      assert TokensFrom(s, i + 3) == TokensFrom(s, i + 4);
    }
  }

  /** An opening parenthesis and the node behind it. */
  lemma {:induction false} OpenTokenizes(s: string, i: nat, n: Node)
    requires OrdinaryNames(n) && i < |s| && s[i] == '(' && Has(s, i + 1, Encode(n))
    requires i + 1 + |Encode(n)| < |s| ==> !IsIdentifierChar(s[i + 1 + |Encode(n)|])
    ensures TokensFrom(s, i) == Prepend([LeftParen] + Tokens(n), TokensFrom(s, i + 1 + |Encode(n)|))
    decreases n, 3
  {
    ParenTokenizes(s, i);
    EncodeTokenizes(s, i + 1, n);
    PrependTwice([LeftParen], Tokens(n), TokensFrom(s, i + 1 + |Encode(n)|));
  }

  /** A node and the closing parenthesis behind it. */
  lemma {:induction false} CloseTokenizes(s: string, i: nat, n: Node)
    requires OrdinaryNames(n) && Has(s, i, Encode(n))
    requires i + |Encode(n)| < |s| && s[i + |Encode(n)|] == ')'
    ensures TokensFrom(s, i) == Prepend(Tokens(n) + [RightParen], TokensFrom(s, i + |Encode(n)| + 1))
    decreases n, 3
  {
    EncodeTokenizes(s, i, n);
    ParenTokenizes(s, i + |Encode(n)|);
    PrependTwice(Tokens(n), [RightParen], TokensFrom(s, i + |Encode(n)| + 1));
  }

  lemma NegatedOpenTokenizes(s: string, i: nat)
    requires i + 1 < |s| && s[i] == '!' && s[i + 1] == '('
    ensures TokensFrom(s, i) == Prepend([NotToken, LeftParen], TokensFrom(s, i + 2))
  {
    ParenTokenizes(s, i);
    ParenTokenizes(s, i + 1);
    PrependTwice([NotToken], [LeftParen], TokensFrom(s, i + 2));
    assert [NotToken] + [LeftParen] == [NotToken, LeftParen];
  }

  lemma {:induction false} NotTokenizes(s: string, i: nat, node: Node)
    requires node.Not? && OrdinaryNames(node) && Has(s, i, Encode(node))
    ensures TokensFrom(s, i) == Prepend(Tokens(node), TokensFrom(s, i + |Encode(node)|))
    decreases node, 0
  {
    var n := node.node;
    HasConcat(s, i, "!(" + Encode(n), ")");
    HasConcat(s, i, "!(", Encode(n));
    HasChars(s, i, "!(");
    HasChars(s, i + 2 + |Encode(n)|, ")");
    NegatedOpenTokenizes(s, i);
    CloseTokenizes(s, i + 2, n);
    PrependTwice([NotToken, LeftParen], Tokens(n) + [RightParen], TokensFrom(s, i + 3 + |Encode(n)|));
    assert [NotToken, LeftParen] + (Tokens(n) + [RightParen]) == Tokens(node);
  }

  /** Where the parts of a printed binary node lie. */
  lemma BinaryHas(s: string, i: nat, l: string, op: string, r: string) returns (a: nat, b: nat, c: nat)
    requires |op| == 4 && Has(s, i, "(" + l + op + r + ")")
    ensures a == i + 1 + |l| && b == a + 4 && c == b + |r| < |s|
    ensures s[i] == '(' && Has(s, i + 1, l) && Has(s, b, r) && s[c] == ')'
    ensures s[a] == op[0] && s[a + 1] == op[1] && s[a + 2] == op[2] && s[a + 3] == op[3]
  {
    a := i + 1 + |l|;
    b := a + 4;
    c := b + |r|;
    HasConcat(s, i, "(" + l + op + r, ")");
    HasConcat(s, i, "(" + l + op, r);
    HasConcat(s, i, "(" + l, op);
    HasConcat(s, i, "(", l);
    HasChars(s, i, "(");
    HasChars(s, a, op);
    HasChars(s, c, ")");
  }

  lemma ReadsChain(s: string, i: nat, x: seq<Token>, j: nat, y: seq<Token>, k: nat)
    requires i <= |s| && j <= |s| && k <= |s|
    requires TokensFrom(s, i) == Prepend(x, TokensFrom(s, j))
    requires TokensFrom(s, j) == Prepend(y, TokensFrom(s, k))
    ensures TokensFrom(s, i) == Prepend(x + y, TokensFrom(s, k))
  {
    PrependTwice(x, y, TokensFrom(s, k));
  }

  /** An opening parenthesis, a node and the operator behind it. */
  lemma {:induction false} OpenOperatorTokenizes(s: string, i: nat, l: Node, a: nat, op: char, token: Token)
    requires OrdinaryNames(l) && i < |s| && s[i] == '(' && Has(s, i + 1, Encode(l))
    requires a == i + 1 + |Encode(l)| && a + 4 <= |s|
    requires s[a] == ' ' && s[a + 1] == op && s[a + 2] == op && s[a + 3] == ' '
    requires (op == '&' && token == AndToken) || (op == '|' && token == OrToken)
    ensures TokensFrom(s, i) == Prepend([LeftParen] + Tokens(l) + [token], TokensFrom(s, a + 4))
    decreases l, 4
  {
    OpenTokenizes(s, i, l);
    OperatorTokenizes(s, a);
    ReadsChain(s, i, [LeftParen] + Tokens(l), a, [token], a + 4);
  }

  /** The same, with the node and the closing parenthesis that follow. */
  lemma {:induction false} PartsTokenize(node: Node, s: string, i: nat, l: Node, a: nat, r: Node, c: nat, op: char, token: Token)
    requires node == And(l, r) || node == Or(l, r)
    requires OrdinaryNames(l) && OrdinaryNames(r)
    requires i < |s| && s[i] == '(' && Has(s, i + 1, Encode(l)) && a == i + 1 + |Encode(l)| && a + 4 <= |s|
    requires s[a] == ' ' && s[a + 1] == op && s[a + 2] == op && s[a + 3] == ' '
    requires (op == '&' && token == AndToken) || (op == '|' && token == OrToken)
    requires Has(s, a + 4, Encode(r)) && c == a + 4 + |Encode(r)| < |s| && s[c] == ')'
    ensures TokensFrom(s, i) == Prepend([LeftParen] + Tokens(l) + [token] + Tokens(r) + [RightParen],
                                        TokensFrom(s, c + 1))
    decreases node, 0
  {
    var b := a + 4;
    OpenOperatorTokenizes(s, i, l, a, op, token);
    CloseTokenizes(s, b, r);
    assert TokensFrom(s, b) == Prepend(Tokens(r) + [RightParen], TokensFrom(s, c + 1));
    JoinBinary(TokensFrom(s, i), Tokens(l), token, TokensFrom(s, b), Tokens(r), TokensFrom(s, c + 1));
  }

  lemma {:induction false} BinaryTokenizes(s: string, i: nat, node: Node, l: Node, r: Node, op: string, token: Token)
    requires node == And(l, r) || node == Or(l, r)
    requires |op| == 4 && op[0] == ' ' && op[3] == ' ' && op[1] == op[2]
    requires (op[1] == '&' && token == AndToken) || (op[1] == '|' && token == OrToken)
    requires OrdinaryNames(l) && OrdinaryNames(r)
    requires Has(s, i, "(" + Encode(l) + op + Encode(r) + ")")
    ensures TokensFrom(s, i) == Prepend([LeftParen] + Tokens(l) + [token] + Tokens(r) + [RightParen],
                                        TokensFrom(s, i + |Encode(l)| + |Encode(r)| + 6))
    decreases node, 1
  {
    var a, b, c := BinaryHas(s, i, Encode(l), op, Encode(r));
    assert c + 1 == i + |Encode(l)| + |Encode(r)| + 6;
    PartsTokenize(node, s, i, l, a, r, c, op[1], token);
  }

  lemma JoinBinary(whole: Option<seq<Token>>, l: seq<Token>, token: Token, middle: Option<seq<Token>>,
                   r: seq<Token>, rest: Option<seq<Token>>)
    requires whole == Prepend([LeftParen] + l + [token], middle)
    requires middle == Prepend(r + [RightParen], rest)
    ensures whole == Prepend([LeftParen] + l + [token] + r + [RightParen], rest)
  {
    PrependTwice([LeftParen] + l + [token], r + [RightParen], rest);
    assert [LeftParen] + l + [token] + (r + [RightParen]) == [LeftParen] + l + [token] + r + [RightParen];
  }

  // ----- reading the tokens back -----

  /** How deeply the printer nests parentheses. */
  ghost function Height(node: Node): nat {
    match node
    case Identifier(_) => 0
    case Not(n) => 1 + Height(n)
    case And(l, r) => 1 + Max(Height(l), Height(r))
    case Or(l, r) => 1 + Max(Height(l), Height(r))
  }

  ghost function IfShallow(node: Node, index: nat, depth: nat): Option<Parsed> {
    if depth + Height(node) <= MAX_DEPTH then Some(Parsed(node, index)) else None
  }

  ghost predicate NoOperatorAt(ts: seq<Token>, i: nat) {
    i < |ts| ==> ts[i] != AndToken && ts[i] != OrToken
  }

  lemma BinaryTokenPositions(ts: seq<Token>, i: nat, l: seq<Token>, op: Token, r: seq<Token>) returns (a: nat, b: nat)
    requires Has(ts, i, [LeftParen] + l + [op] + r + [RightParen])
    ensures a == i + 1 + |l| && b == a + 1 + |r| < |ts|
    ensures ts[i] == LeftParen && Has(ts, i + 1, l) && ts[a] == op && Has(ts, a + 1, r) && ts[b] == RightParen
  {
    a := i + 1 + |l|;
    b := a + 1 + |r|;
    HasConcat(ts, i, [LeftParen] + l + [op] + r, [RightParen]);
    HasConcat(ts, i, [LeftParen] + l + [op], r);
    HasConcat(ts, i, [LeftParen] + l, [op]);
    HasConcat(ts, i, [LeftParen], l);
    HasChars(ts, i, [LeftParen]);
    HasChars(ts, a, [op]);
    HasChars(ts, b, [RightParen]);
  }

  lemma LoopsStop(ts: seq<Token>, node: Node, i: nat, depth: nat)
    requires i <= |ts| && NoOperatorAt(ts, i)
    ensures AndLoop(ts, node, i, depth) == Some(Parsed(node, i))
    ensures OrLoop(ts, node, i, depth) == Some(Parsed(node, i))
  {
  }

  lemma AndAfterUnary(ts: seq<Token>, i: nat, depth: nat, first: Option<Parsed>)
    requires i <= |ts| && ParseUnary(ts, i, depth) == first
    ensures ParseAnd(ts, i, depth)
         == if first.Some? then AndLoop(ts, first.value.node, first.value.index, depth) else None
  {
  }

  lemma OrAfterAnd(ts: seq<Token>, i: nat, depth: nat, first: Option<Parsed>)
    requires i <= |ts| && ParseAnd(ts, i, depth) == first
    ensures ParseOr(ts, i, depth)
         == if first.Some? then OrLoop(ts, first.value.node, first.value.index, depth) else None
  {
  }

  lemma AndLoopOnce(ts: seq<Token>, a: nat, left: Node, depth: nat, next: Option<Parsed>)
    requires a < |ts| && ts[a] == AndToken && ParseUnary(ts, a + 1, depth) == next
    ensures AndLoop(ts, left, a, depth)
         == if next.Some? then AndLoop(ts, And(left, next.value.node), next.value.index, depth) else None
  {
  }

  lemma OrLoopOnce(ts: seq<Token>, a: nat, left: Node, depth: nat, next: Option<Parsed>)
    requires a < |ts| && ts[a] == OrToken && ParseAnd(ts, a + 1, depth) == next
    ensures OrLoop(ts, left, a, depth)
         == if next.Some? then OrLoop(ts, Or(left, next.value.node), next.value.index, depth) else None
  {
  }

  lemma {:induction false} AndAlone(ts: seq<Token>, i: nat, node: Node, depth: nat)
    requires Has(ts, i, Tokens(node)) && NoOperatorAt(ts, i + |Tokens(node)|)
    ensures ParseAnd(ts, i, depth) == IfShallow(node, i + |Tokens(node)|, depth)
    decreases node, 4
  {
    UnaryParses(ts, i, node, depth);
    AndAfterUnary(ts, i, depth, IfShallow(node, i + |Tokens(node)|, depth));
    LoopsStop(ts, node, i + |Tokens(node)|, depth);
  }

  lemma {:induction false} OrParses(ts: seq<Token>, i: nat, node: Node, depth: nat)
    requires Has(ts, i, Tokens(node)) && NoOperatorAt(ts, i + |Tokens(node)|)
    ensures ParseOr(ts, i, depth) == IfShallow(node, i + |Tokens(node)|, depth)
    decreases node, 5
  {
    AndAlone(ts, i, node, depth);
    OrAfterAnd(ts, i, depth, IfShallow(node, i + |Tokens(node)|, depth));
    LoopsStop(ts, node, i + |Tokens(node)|, depth);
  }

  lemma {:induction false} AndTailParses(ts: seq<Token>, a: nat, left: Node, r: Node, depth: nat)
    requires a < |ts| && ts[a] == AndToken && Has(ts, a + 1, Tokens(r)) && NoOperatorAt(ts, a + 1 + |Tokens(r)|)
    ensures AndLoop(ts, left, a, depth)
         == if depth + Height(r) <= MAX_DEPTH then Some(Parsed(And(left, r), a + 1 + |Tokens(r)|)) else None
    decreases r, 4
  {
    UnaryParses(ts, a + 1, r, depth);
    AndLoopOnce(ts, a, left, depth, IfShallow(r, a + 1 + |Tokens(r)|, depth));
    LoopsStop(ts, And(left, r), a + 1 + |Tokens(r)|, depth);
  }

  lemma {:induction false} OrTailParses(ts: seq<Token>, a: nat, left: Node, r: Node, depth: nat)
    requires a < |ts| && ts[a] == OrToken && Has(ts, a + 1, Tokens(r)) && NoOperatorAt(ts, a + 1 + |Tokens(r)|)
    ensures OrLoop(ts, left, a, depth)
         == if depth + Height(r) <= MAX_DEPTH then Some(Parsed(Or(left, r), a + 1 + |Tokens(r)|)) else None
    decreases r, 5
  {
    AndAlone(ts, a + 1, r, depth);
    OrLoopOnce(ts, a, left, depth, IfShallow(r, a + 1 + |Tokens(r)|, depth));
    LoopsStop(ts, Or(left, r), a + 1 + |Tokens(r)|, depth);
  }

  /** A parenthesized group is read as what `ParseOr` makes of its inside. */
  lemma GroupParses(ts: seq<Token>, i: nat, inner: Option<Parsed>, depth: nat)
    requires i < |ts| && ts[i] == LeftParen && ParseOr(ts, i + 1, depth + 1) == inner
    requires inner.Some? ==> inner.value.index < |ts| && ts[inner.value.index] == RightParen
    requires depth > MAX_DEPTH ==> inner.None?
    ensures ParseUnary(ts, i, depth)
         == if inner.Some? then Some(Parsed(inner.value.node, inner.value.index + 1)) else None
  {
    assert NotRun(ts, i) == i;
  }

  /** The same behind one negation. */
  lemma GroupAfterNots(ts: seq<Token>, i: nat, inner: Option<Parsed>, depth: nat)
    requires i + 1 < |ts| && ts[i + 1] == LeftParen && NotRun(ts, i) == i + 1 && ParseOr(ts, i + 2, depth + 1) == inner
    requires inner.Some? ==> inner.value.index < |ts| && ts[inner.value.index] == RightParen
    requires depth > MAX_DEPTH ==> inner.None?
    ensures ParseUnary(ts, i, depth)
         == if inner.Some? then Some(Parsed(Negate(inner.value.node, 1), inner.value.index + 1)) else None
  {
  }

  /** What `ParseOr` makes of two conjuncts, each read only if it is shallow enough. */
  lemma OrOfConjuncts(ts: seq<Token>, i: nat, l: Node, a: nat, both: Node, end: nat, depth: nat, first: bool, second: bool)
    requires i <= |ts| && a <= |ts| && end <= |ts|
    requires ParseUnary(ts, i, depth) == if first then Some(Parsed(l, a)) else None
    requires AndLoop(ts, l, a, depth) == if second then Some(Parsed(both, end)) else None
    requires OrLoop(ts, both, end, depth) == Some(Parsed(both, end))
    ensures ParseOr(ts, i, depth) == if first && second then Some(Parsed(both, end)) else None
  {
  }

  lemma {:induction false} AndParses(ts: seq<Token>, i: nat, l: Node, a: nat, r: Node, depth: nat)
    requires Has(ts, i, Tokens(l)) && a == i + |Tokens(l)| < |ts| && ts[a] == AndToken && Has(ts, a + 1, Tokens(r))
    requires NoOperatorAt(ts, a + 1 + |Tokens(r)|)
    ensures ParseOr(ts, i, depth)
         == if depth + Height(l) <= MAX_DEPTH && depth + Height(r) <= MAX_DEPTH
            then Some(Parsed(And(l, r), a + 1 + |Tokens(r)|)) else None
    decreases And(l, r), 0
  {
    var end := a + 1 + |Tokens(r)|;
    UnaryParses(ts, i, l, depth);
    AndTailParses(ts, a, l, r, depth);
    LoopsStop(ts, And(l, r), end, depth);
    OrOfConjuncts(ts, i, l, a, And(l, r), end, depth, depth + Height(l) <= MAX_DEPTH, depth + Height(r) <= MAX_DEPTH);
  }

  lemma OrOfDisjuncts(ts: seq<Token>, i: nat, l: Node, a: nat, both: Node, end: nat, depth: nat, first: bool, second: bool)
    requires i <= |ts| && a <= |ts| && end <= |ts|
    requires ParseUnary(ts, i, depth) == if first then Some(Parsed(l, a)) else None
    requires AndLoop(ts, l, a, depth) == Some(Parsed(l, a))
    requires OrLoop(ts, l, a, depth) == if second then Some(Parsed(both, end)) else None
    ensures ParseOr(ts, i, depth) == if first && second then Some(Parsed(both, end)) else None
  {
  }

  lemma {:induction false} OrParsesBoth(ts: seq<Token>, i: nat, l: Node, a: nat, r: Node, depth: nat)
    requires Has(ts, i, Tokens(l)) && a == i + |Tokens(l)| < |ts| && ts[a] == OrToken && Has(ts, a + 1, Tokens(r))
    requires NoOperatorAt(ts, a + 1 + |Tokens(r)|)
    ensures ParseOr(ts, i, depth)
         == if depth + Height(l) <= MAX_DEPTH && depth + Height(r) <= MAX_DEPTH
            then Some(Parsed(Or(l, r), a + 1 + |Tokens(r)|)) else None
    decreases Or(l, r), 0
  {
    UnaryParses(ts, i, l, depth);
    OrTailParses(ts, a, l, r, depth);
    OrOfDisjuncts(ts, i, l, a, Or(l, r), a + 1 + |Tokens(r)|, depth,
                  depth + Height(l) <= MAX_DEPTH, depth + Height(r) <= MAX_DEPTH);
  }

  lemma {:induction false} InsideParses(ts: seq<Token>, i: nat, node: Node, a: nat, depth: nat)
    requires (node.And? || node.Or?) && Has(ts, i, Tokens(node.left)) && a == i + |Tokens(node.left)| < |ts|
    requires ts[a] == (if node.And? then AndToken else OrToken) && Has(ts, a + 1, Tokens(node.right))
    requires NoOperatorAt(ts, a + 1 + |Tokens(node.right)|) && depth > 0
    ensures ParseOr(ts, i, depth) == IfShallow(node, a + 1 + |Tokens(node.right)|, depth - 1)
    decreases node, 1
  {
    if node.And? {
      AndParses(ts, i, node.left, a, node.right, depth);
    } else {
      OrParsesBoth(ts, i, node.left, a, node.right, depth);
    }
  }

  lemma {:induction false} BinaryParses(ts: seq<Token>, i: nat, node: Node, depth: nat)
    requires (node.And? || node.Or?) && Has(ts, i, Tokens(node))
    ensures ParseUnary(ts, i, depth) == IfShallow(node, i + |Tokens(node)|, depth)
    decreases node, 2
  {
    var a, b := BinaryPositions(ts, i, node);
    InsideParses(ts, i + 1, node, a, depth + 1);
    GroupParses(ts, i, IfShallow(node, b, depth), depth);
  }

  lemma BinaryPositions(ts: seq<Token>, i: nat, node: Node) returns (a: nat, b: nat)
    requires (node.And? || node.Or?) && Has(ts, i, Tokens(node))
    ensures a == i + 1 + |Tokens(node.left)| && b == a + 1 + |Tokens(node.right)| < |ts| && b + 1 == i + |Tokens(node)|
    ensures ts[i] == LeftParen && Has(ts, i + 1, Tokens(node.left)) && Has(ts, a + 1, Tokens(node.right)) && ts[b] == RightParen
    ensures ts[a] == if node.And? then AndToken else OrToken
  {
    a, b := BinaryTokenPositions(ts, i, Tokens(node.left), if node.And? then AndToken else OrToken, Tokens(node.right));
  }

  lemma {:induction false} NotParses(ts: seq<Token>, i: nat, node: Node, depth: nat)
    requires node.Not? && Has(ts, i, Tokens(node))
    ensures ParseUnary(ts, i, depth) == IfShallow(node, i + |Tokens(node)|, depth)
    decreases node, 0
  {
    var n := node.node;
    NegatedPositions(ts, i, Tokens(n));
    OrParses(ts, i + 2, n, depth + 1);
    GroupAfterNots(ts, i, IfShallow(n, i + 2 + |Tokens(n)|, depth + 1), depth);
    assert Negate(n, 1) == node;
  }

  lemma NegatedPositions(ts: seq<Token>, i: nat, inner: seq<Token>)
    requires Has(ts, i, [NotToken, LeftParen] + inner + [RightParen])
    ensures i + 2 + |inner| < |ts| && ts[i] == NotToken && ts[i + 1] == LeftParen && NotRun(ts, i) == i + 1
    ensures Has(ts, i + 2, inner) && ts[i + 2 + |inner|] == RightParen
  {
    HasConcat(ts, i, [NotToken, LeftParen] + inner, [RightParen]);
    HasConcat(ts, i, [NotToken, LeftParen], inner);
    HasChars(ts, i, [NotToken, LeftParen]);
    HasChars(ts, i + 2 + |inner|, [RightParen]);
    assert ts[i + 0] == NotToken && ts[i + 1] == LeftParen;
  }

  /** The parser reads a printed node back unless its parentheses nest too deeply. */
  lemma {:induction false} UnaryParses(ts: seq<Token>, i: nat, node: Node, depth: nat)
    requires Has(ts, i, Tokens(node))
    ensures ParseUnary(ts, i, depth) == IfShallow(node, i + |Tokens(node)|, depth)
    decreases node, 3
  {
    match node
    case Identifier(_) =>
      HasChars(ts, i, Tokens(node));
    case Not(_) => NotParses(ts, i, node, depth);
    case And(_, _) => BinaryParses(ts, i, node, depth);
    case Or(_, _) => BinaryParses(ts, i, node, depth);
  }

  lemma PrintedText(node: Node)
    requires OrdinaryNames(node)
    ensures TokensFrom(Encode(node), 0) == Some(Tokens(node))
  {
    assert Has(Encode(node), 0, Encode(node));
    EncodeTokenizes(Encode(node), 0, node);
    assert Tokens(node) + [] == Tokens(node);
  }

  lemma ParsePrinted(node: Node)
    requires OrdinaryNames(node)
    ensures Parse(Encode(node)) == if Height(node) <= MAX_DEPTH then Some(node) else None
  {
    PrintedText(node);
    assert Has(Tokens(node), 0, Tokens(node));
    OrParses(Tokens(node), 0, node, 0);
  }

  // ----- the parser only makes ordinary names -----

  ghost predicate OrdinaryTokens(ts: seq<Token>) {
    forall k :: 0 <= k < |ts| && ts[k].IdentifierToken? ==> IsIdentifier(ts[k].value)
  }

  lemma {:induction false} TokensAreOrdinary(s: string, i: nat)
    requires i <= |s|
    ensures var r := TokensFrom(s, i); r.Some? ==> OrdinaryTokens(r.value)
    decreases |s| - i
  {
    if i < |s| {
      if IsSpace(s[i]) {
        TokensAreOrdinary(s, i + 1);
      } else if TokenAt(s, i).Some? {
        TokensAreOrdinary(s, TokenAt(s, i).value.1);
      }
    }
  }

  ghost predicate MakesOrdinary(r: Option<Parsed>) {
    r.Some? ==> OrdinaryNames(r.value.node)
  }

  lemma {:induction false} NegateOrdinary(node: Node, count: nat)
    ensures OrdinaryNames(Negate(node, count)) <==> OrdinaryNames(node)
    decreases count
  {
    if count > 0 {
      NegateOrdinary(Not(node), count - 1);
    }
  }

  lemma {:induction false} UnaryOrdinary(ts: seq<Token>, i: nat, depth: nat)
    requires OrdinaryTokens(ts) && i <= |ts|
    ensures MakesOrdinary(ParseUnary(ts, i, depth))
    decreases |ts| - i, 1
  {
    var j := NotRun(ts, i);
    if j < |ts| && ts[j] == LeftParen {
      OrOrdinary(ts, j + 1, depth + 1);
    }
    var p := ParsePrimary(ts, j, depth);
    if p.Some? {
      NegateOrdinary(p.value.node, j - i);
    }
  }

  lemma {:induction false} AndLoopOrdinary(ts: seq<Token>, left: Node, i: nat, depth: nat)
    requires OrdinaryTokens(ts) && i <= |ts| && OrdinaryNames(left)
    ensures MakesOrdinary(AndLoop(ts, left, i, depth))
    decreases |ts| - i, 2
  {
    if i < |ts| && ts[i] == AndToken {
      UnaryOrdinary(ts, i + 1, depth);
      var p := ParseUnary(ts, i + 1, depth);
      if p.Some? {
        AndLoopOrdinary(ts, And(left, p.value.node), p.value.index, depth);
      }
    }
  }

  lemma {:induction false} AndOrdinary(ts: seq<Token>, i: nat, depth: nat)
    requires OrdinaryTokens(ts) && i <= |ts|
    ensures MakesOrdinary(ParseAnd(ts, i, depth))
    decreases |ts| - i, 3
  {
    UnaryOrdinary(ts, i, depth);
    var p := ParseUnary(ts, i, depth);
    if p.Some? {
      AndLoopOrdinary(ts, p.value.node, p.value.index, depth);
    }
  }

  lemma {:induction false} OrLoopOrdinary(ts: seq<Token>, left: Node, i: nat, depth: nat)
    requires OrdinaryTokens(ts) && i <= |ts| && OrdinaryNames(left)
    ensures MakesOrdinary(OrLoop(ts, left, i, depth))
    decreases |ts| - i, 4
  {
    if i < |ts| && ts[i] == OrToken {
      AndOrdinary(ts, i + 1, depth);
      var p := ParseAnd(ts, i + 1, depth);
      if p.Some? {
        OrLoopOrdinary(ts, Or(left, p.value.node), p.value.index, depth);
      }
    }
  }

  lemma {:induction false} OrOrdinary(ts: seq<Token>, i: nat, depth: nat)
    requires OrdinaryTokens(ts) && i <= |ts|
    ensures MakesOrdinary(ParseOr(ts, i, depth))
    decreases |ts| - i, 5
  {
    AndOrdinary(ts, i, depth);
    var p := ParseAnd(ts, i, depth);
    if p.Some? {
      OrLoopOrdinary(ts, p.value.node, p.value.index, depth);
    }
  }

  /**
   * A printed condition is read back as itself exactly when its names are identifiers and
   * its parentheses nest at most 64 deep.
   */
  lemma RoundTripIff(node: Node)
    ensures Parse(Encode(node)) == Some(node) <==> OrdinaryNames(node) && Height(node) <= MAX_DEPTH
  {
    if OrdinaryNames(node) {
      ParsePrinted(node);
    } else {
      TokensAreOrdinary(Encode(node), 0);
      var ts := TokensFrom(Encode(node), 0);
      if ts.Some? {
        OrOrdinary(ts.value, 0, 0);
      }
    }
  }

  // ----- conditions as they are usually written -----

  /** A name alone, and a name behind "!", without parentheses. */
  lemma PlainConditionsRead(name: string)
    requires IsIdentifier(name)
    ensures Parse(name) == Some(Identifier(name)) && Parse("!" + name) == Some(Not(Identifier(name)))
  {
    RoundTripIff(Identifier(name));
    var s := "!" + name;
    assert s[1..1 + |name|] == name;
    ParenTokenizes(s, 0);
    NameTokenizes(s, 1, name);
    var ts := [NotToken, IdentifierToken(name)];
    assert [NotToken] + [IdentifierToken(name)] == ts;
    ReadsChain(s, 0, [NotToken], 1, [IdentifierToken(name)], |s|);
    assert TokensFrom(s, |s|) == Some([]) && ts + [] == ts;
    NegatedNameReads(ts, name);
  }

  lemma NegatedNameReads(ts: seq<Token>, name: string)
    requires ts == [NotToken, IdentifierToken(name)]
    ensures ParseOr(ts, 0, 0) == Some(Parsed(Not(Identifier(name)), 2))
  {
    assert NotRun(ts, 0) == 1;
    assert ParsePrimary(ts, 1, 0) == Some(Parsed(Identifier(name), 2));
    assert ParseUnary(ts, 0, 0) == Some(Parsed(Not(Identifier(name)), 2));
    LoopsStop(ts, Not(Identifier(name)), 2, 0);
    AndAfterUnary(ts, 0, 0, Some(Parsed(Not(Identifier(name)), 2)));
    OrAfterAnd(ts, 0, 0, Some(Parsed(Not(Identifier(name)), 2)));
  }

  // ----- precedence: "!" before "&&" before "||", both to the left -----

  // A conjunction: a node, and more behind "&&".
  datatype Conjunction = Conjunction(first: Node, more: seq<Node>)

  ghost function AndRest(ns: seq<Node>): seq<Token> {
    if ns == [] then [] else [AndToken] + Tokens(ns[0]) + AndRest(ns[1..])
  }

  ghost function AndAll(left: Node, ns: seq<Node>): Node
    decreases |ns|
  {
    if ns == [] then left else AndAll(And(left, ns[0]), ns[1..])
  }

  ghost function ConjunctionTokens(c: Conjunction): seq<Token> {
    Tokens(c.first) + AndRest(c.more)
  }

  ghost function ConjunctionNode(c: Conjunction): Node {
    AndAll(c.first, c.more)
  }

  /** The rest of a disjunction: "||" and a conjunction, for each. */
  ghost function OrRest(cs: seq<Conjunction>): seq<Token> {
    if cs == [] then [] else [OrToken] + ConjunctionTokens(cs[0]) + OrRest(cs[1..])
  }

  ghost function OrAll(left: Node, cs: seq<Conjunction>): Node
    decreases |cs|
  {
    if cs == [] then left else OrAll(Or(left, ConjunctionNode(cs[0])), cs[1..])
  }

  ghost predicate AllShallow(ns: seq<Node>, depth: nat) {
    forall k :: 0 <= k < |ns| ==> depth + Height(ns[k]) <= MAX_DEPTH
  }

  ghost predicate Shallow(c: Conjunction, depth: nat) {
    depth + Height(c.first) <= MAX_DEPTH && AllShallow(c.more, depth)
  }

  ghost predicate EachShallow(cs: seq<Conjunction>, depth: nat) {
    forall k :: 0 <= k < |cs| ==> Shallow(cs[k], depth)
  }

  /** A list of parts: a mark, a part, and the rest. */
  lemma FirstOfRest(ts: seq<Token>, a: nat, mark: Token, part: seq<Token>, rest: seq<Token>)
    requires Has(ts, a, [mark] + part + rest)
    ensures a < |ts| && ts[a] == mark && Has(ts, a + 1, part) && Has(ts, a + 1 + |part|, rest)
  {
    HasConcat(ts, a, [mark] + part, rest);
    HasConcat(ts, a, [mark], part);
    HasChars(ts, a, [mark]);
  }

  lemma {:induction false} AndRestReads(ts: seq<Token>, left: Node, a: nat, ns: seq<Node>, depth: nat, end: nat)
    requires Has(ts, a, AndRest(ns)) && AllShallow(ns, depth) && end == a + |AndRest(ns)|
    requires end < |ts| ==> ts[end] != AndToken
    ensures AndLoop(ts, left, a, depth) == Some(Parsed(AndAll(left, ns), end))
    decreases |ns|
  {
    if ns != [] {
      var n := ns[0];
      var b := a + 1 + |Tokens(n)|;
      FirstOfRest(ts, a, AndToken, Tokens(n), AndRest(ns[1..]));
      UnaryParses(ts, a + 1, n, depth);
      AndLoopOnce(ts, a, left, depth, Some(Parsed(n, b)));
      AndRestReads(ts, And(left, n), b, ns[1..], depth, end);
    }
  }

  lemma ConjunctionReads(ts: seq<Token>, i: nat, c: Conjunction, depth: nat, end: nat)
    requires Has(ts, i, ConjunctionTokens(c)) && Shallow(c, depth) && end == i + |ConjunctionTokens(c)|
    requires end < |ts| ==> ts[end] != AndToken
    ensures ParseAnd(ts, i, depth) == Some(Parsed(ConjunctionNode(c), end))
  {
    var a := i + |Tokens(c.first)|;
    HasConcat(ts, i, Tokens(c.first), AndRest(c.more));
    UnaryParses(ts, i, c.first, depth);
    AndAfterUnary(ts, i, depth, Some(Parsed(c.first, a)));
    AndRestReads(ts, c.first, a, c.more, depth, end);
  }

  lemma OrRestStarts(ts: seq<Token>, b: nat, cs: seq<Conjunction>)
    requires Has(ts, b, OrRest(cs)) && NoOperatorAt(ts, b + |OrRest(cs)|)
    ensures b < |ts| ==> ts[b] != AndToken
  {
    if cs != [] {
      FirstOfRest(ts, b, OrToken, ConjunctionTokens(cs[0]), OrRest(cs[1..]));
    }
  }

  lemma {:induction false} OrRestReads(ts: seq<Token>, left: Node, a: nat, cs: seq<Conjunction>, depth: nat, end: nat)
    requires EachShallow(cs, depth) && Has(ts, a, OrRest(cs)) && end == a + |OrRest(cs)| && NoOperatorAt(ts, end)
    ensures OrLoop(ts, left, a, depth) == Some(Parsed(OrAll(left, cs), end))
    decreases |cs|
  {
    if cs != [] {
      var c := cs[0];
      var b := a + 1 + |ConjunctionTokens(c)|;
      FirstOfRest(ts, a, OrToken, ConjunctionTokens(c), OrRest(cs[1..]));
      OrRestStarts(ts, b, cs[1..]);
      ConjunctionReads(ts, a + 1, c, depth, b);
      OrLoopOnce(ts, a, left, depth, Some(Parsed(ConjunctionNode(c), b)));
      OrRestReads(ts, Or(left, ConjunctionNode(c)), b, cs[1..], depth, end);
    }
  }

  /** A disjunction of conjunctions written without parentheses around them is read as that, to
      the left in both. */
  lemma PrecedenceOfOperators(c: Conjunction, cs: seq<Conjunction>)
    requires Shallow(c, 0) && EachShallow(cs, 0)
    ensures var ts := ConjunctionTokens(c) + OrRest(cs);
      ParseOr(ts, 0, 0) == Some(Parsed(OrAll(ConjunctionNode(c), cs), |ts|))
  {
    var ts := ConjunctionTokens(c) + OrRest(cs);
    assert Has(ts, 0, ts);
    HasConcat(ts, 0, ConjunctionTokens(c), OrRest(cs));
    DisjunctionReads(ts, c, cs, |ConjunctionTokens(c)|);
  }

  lemma DisjunctionReads(ts: seq<Token>, c: Conjunction, cs: seq<Conjunction>, b: nat)
    requires Shallow(c, 0) && EachShallow(cs, 0) && b == |ConjunctionTokens(c)|
    requires Has(ts, 0, ConjunctionTokens(c)) && Has(ts, b, OrRest(cs)) && b + |OrRest(cs)| == |ts|
    ensures ParseOr(ts, 0, 0) == Some(Parsed(OrAll(ConjunctionNode(c), cs), |ts|))
  {
    OrRestStarts(ts, b, cs);
    ConjunctionReads(ts, 0, c, 0, b);
    OrAfterAnd(ts, 0, 0, Some(Parsed(ConjunctionNode(c), b)));
    OrRestReads(ts, ConjunctionNode(c), b, cs, 0, |ts|);
  }

  /** "!" so many times before a name, without parentheses, up to the limit. */
  lemma NegationsRead(ts: seq<Token>, k: nat, name: string)
    requires |ts| == k + 1 && ts[k] == IdentifierToken(name) && forall i :: 0 <= i < k ==> ts[i] == NotToken
    ensures ParseUnary(ts, 0, 0) == if k <= MAX_DEPTH then Some(Parsed(Negate(Identifier(name), k), k + 1)) else None
  {
    NotRunIs(ts, 0, k);
    assert ParsePrimary(ts, k, 0) == Some(Parsed(Identifier(name), k + 1));
  }

  lemma {:induction false} NotRunIs(ts: seq<Token>, i: nat, k: nat)
    requires i <= k < |ts| && ts[k] != NotToken && forall j :: i <= j < k ==> ts[j] == NotToken
    ensures NotRun(ts, i) == k
    decreases k - i
  {
    if i < k {
      NotRunIs(ts, i + 1, k);
    }
  }

  // ----- unique readability, at any depth -----

  /** No printed node is a proper prefix of another one's tokens. */
  lemma {:induction false} TokensArePrefixFree(a: Node, b: Node, s: seq<Token>, t: seq<Token>)
    requires Tokens(a) + s == Tokens(b) + t
    ensures a == b && s == t
    decreases a
  {
    var x, y := Tokens(a) + s, Tokens(b) + t;
    assert x[0] == Tokens(a)[0] && y[0] == Tokens(b)[0];
    match a
    case Identifier(_) =>
      assert x[1..] == s && y[1..] == t;
    case Not(n) =>
      var m := b.node;
      assert x[2..] == Tokens(n) + ([RightParen] + s);
      assert y[2..] == Tokens(m) + ([RightParen] + t);
      TokensArePrefixFree(n, m, [RightParen] + s, [RightParen] + t);
      assert ([RightParen] + s)[1..] == s && ([RightParen] + t)[1..] == t;
    case And(l, r) => BinaryPrefixFree(a, b, l, AndToken, r, s, t);
    case Or(l, r) => BinaryPrefixFree(a, b, l, OrToken, r, s, t);
  }

  lemma {:induction false} BinaryPrefixFree(a: Node, b: Node, l: Node, op: Token, r: Node, s: seq<Token>, t: seq<Token>)
    requires (a == And(l, r) && op == AndToken) || (a == Or(l, r) && op == OrToken)
    requires b.And? || b.Or?
    requires Tokens(a) + s == Tokens(b) + t
    ensures a == b && s == t
    decreases a, 0
  {
    var op' := if b.And? then AndToken else OrToken;
    BinaryPeel(Tokens(l), op, Tokens(r), s);
    BinaryPeel(Tokens(b.left), op', Tokens(b.right), t);
    var r1, r2 := Tokens(r) + ([RightParen] + s), Tokens(b.right) + ([RightParen] + t);
    TokensArePrefixFree(l, b.left, [op] + r1, [op'] + r2);
    assert ([op] + r1)[0] == op && ([op'] + r2)[0] == op';
    assert ([op] + r1)[1..] == r1 && ([op'] + r2)[1..] == r2;
    TokensArePrefixFree(r, b.right, [RightParen] + s, [RightParen] + t);
    assert ([RightParen] + s)[1..] == s && ([RightParen] + t)[1..] == t;
  }

  lemma BinaryPeel(l: seq<Token>, op: Token, r: seq<Token>, s: seq<Token>)
    ensures ([LeftParen] + l + [op] + r + [RightParen] + s)[1..] == l + ([op] + (r + ([RightParen] + s)))
  {
  }

  /** Two conditions over ordinary names that print to the same text are equal, however
      deeply they nest. */
  lemma UniqueReadability(a: Node, b: Node)
    requires OrdinaryNames(a) && OrdinaryNames(b) && Encode(a) == Encode(b)
    ensures a == b
  {
    PrintedText(a);
    PrintedText(b);
    TokensArePrefixFree(a, b, [], []);
  }
}
