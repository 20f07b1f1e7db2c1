/** The precedence-climbing parser, proved against the grammar: it succeeds
    exactly on expressions and returns the one tree the grammar allows. */
module Parser {
  import opened Words
  import opened Grammar

  // ---------------------------------------------------------------------
  // What the input may begin with
  // ---------------------------------------------------------------------

  ghost predicate StartsOperand(s: seq<Token>) {
    exists u, rest :: IsOperand(u) && s == Yield(u) + rest
  }

  ghost predicate StartsExpression(s: seq<Token>) {
    exists t, rest :: WellFormed(t) && Stops(rest) && s == Yield(t) + rest
  }

  /** t is the only expression s begins with. */
  ghost predicate OnlyTree(s: seq<Token>, t: Tree) {
    forall t', rest :: WellFormed(t') && Stops(rest) && s == Yield(t') + rest ==> t' == t
  }

  lemma NoOtherTree(s: seq<Token>, t: Tree, rest: seq<Token>)
    requires WellFormed(t) && Stops(rest) && s == Yield(t) + rest
    ensures OnlyTree(s, t)
  {
    forall t', rest' | WellFormed(t') && Stops(rest') && s == Yield(t') + rest'
      ensures t' == t
    {
      UniqueTree(t, rest, t', rest');
    }
  }

  /** Operators and operands in turn, operator first. */
  ghost predicate StartsTail(s: seq<Token>) {
    exists items, rest :: Alternates(items, true) && Stops(rest) && s == Text(items) + rest
  }

  predicate IsOperand(t: Tree) { WellFormed(t) && !t.Node? }

  lemma UnaryStarts(s: seq<Token>)
    requires s != [] && IsUnary(s[0]) && StartsOperand(s)
    ensures StartsOperand(s[1..])
  {
    var u, rest :| IsOperand(u) && s == Yield(u) + rest;
    assert Yield(u)[0] == s[0];
    assert s[1..] == Yield(u.e) + rest;
  }

  /** Whatever expression s begins with, a closing parenthesis follows it. */
  ghost predicate MustClose(s: seq<Token>) {
    forall t, rest :: WellFormed(t) && Stops(rest) && s == Yield(t) + rest ==> rest != [] && rest[0] == RParen
  }

  lemma ParenStarts(s: seq<Token>)
    requires s != [] && s[0] == LParen && StartsOperand(s)
    ensures StartsExpression(s[1..]) && MustClose(s[1..])
  {
    hide MustClose, StartsExpression, Yield, WellFormed;
    var u, r :| IsOperand(u) && s == Yield(u) + r;
    var e, after := InsideParens(s, u, r);
    ClosedOnce(s[1..], e, after);
  }

  lemma ClosedOnce(s: seq<Token>, e: Tree, after: seq<Token>)
    requires WellFormed(e) && Stops(after) && s == Yield(e) + after && after != [] && after[0] == RParen
    ensures StartsExpression(s) && MustClose(s)
  {
    forall t, rest | WellFormed(t) && Stops(rest) && s == Yield(t) + rest
      ensures rest != [] && rest[0] == RParen
    {
      UniqueTree(e, after, t, rest);
    }
  }

  lemma Closed(s: seq<Token>, t: Tree, rest: seq<Token>)
    requires MustClose(s) && WellFormed(t) && Stops(rest) && s == Yield(t) + rest
    ensures rest != [] && rest[0] == RParen
  {
  }

  lemma InsideParens(s: seq<Token>, u: Tree, r: seq<Token>) returns (e: Tree, after: seq<Token>)
    requires IsOperand(u) && s == Yield(u) + r && s[0] == LParen
    ensures WellFormed(e) && Stops(after) && s[1..] == Yield(e) + after && after != [] && after[0] == RParen
  {
    assert Yield(u)[0] == s[0];
    e, after := u.e, [RParen] + r;
  }

  lemma NoOperand(s: seq<Token>)
    requires s == [] || (!IsUnary(s[0]) && s[0] != LParen && !s[0].Name? && !s[0].Number?)
    ensures !StartsOperand(s)
  {
    forall u, rest | IsOperand(u)
      ensures s != Yield(u) + rest
    {
      assert (Yield(u) + rest)[0] == Yield(u)[0];
    }
  }

  lemma TextOne(items: seq<Item>, rest: seq<Token>)
    requires items != []
    ensures Text(items) + rest == ItemText(items[0]) + (Text(items[1..]) + rest)
  {
    Regroup(ItemText(items[0]), Text(items[1..]), rest);
  }

  /** An expression is an operand and a tail. */
  lemma ExpressionStarts(s: seq<Token>)
    requires StartsExpression(s)
    ensures StartsOperand(s)
    ensures forall u, rest :: IsOperand(u) && s == Yield(u) + rest ==> StartsTail(rest)
  {
    var t, r :| WellFormed(t) && Stops(r) && s == Yield(t) + r;
    var items := Flat(t);
    TextFlat(t);
    FlatAlternates(t);
    TextOne(items, r);
    TailFollows(s, items, r);
  }

  lemma TailFollows(s: seq<Token>, items: seq<Item>, r: seq<Token>)
    requires items != [] && Alternates(items, false) && Stops(r) && s == Text(items) + r
    ensures StartsOperand(s)
    ensures forall u, rest :: IsOperand(u) && s == Yield(u) + rest ==> StartsTail(rest)
  {
    TextOne(items, r);
    var v, more := items[0].u, Text(items[1..]) + r;
    assert s == Yield(v) + more;
    forall u, rest | IsOperand(u) && s == Yield(u) + rest
      ensures StartsTail(rest)
    {
      OperandsDiffer(v, more, u, rest);
    }
  }

  /** A tail that begins with an operator goes on with an operand and a tail. */
  lemma TailStarts(s: seq<Token>)
    requires StartsTail(s) && !Stops(s)
    ensures StartsOperand(s[1..])
    ensures forall u, rest :: IsOperand(u) && s[1..] == Yield(u) + rest ==> StartsTail(rest)
  {
    var items, r :| Alternates(items, true) && Stops(r) && s == Text(items) + r;
    if items != [] {
      TextOne(items, r);
      assert s[1..] == Text(items[1..]) + r;
      AlternatesHead(items, true);
      AlternatesHead(items[1..], false);
      TailFollows(s[1..], items[1..], r);
    }
  }

  // ---------------------------------------------------------------------
  // Assignments to something that cannot be assigned to
  // ---------------------------------------------------------------------

  predicate Assignable(t: Tree) {
    t.Variable? || (t.Paren? && Assignable(t.e))
  }

  /** How many assignments in t are reported; parsing goes on regardless. */
  function Misused(t: Tree): nat {
    match t
    case Variable(_) => 0
    case Constant(_) => 0
    case Prefix(_, e) => Misused(e)
    case Paren(e) => Misused(e)
    case Node(l, op, r) => Misused(l) + Misused(r) + (if op == ASSIGN && !Assignable(l) then 1 else 0)
  }

  /** t itself and all trees in it. */
  function Subtrees(t: Tree): set<Tree> {
    match t
    case Variable(_) => {t}
    case Constant(_) => {t}
    case Prefix(_, e) => {t} + Subtrees(e)
    case Paren(e) => {t} + Subtrees(e)
    case Node(l, _, r) => {t} + Subtrees(l) + Subtrees(r)
  }

  /** Nothing is reported exactly if every `=` has something assignable on its
      left; compound assignments to anything pass (section 6.5.16 of
      ISO/IEC 9899:2011 wants a modifiable lvalue there, too). */
  lemma {:induction false} MisusedExactly(t: Tree)
    ensures Misused(t) == 0 <==>
            forall u :: u in Subtrees(t) && u.Node? && u.op == ASSIGN ==> Assignable(u.l)
  {
    match t
    case Variable(_) =>
    case Constant(_) =>
    case Prefix(_, e) => MisusedExactly(e);
    case Paren(e) => MisusedExactly(e);
    case Node(l, op, r) =>
      MisusedExactly(l);
      MisusedExactly(r);
      assert t in Subtrees(t);
  }

  // ---------------------------------------------------------------------
  // Building trees
  // ---------------------------------------------------------------------

  lemma ParenBuilds(e: Tree, start: seq<Token>, rest: seq<Token>)
    requires start != [] && start[0] == LParen && start[1..] == Yield(e) + rest && rest != [] && rest[0] == RParen
    ensures start == Yield(Paren(e)) + rest[1..]
  {
    assert start == [LParen] + (Yield(e) + ([RParen] + rest[1..]));
  }

  lemma NodeBuilds(l: Tree, r: Tree, start: seq<Token>, rest: seq<Token>)
    requires start != [] && start[0].Op? && start[1..] == Yield(r) + rest
    ensures Yield(l) + start == Yield(Node(l, start[0].op, r)) + rest
  {
    var op := start[0];
    assert start == [op] + (Yield(r) + rest);
    Regroup(Yield(l) + [op], Yield(r), rest);
    Regroup(Yield(l), [op], Yield(r) + rest);
  }

  lemma NodeObeys(l: Tree, op: Operator, r: Tree)
    requires WellFormed(l) && WellFormed(r) && Binds(op) >= 10
    requires l.Node? ==> Binds(op) <= Binds(l.op) && l.op != ASSIGN
    requires r.Node? && op != ASSIGN ==> Binds(r.op) > Binds(op)
    ensures WellFormed(Node(l, op, r))
  {
  }

  // ---------------------------------------------------------------------
  // The parser
  // ---------------------------------------------------------------------

  class ExpressionParser {
    const tokens: seq<Token>
    var pos: nat
    var unexpected: nat
    var lvalueErrors: nat

    ghost predicate Valid()
      reads this
    {
      pos <= |tokens|
    }

    constructor (tokens: seq<Token>)
      ensures Valid() && this.tokens == tokens && pos == 0 && unexpected == 0 && lvalueErrors == 0
    {
      this.tokens := tokens;
      pos, unexpected, lvalueErrors := 0, 0, 0;
    }

    function Rest(): (s: seq<Token>)
      reads this
      requires Valid()
    {
      tokens[pos..]
    }

    function Current(): Token
      reads this
      requires Valid()
    {
      if pos < |tokens| then tokens[pos] else Other
    }

    method Lex() returns (t: Token)
      requires Valid()
      modifies this`pos
      ensures Valid() && t == old(Current())
      ensures pos == if old(pos) < |tokens| then old(pos) + 1 else old(pos)
    {
      t := Current();
      if pos < |tokens| {
        pos := pos + 1;
      }
    }

    /** Consumes a token whatever it is, and reports a wrong one. */
    method Expect(t: Token)
      requires Valid()
      modifies this`pos, this`unexpected
      ensures Valid() && pos == if old(pos) < |tokens| then old(pos) + 1 else old(pos)
      ensures unexpected == if old(Current()) == t then old(unexpected) else old(unexpected) + 1
    {
      var got := Lex();
      if got != t {
        unexpected := unexpected + 1;
      }
    }

    /** Nothing was reported as unexpected since before. */
    ghost predicate Clean(r: Option<Tree>, before: nat)
      reads this
    {
      r.Some? && unexpected == before
    }

    method ParseParenthesized() returns (r: Option<Tree>)
      requires Valid() && Current() == LParen
      modifies this
      ensures Valid() && old(pos) <= pos && old(unexpected) <= unexpected
      ensures r.Some? ==> old(pos) < pos && IsOperand(r.value) && lvalueErrors == old(lvalueErrors) + Misused(r.value)
      ensures Clean(r, old(unexpected)) ==> old(Rest()) == Yield(r.value) + Rest()
      ensures StartsOperand(old(Rest())) ==> Clean(r, old(unexpected))
      decreases |tokens| - pos, 0
    {
      ghost var start := Rest();
      if StartsOperand(start) { ParenStarts(start); }
      hide StartsOperand, StartsExpression, MustClose, Yield, Precedence, Stops;
      var _ := Lex();
      assert Rest() == start[1..];
      r := ParseExpression();
      if r.Some? {
        ghost var rest := Rest();
        if StartsOperand(start) { Closed(start[1..], r.value, rest); }
        Expect(RParen);
        if unexpected == old(unexpected) {
          assert Rest() == rest[1..];
          ParenBuilds(r.value, start, rest);
        }
        r := Some(Paren(r.value));
      }
    }

    method ParsePrimaryExpression() returns (r: Option<Tree>)
      requires Valid() && !IsUnary(Current())
      modifies this
      ensures Valid() && old(pos) <= pos && old(unexpected) <= unexpected
      ensures r.Some? ==> old(pos) < pos && IsOperand(r.value) && lvalueErrors == old(lvalueErrors) + Misused(r.value)
      ensures Clean(r, old(unexpected)) ==> old(Rest()) == Yield(r.value) + Rest()
      ensures StartsOperand(old(Rest())) ==> Clean(r, old(unexpected))
      decreases |tokens| - pos, 1
    {
      match Current() {
        case LParen => r := ParseParenthesized();
        case Name(x) =>
          var _ := Lex();
          r := Some(Variable(x));
        case Number(n) =>
          var _ := Lex();
          r := Some(Constant(n));
        case _ =>
          NoOperand(Rest());
          r := None;
      }
    }

    method ParseUnaryExpression() returns (r: Option<Tree>)
      requires Valid()
      modifies this
      ensures Valid() && old(pos) <= pos && old(unexpected) <= unexpected
      ensures r.Some? ==> old(pos) < pos && IsOperand(r.value) && lvalueErrors == old(lvalueErrors) + Misused(r.value)
      ensures Clean(r, old(unexpected)) ==> old(Rest()) == Yield(r.value) + Rest()
      ensures StartsOperand(old(Rest())) ==> Clean(r, old(unexpected))
      decreases |tokens| - pos, 2
    {
      if !IsUnary(Current()) {
        r := ParsePrimaryExpression();
        return;
      }
      if StartsOperand(Rest()) { UnaryStarts(Rest()); }
      var op := Lex();
      if IsUnary(Current()) {
        r := ParseUnaryExpression();
      } else {
        r := ParsePrimaryExpression();
      }
      if r.Some? {
        r := Some(Prefix(op.op, r.value));
      }
    }

    /** The main result: parsing succeeds without complaint exactly when the
        input begins with an expression that no operator follows; the tree
        obeys the grammar, is written with the tokens consumed, and is the
        only such tree. */
    method ParseExpression() returns (r: Option<Tree>)
      requires Valid()
      modifies this
      ensures Valid() && old(pos) <= pos && old(unexpected) <= unexpected
      ensures r.Some? ==> old(pos) < pos && WellFormed(r.value) && Stops(Rest())
      ensures r.Some? ==> lvalueErrors == old(lvalueErrors) + Misused(r.value)
      ensures Clean(r, old(unexpected)) ==> old(Rest()) == Yield(r.value) + Rest()
      ensures Clean(r, old(unexpected)) <==> StartsExpression(old(Rest()))
      ensures Clean(r, old(unexpected)) ==> OnlyTree(old(Rest()), r.value)
      decreases |tokens| - pos, 3
    {
      hide OnlyTree, Yield;
      if StartsExpression(Rest()) { ExpressionStarts(Rest()); }
      r := ParseUnaryExpression();
      if r.Some? {
        r := ParseBinaryExpressionRHS(0, r.value);
        if Clean(r, old(unexpected)) { NoOtherTree(old(Rest()), r.value, Rest()); }
      }
    }

    /** Extends left with the operators that bind at least as tightly as
        precedence. */
    method ParseBinaryExpressionRHS(precedence: nat, left: Tree) returns (r: Option<Tree>)
      requires Valid() && IsOperand(left)
      modifies this
      ensures Valid() && old(pos) <= pos && old(unexpected) <= unexpected
      ensures r.Some? ==> WellFormed(r.value) && Precedence(Current()) < precedence
      ensures r.Some? && r.value.Node? ==> Binds(r.value.op) >= precedence
      ensures r.Some? ==> lvalueErrors + Misused(left) == old(lvalueErrors) + Misused(r.value)
      ensures Clean(r, old(unexpected)) ==> Yield(left) + old(Rest()) == Yield(r.value) + Rest()
      ensures StartsTail(old(Rest())) ==> Clean(r, old(unexpected)) && StartsTail(Rest())
      decreases |tokens| - pos, 0
    {
      hide StartsOperand, StartsTail, Yield, WellFormed, Precedence;
      var leftExpression := left;
      while Precedence(Current()) >= precedence
        invariant Valid() && old(pos) <= pos && old(unexpected) <= unexpected
        invariant WellFormed(leftExpression)
        invariant leftExpression.Node? ==> Binds(leftExpression.op) >= precedence
        invariant leftExpression.Node? ==> Precedence(Current()) <= Binds(leftExpression.op)
        invariant leftExpression.Node? && leftExpression.op == ASSIGN ==> Precedence(Current()) == -1
        invariant lvalueErrors + Misused(left) == old(lvalueErrors) + Misused(leftExpression)
        invariant unexpected == old(unexpected) ==> Yield(left) + old(Rest()) == Yield(leftExpression) + Rest()
        invariant StartsTail(old(Rest())) ==> unexpected == old(unexpected) && StartsTail(Rest())
        decreases |tokens| - pos
      {
        ghost var start := Rest();
        if StartsTail(start) { TailStarts(start); }
        var op := Lex();
        assert Rest() == start[1..];
        var right := ParseUnaryExpression();
        if right.None? {
          return None;
        }
        ghost var operand, middle, clean := right.value, Rest(), unexpected == old(unexpected);
        assert clean ==> start[1..] == Yield(operand) + middle;
        if op.op == ASSIGN && !Assignable(leftExpression) {
          lvalueErrors := lvalueErrors + 1;
        }
        var next := Precedence(Current());
        var associativity := 1;
        if op.op == ASSIGN {
          associativity := 0;
          next := next + 1;
        }
        if Precedence(op) < next {
          right := ParseBinaryExpressionRHS(Precedence(op) + associativity, right.value);
          if right.None? {
            return None;
          }
        }
        if unexpected == old(unexpected) {
          NodeBuilds(leftExpression, right.value, start, Rest());
        }
        NodeObeys(leftExpression, op.op, right.value);
        leftExpression := Node(leftExpression, op.op, right.value);
      }
      r := Some(leftExpression);
    }
  }
}
