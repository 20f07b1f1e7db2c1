/** The expression grammar, stated without reference to any parser: trees,
    the tokens they are written with, and the rules that tie operators to
    operands.  A token sequence has at most one tree that meets the rules. */
module Grammar {
  import opened Words

  datatype Operator =
    | ASSIGN | PLUS_ASSIGN | MINUS_ASSIGN | TIMES_ASSIGN | DIVIDE_ASSIGN
    | LOGICAL_AND | AND
    | EQUAL | NOT_EQUAL | GREATER_EQUAL | LESS_EQUAL | LESS | GREATER
    | SHIFT_LEFT | SHIFT_RIGHT
    | PLUS | MINUS | STAR | SLASH | PERCENT
    | BANG

  /** A Name stands for whatever may be assigned to, with its subscripts and
      member accesses; a Number for any other postfix expression. */
  datatype Token = Name(x: string) | Number(n: int) | Op(op: Operator) | LParen | RParen | Other

  datatype Tree =
    | Variable(x: string)
    | Constant(n: int)
    | Prefix(op: Operator, e: Tree)
    | Paren(e: Tree)
    | Node(l: Tree, op: Operator, r: Tree)

  /** How tightly a binary operator binds; -1 for all other tokens. */
  function Precedence(t: Token): (p: int)
    ensures p == -1 || (p >= 10 && t.Op?)
    ensures t == Op(ASSIGN) ==> p == 10
  {
    if !t.Op? then -1 else
    match t.op
    case ASSIGN | PLUS_ASSIGN | MINUS_ASSIGN | TIMES_ASSIGN | DIVIDE_ASSIGN => 10
    case LOGICAL_AND => 20
    case AND => 30
    case EQUAL | NOT_EQUAL | GREATER_EQUAL | LESS_EQUAL => 40
    case LESS | GREATER => 50
    case SHIFT_LEFT | SHIFT_RIGHT => 60
    case PLUS | MINUS => 70
    case STAR | SLASH | PERCENT => 80
    case BANG => -1
  }

  function Binds(op: Operator): int { Precedence(Op(op)) }

  predicate IsUnary(t: Token) {
    t.Op? && (t.op == AND || t.op == STAR || t.op == BANG || t.op == MINUS)
  }

  function Yield(t: Tree): (s: seq<Token>)
    ensures |s| > 0
  {
    match t
    case Variable(x) => [Name(x)]
    case Constant(n) => [Number(n)]
    case Prefix(op, e) => [Op(op)] + Yield(e)
    case Paren(e) => [LParen] + Yield(e) + [RParen]
    case Node(l, op, r) => Yield(l) + [Op(op)] + Yield(r)
  }

  /** Left children bind at least as tightly as their parent, right children
      strictly tighter; an assignment takes everything on its right and is
      never a left child. */
  predicate WellFormed(t: Tree) {
    match t
    case Variable(_) => true
    case Constant(_) => true
    case Prefix(op, e) => IsUnary(Op(op)) && !e.Node? && WellFormed(e)
    case Paren(e) => WellFormed(e)
    case Node(l, op, r) =>
      && Binds(op) >= 10 && WellFormed(l) && WellFormed(r)
      && (l.Node? ==> Binds(l.op) >= Binds(op) && l.op != ASSIGN)
      && (r.Node? && op != ASSIGN ==> Binds(r.op) > Binds(op))
  }

  // ---------------------------------------------------------------------
  // Operands and operators in a row
  // ---------------------------------------------------------------------

  datatype Item = Operand(u: Tree) | Operator(op: Operator)

  function Flat(t: Tree): (s: seq<Item>)
    ensures |s| > 0 && (t.Node? <==> |s| > 1)
  {
    if t.Node? then Flat(t.l) + [Operator(t.op)] + Flat(t.r) else [Operand(t)]
  }

  function ItemText(i: Item): (s: seq<Token>)
    ensures |s| > 0
  {
    if i.Operand? then Yield(i.u) else [Op(i.op)]
  }

  function Text(items: seq<Item>): seq<Token> {
    if items == [] then [] else ItemText(items[0]) + Text(items[1..])
  }

  lemma {:induction false} TextAppend(a: seq<Item>, b: seq<Item>)
    ensures Text(a + b) == Text(a) + Text(b)
  {
    if a == [] {
      assert a + b == b;
    } else {
      assert (a + b)[1..] == a[1..] + b;
      TextAppend(a[1..], b);
    }
  }

  lemma {:induction false} TextFlat(t: Tree)
    ensures Text(Flat(t)) == Yield(t)
  {
    hide Text;
    if t.Node? {
      TextAppend(Flat(t.l) + [Operator(t.op)], Flat(t.r));
      TextAppend(Flat(t.l), [Operator(t.op)]);
      TextSingle(Operator(t.op));
      TextFlat(t.l);
      TextFlat(t.r);
    } else {
      TextSingle(Operand(t));
    }
  }

  lemma TextSingle(i: Item)
    ensures Text([i]) == ItemText(i)
  {
    assert [i][1..] == [];
  }

  /** An operand, then operators and operands in turn; operator says which of
      the two comes first. */
  ghost predicate Alternates(items: seq<Item>, operator: bool) {
    if items == [] then operator
    else if operator then
      items[0].Operator? && Binds(items[0].op) >= 10 && Alternates(items[1..], false)
    else
      items[0].Operand? && !items[0].u.Node? && WellFormed(items[0].u) && Alternates(items[1..], true)
  }

  lemma {:induction false} AlternatesAppend(a: seq<Item>, b: seq<Item>, operator: bool)
    requires Alternates(a, operator) && Alternates(b, true)
    ensures Alternates(a + b, operator)
    decreases |a|
  {
    if a == [] {
      assert a + b == b;
    } else {
      assert (a + b)[1..] == a[1..] + b;
      AlternatesAppend(a[1..], b, !operator);
    }
  }

  lemma {:induction false} FlatAlternates(t: Tree)
    requires WellFormed(t)
    ensures Alternates(Flat(t), false)
  {
    if t.Node? {
      FlatAlternates(t.l);
      FlatAlternates(t.r);
      var tail := [Operator(t.op)] + Flat(t.r);
      assert tail[1..] == Flat(t.r);
      AlternatesAppend(Flat(t.l), tail, false);
      assert Flat(t) == Flat(t.l) + tail;
    } else {
      assert Flat(t)[1..] == [];
    }
  }

  // ---------------------------------------------------------------------
  // Precedence determines the tree
  // ---------------------------------------------------------------------

  /** Below a node that is no assignment, operators bind at least as tightly
      as the node's, and there is no assignment. */
  lemma {:induction false} OperatorsBelow(t: Tree, i: nat)
    requires WellFormed(t) && t.Node? && t.op != ASSIGN && i < |Flat(t)| && Flat(t)[i].Operator?
    ensures Binds(Flat(t)[i].op) >= Binds(t.op) && Flat(t)[i].op != ASSIGN
  {
    var n := |Flat(t.l)|;
    if i < n {
      OperatorsBelow(t.l, i);
    } else if i > n {
      OperatorsBelow(t.r, i - n - 1);
    }
  }

  lemma FlatAt(t: Tree)
    requires t.Node?
    ensures var s, n := Flat(t), |Flat(t.l)|;
            n < |s| && s[n] == Operator(t.op) && s[..n] == Flat(t.l) && s[n + 1..] == Flat(t.r)
  {
  }

  /** An operator can only be found in a tree with a root operator. */
  lemma IsNode(t: Tree, i: nat)
    requires i < |Flat(t)| && Flat(t)[i].Operator?
    ensures t.Node?
  {
  }

  lemma RootRules(t: Tree)
    requires WellFormed(t) && t.Node?
    ensures WellFormed(t.l) && WellFormed(t.r) && Binds(t.op) >= Binds(ASSIGN)
    ensures t.l.Node? ==> Binds(t.l.op) >= Binds(t.op) && t.l.op != ASSIGN
    ensures t.r.Node? && t.op != ASSIGN ==> Binds(t.r.op) > Binds(t.op)
  {
  }

  /** The root operator of two trees over the same items is the same one. */
  lemma SameRoot(t: Tree, t': Tree)
    requires WellFormed(t) && WellFormed(t') && t.Node? && t'.Node? && Flat(t) == Flat(t')
    ensures |Flat(t.l)| >= |Flat(t'.l)|
  {
    hide Flat, Binds, WellFormed;
    var s, p, p' := Flat(t), |Flat(t.l)|, |Flat(t'.l)|;
    FlatAt(t);
    FlatAt(t');
    RootRules(t);
    RootRules(t');
    if p < p' {
      var r, l := s[p + 1..], s[..p'];
      assert r[p' - p - 1] == s[p'];
      assert l[p] == s[p];
      IsNode(t.r, p' - p - 1);
      IsNode(t'.l, p);
      OperatorsBelow(t'.l, p);
      OperatorsBelow(t.r, p' - p - 1);
    }
  }

  lemma {:induction false} SameItemsSameTree(t: Tree, t': Tree)
    requires WellFormed(t) && WellFormed(t') && Flat(t) == Flat(t')
    ensures t == t'
  {
    if t.Node? {
      SameRoot(t, t');
      SameRoot(t', t);
      FlatAt(t);
      FlatAt(t');
      SameItemsSameTree(t.l, t'.l);
      SameItemsSameTree(t.r, t'.r);
    } else {
      assert t == Flat(t)[0].u == Flat(t')[0].u == t';
    }
  }

  // ---------------------------------------------------------------------
  // Unique readability
  // ---------------------------------------------------------------------

  /** No binary operator follows. */
  predicate Stops(s: seq<Token>) {
    s != [] ==> Precedence(s[0]) == -1
  }

  /** No operand is a proper beginning of another. */
  lemma {:induction false} OperandsDiffer(u: Tree, s: seq<Token>, u': Tree, s': seq<Token>)
    requires WellFormed(u) && WellFormed(u') && !u.Node? && !u'.Node? && Yield(u) + s == Yield(u') + s'
    ensures u == u' && s == s'
    decreases |Yield(u)|, 0
  {
    assert Yield(u)[0] == (Yield(u) + s)[0] == Yield(u')[0];
    match u
    case Variable(_) => assert s == (Yield(u) + s)[1..] == s';
    case Constant(_) => assert s == (Yield(u) + s)[1..] == s';
    case Prefix(_, e) =>
      assert Yield(e) + s == (Yield(u) + s)[1..] == (Yield(u') + s')[1..] == Yield(u'.e) + s';
      OperandsDiffer(e, s, u'.e, s');
    case Paren(e) =>
      assert Yield(e) + ([RParen] + s) == (Yield(u) + s)[1..] == (Yield(u') + s')[1..] == Yield(u'.e) + ([RParen] + s');
      UniqueTree(e, [RParen] + s, u'.e, [RParen] + s');
      assert s == ([RParen] + s)[1..] == ([RParen] + s')[1..] == s';
  }

  lemma {:induction false} ItemsDiffer(a: seq<Item>, s: seq<Token>, b: seq<Item>, s': seq<Token>, operator: bool,
                                       size: nat)
    requires Alternates(a, operator) && Alternates(b, operator) && Stops(s) && Stops(s')
    requires Text(a) + s == Text(b) + s' && |Text(a)| <= size
    ensures a == b && s == s'
    decreases size, 1, |a|
  {
    hide Text, ItemText, Yield, WellFormed, Precedence, Alternates, Binds, Stops;
    AlternatesHead(a, operator);
    AlternatesHead(b, operator);
    assert Text([]) + s == s && Text([]) + s' == s' by { NoText(); }
    if a != [] && b != [] {
      TextHead(a);
      TextHead(b);
      var l, r := Text(a[1..]) + s, Text(b[1..]) + s';
      Regroup(ItemText(a[0]), Text(a[1..]), s);
      Regroup(ItemText(b[0]), Text(b[1..]), s');
      HeadsDiffer(a[0], l, b[0], r, operator, size);
      ItemsDiffer(a[1..], s, b[1..], s', !operator, size);
      assert a == [a[0]] + a[1..] && b == [b[0]] + b[1..];
    } else if b != [] {
      NotStopped(b, s', s);
    } else if a != [] {
      NotStopped(a, s, s');
    }
  }

  lemma AlternatesHead(items: seq<Item>, operator: bool)
    requires Alternates(items, operator)
    ensures items == [] ==> operator
    ensures items != [] ==> items[0].Operator? == operator && Alternates(items[1..], !operator)
    ensures items != [] && !operator ==> !items[0].u.Node? && WellFormed(items[0].u)
  {
  }

  lemma HeadsDiffer(a: Item, s: seq<Token>, b: Item, s': seq<Token>, operator: bool, size: nat)
    requires ItemText(a) + s == ItemText(b) + s' && |ItemText(a)| <= size
    requires if operator then a.Operator? && b.Operator?
             else a.Operand? && b.Operand? && !a.u.Node? && !b.u.Node? && WellFormed(a.u) && WellFormed(b.u)
    ensures a == b && s == s'
    decreases size, 1, 0
  {
    if operator {
      assert Op(a.op) == (ItemText(a) + s)[0] == (ItemText(b) + s')[0] == Op(b.op);
      assert s == (ItemText(a) + s)[1..] == (ItemText(b) + s')[1..] == s';
    } else {
      OperandsDiffer(a.u, s, b.u, s');
    }
  }

  /** Items that begin with an operator are not empty text. */
  lemma NotStopped(items: seq<Item>, s: seq<Token>, s': seq<Token>)
    requires items != [] && Alternates(items, true) && Stops(s')
    ensures Text(items) + s != s'
  {
    TextHead(items);
    assert (Text(items) + s)[0] == Op(items[0].op);
  }

  lemma NoText()
    ensures Text([]) == []
  {
  }

  lemma TextHead(items: seq<Item>)
    requires items != []
    ensures Text(items) == ItemText(items[0]) + Text(items[1..])
  {
  }

  /** The main result about the grammar: where no operator follows, the tree
      and its end are determined by the tokens. */
  lemma {:induction false} UniqueTree(t: Tree, s: seq<Token>, t': Tree, s': seq<Token>)
    requires WellFormed(t) && WellFormed(t') && Yield(t) + s == Yield(t') + s' && Stops(s) && Stops(s')
    ensures t == t' && s == s'
    decreases |Yield(t)|, 2
  {
    TextFlat(t);
    TextFlat(t');
    FlatAlternates(t);
    FlatAlternates(t');
    ItemsDiffer(Flat(t), s, Flat(t'), s', false, |Yield(t)|);
    SameItemsSameTree(t, t');
  }

  /** Two operators that bind equally group to the right exactly if the first
      is a plain assignment, and to the left exactly if it is not.  Unlike in C,
      where all assignments group to the right (section 6.5.16 of
      ISO/IEC 9899:2011), compound assignments group to the left. */
  lemma GroupsExactly(a: Tree, o: Operator, b: Tree, o': Operator, c: Tree)
    requires WellFormed(a) && WellFormed(b) && WellFormed(c) && !a.Node? && !b.Node? && !c.Node?
    requires Binds(o) == Binds(o') >= Binds(ASSIGN)
    ensures var left, right := Node(Node(a, o, b), o', c), Node(a, o, Node(b, o', c));
            && Yield(left) == Yield(right)
            && (WellFormed(right) <==> o == ASSIGN)
            && (WellFormed(left) <==> o != ASSIGN)
  {
    Regroup(Yield(a) + [Op(o)], Yield(b), [Op(o')]);
    Regroup(Yield(a) + [Op(o)], Yield(b) + [Op(o')], Yield(c));
  }

  // ---------------------------------------------------------------------
  // The levels of C
  // ---------------------------------------------------------------------

  predicate IsAssignment(o: Operator) {
    match o
    case ASSIGN | PLUS_ASSIGN | MINUS_ASSIGN | TIMES_ASSIGN | DIVIDE_ASSIGN => true
    case _ => false
  }

  /** The binary operators of each level, the loosest first. */
  predicate OnLevel(o: Operator, level: nat) {
    match level
    case 0 => IsAssignment(o)
    case 1 => o.LOGICAL_AND?
    case 2 => o.AND?
    case 3 => o.EQUAL? || o.NOT_EQUAL? || o.GREATER_EQUAL? || o.LESS_EQUAL?
    case 4 => o.LESS? || o.GREATER?
    case 5 => o.SHIFT_LEFT? || o.SHIFT_RIGHT?
    case 6 => o.PLUS? || o.MINUS?
    case 7 => o.STAR? || o.SLASH? || o.PERCENT?
    case _ => false
  }

  /** The levels of section 6.5 of ISO/IEC 9899:2011, as far as the parser has the
      operators: all four relations are on one level. */
  predicate OnLevelOfC(o: Operator, level: nat) {
    match level
    case 3 => o.EQUAL? || o.NOT_EQUAL?
    case 4 => o.LESS? || o.GREATER? || o.LESS_EQUAL? || o.GREATER_EQUAL?
    case _ => OnLevel(o, level)
  }

  /** o' is on a tighter level than o. */
  ghost predicate Tighter(o': Operator, o: Operator) {
    exists i: nat, j: nat :: i < j && OnLevel(o, i) && OnLevel(o', j)
  }

  ghost predicate TighterInC(o': Operator, o: Operator) {
    exists i: nat, j: nat :: i < j && OnLevelOfC(o, i) && OnLevelOfC(o', j)
  }

  /** All but `!`. */
  predicate IsBinary(o: Operator) { o != BANG }

  /** The operators of the levels, and no others, stand between operands; the
      four unary ones, and no others, before one. */
  lemma OperatorsExactly(o: Operator, e: Tree, e': Tree)
    requires WellFormed(e) && WellFormed(e') && !e.Node? && !e'.Node?
    ensures WellFormed(Node(e, o, e')) <==> exists i: nat :: OnLevel(o, i)
    ensures WellFormed(Prefix(o, e)) <==> o == AND || o == STAR || o == BANG || o == MINUS
    ensures Stops([Op(o)]) <==> o == BANG
  {
    if IsBinary(o) {
      var i := LevelOf(o);
    }
  }

  lemma LevelOf(o: Operator) returns (level: nat)
    requires IsBinary(o)
    ensures OnLevel(o, level)
  {
    level := Binds(o) / 10 - 1;
  }

  /** Every level is one precedence. */
  lemma LevelBinds(o: Operator, level: nat)
    requires OnLevel(o, level)
    ensures Binds(o) == 10 * (level + 1)
  {
  }

  lemma TighterBinds(o: Operator, o': Operator)
    requires IsBinary(o) && IsBinary(o')
    ensures Tighter(o', o) <==> Binds(o) < Binds(o')
  {
    hide Binds, OnLevel;
    if Tighter(o', o) {
      var k: nat, l: nat :| k < l && OnLevel(o, k) && OnLevel(o', l);
      LevelBinds(o, k);
      LevelBinds(o', l);
    }
    if Binds(o) < Binds(o') {
      var i := LevelOf(o);
      var j := LevelOf(o');
      LevelBinds(o, i);
      LevelBinds(o', j);
    }
  }

  /** What stands between three operands decides how they are grouped: to the
      right exactly if the second operator is on a tighter level or the first is
      a plain assignment, otherwise to the left. */
  lemma GroupsByLevel(a: Tree, o: Operator, b: Tree, o': Operator, c: Tree)
    requires WellFormed(a) && WellFormed(b) && WellFormed(c) && !a.Node? && !b.Node? && !c.Node?
    requires IsBinary(o) && IsBinary(o')
    ensures var left, right := Node(Node(a, o, b), o', c), Node(a, o, Node(b, o', c));
            && Yield(left) == Yield(right) == Yield(a) + [Op(o)] + Yield(b) + [Op(o')] + Yield(c)
            && (WellFormed(right) <==> Tighter(o', o) || o == ASSIGN)
            && (WellFormed(left) <==> !Tighter(o', o) && o != ASSIGN)
  {
    hide Tighter;
    TighterBinds(o, o');
    Regroup(Yield(a) + [Op(o)], Yield(b), [Op(o')]);
    Regroup(Yield(a) + [Op(o)], Yield(b) + [Op(o')], Yield(c));
  }

  /** So that is the tree, and the only one, of the three operands. */
  lemma GroupedTree(a: Tree, o: Operator, b: Tree, o': Operator, c: Tree, s: seq<Token>, t: Tree, s': seq<Token>)
    requires WellFormed(a) && WellFormed(b) && WellFormed(c) && !a.Node? && !b.Node? && !c.Node?
    requires IsBinary(o) && IsBinary(o') && Stops(s) && Stops(s') && WellFormed(t)
    requires Yield(t) + s' == Yield(a) + [Op(o)] + Yield(b) + [Op(o')] + Yield(c) + s
    ensures s' == s
    ensures t == if Tighter(o', o) || o == ASSIGN then Node(a, o, Node(b, o', c)) else Node(Node(a, o, b), o', c)
  {
    hide Yield, Stops, WellFormed, Tighter;
    GroupsByLevel(a, o, b, o', c);
    var left, right := Node(Node(a, o, b), o', c), Node(a, o, Node(b, o', c));
    UniqueTree(if Tighter(o', o) || o == ASSIGN then right else left, s, t, s');
  }

  /** C groups assignments to the right, and everything else by its levels.  The
      parser does so exactly unless a compound assignment stands before another
      assignment, `<=` or `>=` behind `==` or `!=`, or `<` or `>` behind `<=` or
      `>=`. */
  lemma GroupsLikeC(o: Operator, o': Operator)
    requires IsBinary(o) && IsBinary(o')
    ensures (Tighter(o', o) || o == ASSIGN <==> TighterInC(o', o) || (IsAssignment(o) && IsAssignment(o')))
            <==> && !(IsAssignment(o) && o != ASSIGN && IsAssignment(o'))
                 && !((o.EQUAL? || o.NOT_EQUAL?) && (o'.LESS_EQUAL? || o'.GREATER_EQUAL?))
                 && !((o.LESS_EQUAL? || o.GREATER_EQUAL?) && (o'.LESS? || o'.GREATER?))
  {
    hide Tighter, TighterInC;
    TighterBinds(o, o');
    TighterRanks(o, o');
  }

  /** The level of an operator in C, as a number. */
  function RankInC(o: Operator): nat {
    match o
    case LOGICAL_AND => 1
    case AND => 2
    case EQUAL | NOT_EQUAL => 3
    case LESS | GREATER | LESS_EQUAL | GREATER_EQUAL => 4
    case SHIFT_LEFT | SHIFT_RIGHT => 5
    case PLUS | MINUS => 6
    case STAR | SLASH | PERCENT => 7
    case _ => 0
  }

  lemma RankIsLevel(o: Operator, level: nat)
    requires IsBinary(o)
    ensures OnLevelOfC(o, level) <==> level == RankInC(o)
  {
  }

  lemma TighterRanks(o: Operator, o': Operator)
    requires IsBinary(o) && IsBinary(o')
    ensures TighterInC(o', o) <==> RankInC(o) < RankInC(o')
  {
    hide OnLevelOfC, RankInC;
    if TighterInC(o', o) {
      var k: nat, l: nat :| k < l && OnLevelOfC(o, k) && OnLevelOfC(o', l);
      RankIsLevel(o, k);
      RankIsLevel(o', l);
    }
    RankIsLevel(o, RankInC(o));
    RankIsLevel(o', RankInC(o'));
  }
}
