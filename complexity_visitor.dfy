/**
 * The cyclomatic complexity counter: a visitor whose complexity field starts
 * at 1 and grows by one at every decision point it meets.
 */
module Complexity {

  import opened Wrappers
  import opened JavaText
  import opened Ast

  /**
   * Whether the visitor increments at a node of kind k: every if, catch,
   * for, for-each, while, do and ternary; a switch entry whose token range is
   * present and does not start with "default" (ignoring case); a binary
   * expression whose operator's name is "and" or "or" (ignoring case).
   */
  predicate IsDecisionPoint(k: Kind)
    ensures (k.IfStmt? || k.CatchClause? || k.ForStmt? || k.ForEachStmt? ||
             k.WhileStmt? || k.DoStmt? || k.ConditionalExpr?) ==> IsDecisionPoint(k)
    ensures IsDecisionPoint(k) ==>
              k.IfStmt? || k.CatchClause? || k.ForStmt? || k.ForEachStmt? || k.WhileStmt? ||
              k.DoStmt? || k.ConditionalExpr? || k.SwitchEntry? || k.BinaryExpr?
  {
    match k
    case IfStmt => true
    case CatchClause => true
    case ForStmt => true
    case ForEachStmt => true
    case WhileStmt => true
    case DoStmt => true
    case ConditionalExpr => true
    case SwitchEntry(first) => first.Some? && !EqualsIgnoreCase(first.value, "default")
    case BinaryExpr(op) => EqualsIgnoreCase(OperatorName(op), "and") || EqualsIgnoreCase(OperatorName(op), "or")
    case _ => false
  }

  /** The number of decision points among a sequence of nodes. */
  function Decisions(nodes: seq<Node>): nat {
    if nodes == [] then 0
    else Decisions(nodes[..|nodes| - 1]) + (if IsDecisionPoint(nodes[|nodes| - 1].kind) then 1 else 0)
  }

  /** The number of decision points in the tree rooted at n. */
  function DecisionCount(n: Node): nat {
    Decisions(PreOrder(n))
  }

  lemma {:induction false} DecisionsConcat(a: seq<Node>, b: seq<Node>)
    ensures Decisions(a + b) == Decisions(a) + Decisions(b)
    decreases |b|
  {
    if b == [] {
      assert a + b == a;
    } else {
      var b' := b[..|b| - 1];
      assert (a + b)[..|a + b| - 1] == a + b';
      assert (a + b)[|a + b| - 1] == b[|b| - 1];
      DecisionsConcat(a, b');
    }
  }

  /**
   * Only the short-circuit connectives count: a binary expression is a
   * decision point exactly when its operator is && or ||; the bitwise
   * BINARY_AND and BINARY_OR do not count.
   */
  lemma BinaryDecision(op: BinaryOperator)
    ensures IsDecisionPoint(BinaryExpr(op)) <==> op == And || op == Or
  {
    var lowered := ToLower(OperatorName(op));
    if op == And {
      assert lowered == "and";
    } else if op == Or {
      assert lowered == "or";
    } else if op == Xor {
      assert lowered[0] == 'x';
    } else {
      assert |lowered| > 3;
    }
  }

  /**
   * A switch entry counts exactly when its token range is present and its
   * first token is not "default" in any mix of cases.
   */
  lemma SwitchEntryDecision(first: Option<string>)
    ensures first == None ==> !IsDecisionPoint(SwitchEntry(first))
    ensures first == Some("default") || first == Some("DEFAULT") || first == Some("Default") ==>
              !IsDecisionPoint(SwitchEntry(first))
    ensures first == Some("case") ==> IsDecisionPoint(SwitchEntry(first))
  {
    if first.Some? {
      var lowered := ToLower(first.value);
      if first.value == "DEFAULT" || first.value == "Default" || first.value == "default" {
        assert lowered == "default";
      } else if first.value == "case" {
        assert lowered[0] == 'c';
      }
    }
  }

  /** The decision points of a sequence of subtrees, added up left to right. */
  function ChildDecisions(children: seq<Node>): nat {
    if children == [] then 0
    else ChildDecisions(children[..|children| - 1]) + DecisionCount(children[|children| - 1])
  }

  lemma {:induction false} ChildrenDecisions(n: Node, k: nat)
    requires k <= |n.children|
    ensures Decisions(ChildrenPreOrder(n, k)) == ChildDecisions(n.children[..k])
    decreases k
  {
    if k > 0 {
      ChildrenDecisions(n, k - 1);
      DecisionsConcat(ChildrenPreOrder(n, k - 1), PreOrder(n.children[k - 1]));
      assert n.children[..k][..k - 1] == n.children[..k - 1];
    }
  }

  /**
   * The count is compositional, as the visitor's recursion is: a node
   * contributes one if it is a decision point, and each child's subtree
   * contributes its own count.
   */
  lemma DecisionCountUnfold(n: Node)
    ensures DecisionCount(n) == (if IsDecisionPoint(n.kind) then 1 else 0) + ChildDecisions(n.children)
  {
    DecisionsConcat([n], ChildrenPreOrder(n, |n.children|));
    ChildrenDecisions(n, |n.children|);
    assert n.children[..|n.children|] == n.children;
    assert [n][..0] == [];
  }

  /** A node without children. */
  function Leaf(k: Kind): Node {
    Node(k, [])
  }

  /** `lhs op rhs` over two plain names or literals. */
  function Binary(op: BinaryOperator, lhs: Node, rhs: Node): Node {
    Node(BinaryExpr(op), [lhs, rhs])
  }

  lemma ChildDecisionsOfPair(x: Node, y: Node)
    ensures ChildDecisions([x, y]) == DecisionCount(x) + DecisionCount(y)
  {
    assert [x, y][..1] == [x];
    assert [x][..0] == [];
    assert ChildDecisions([x]) == DecisionCount(x);
  }

  lemma {:induction false} ChildDecisionsConcat(a: seq<Node>, b: seq<Node>)
    ensures ChildDecisions(a + b) == ChildDecisions(a) + ChildDecisions(b)
    decreases |b|
  {
    if b == [] {
      assert a + b == a;
    } else {
      var b' := b[..|b| - 1];
      assert (a + b)[..|a + b| - 1] == a + b';
      assert (a + b)[|a + b| - 1] == b[|b| - 1];
      ChildDecisionsConcat(a, b');
    }
  }

  /** What a node's own kind adds to the count. */
  function Own(k: Kind): nat {
    if IsDecisionPoint(k) then 1 else 0
  }

  lemma LeafDecisions(k: Kind)
    ensures DecisionCount(Leaf(k)) == Own(k)
  {
    DecisionCountUnfold(Leaf(k));
  }

  lemma PairDecisions(k: Kind, x: Node, y: Node)
    ensures DecisionCount(Node(k, [x, y])) == Own(k) + DecisionCount(x) + DecisionCount(y)
  {
    DecisionCountUnfold(Node(k, [x, y]));
    ChildDecisionsOfPair(x, y);
  }

  /** A comparison of two operands that are not decision points is not one either. */
  lemma ComparisonHasNoDecision(op: BinaryOperator, lhs: Kind, rhs: Kind)
    requires op != And && op != Or
    requires !IsDecisionPoint(lhs) && !IsDecisionPoint(rhs)
    ensures DecisionCount(Binary(op, Leaf(lhs), Leaf(rhs))) == 0
  {
    BinaryDecision(op);
    LeafDecisions(lhs);
    LeafDecisions(rhs);
    PairDecisions(BinaryExpr(op), Leaf(lhs), Leaf(rhs));
  }

  /** && and || count once each, on top of their operands. */
  lemma ConnectiveDecisions(op: BinaryOperator, lhs: Node, rhs: Node)
    requires op == And || op == Or
    ensures DecisionCount(Binary(op, lhs, rhs)) == 1 + DecisionCount(lhs) + DecisionCount(rhs)
  {
    BinaryDecision(op);
    PairDecisions(BinaryExpr(op), lhs, rhs);
  }

  /** The condition `a > b && a < c || a == d` holds two decision points. */
  lemma ConnectivesCondition(a: Kind, b: Kind, c: Kind, d: Kind)
    requires !IsDecisionPoint(a) && !IsDecisionPoint(b) && !IsDecisionPoint(c) && !IsDecisionPoint(d)
    ensures DecisionCount(Binary(Or, Binary(And, Binary(Greater, Leaf(a), Leaf(b)),
                                                 Binary(Less, Leaf(a), Leaf(c))),
                                     Binary(Equals, Leaf(a), Leaf(d)))) == 2
  {
    var gt := Binary(Greater, Leaf(a), Leaf(b));
    var lt := Binary(Less, Leaf(a), Leaf(c));
    var eq := Binary(Equals, Leaf(a), Leaf(d));
    ComparisonHasNoDecision(Greater, a, b);
    ComparisonHasNoDecision(Less, a, c);
    ComparisonHasNoDecision(Equals, a, d);
    ConnectiveDecisions(And, gt, lt);
    ConnectiveDecisions(Or, Binary(And, gt, lt), eq);
  }

  /**
   * `if (a > b && a < c || a == d) {}`, for names and literals a, b, c, d:
   * the if statement and the two short-circuit connectives are three
   * decision points, so a visitor starting at 1 ends at 4.
   */
  lemma IfWithConnectivesScenario(a: Kind, b: Kind, c: Kind, d: Kind, block: Kind)
    requires !IsDecisionPoint(a) && !IsDecisionPoint(b) && !IsDecisionPoint(c)
    requires !IsDecisionPoint(d) && !IsDecisionPoint(block)
    ensures 1 + DecisionCount(Node(IfStmt, [Binary(Or, Binary(And, Binary(Greater, Leaf(a), Leaf(b)),
                                                                  Binary(Less, Leaf(a), Leaf(c))),
                                                      Binary(Equals, Leaf(a), Leaf(d))),
                                           Leaf(block)])) == 4
  {
    var condition := Binary(Or, Binary(And, Binary(Greater, Leaf(a), Leaf(b)), Binary(Less, Leaf(a), Leaf(c))),
                                Binary(Equals, Leaf(a), Leaf(d)));
    ConnectivesCondition(a, b, c, d);
    LeafDecisions(block);
    PairDecisions(IfStmt, condition, Leaf(block));
  }

  /** A switch entry whose token range starts with firstToken. */
  function Entry(firstToken: string, body: Node): Node {
    Node(SwitchEntry(Some(firstToken)), [body])
  }

  lemma EntryDecisions(firstToken: string, body: Node)
    requires firstToken == "case" || firstToken == "default"
    requires DecisionCount(body) == 0
    ensures DecisionCount(Entry(firstToken, body)) == if firstToken == "case" then 1 else 0
  {
    SwitchEntryDecision(Some(firstToken));
    DecisionCountUnfold(Entry(firstToken, body));
    assert [body][..0] == [];
    assert ChildDecisions([body]) == DecisionCount(body);
  }

  lemma QuadDecisions(k: Kind, w: Node, x: Node, y: Node, z: Node)
    ensures DecisionCount(Node(k, [w, x, y, z]))
            == Own(k) + DecisionCount(w) + DecisionCount(x) + DecisionCount(y) + DecisionCount(z)
  {
    ChildDecisionsOfPair(w, x);
    ChildDecisionsOfPair(y, z);
    ChildDecisionsConcat([w, x], [y, z]);
    assert [w, x] + [y, z] == [w, x, y, z];
    DecisionCountUnfold(Node(k, [w, x, y, z]));
  }

  lemma TripleDecisions(k: Kind, x: Node, y: Node, z: Node)
    ensures DecisionCount(Node(k, [x, y, z])) == Own(k) + DecisionCount(x) + DecisionCount(y) + DecisionCount(z)
  {
    ChildDecisionsOfPair(x, y);
    ChildDecisionsConcat([x, y], [z]);
    assert [z][..0] == [];
    assert ChildDecisions([z]) == DecisionCount(z);
    assert [x, y] + [z] == [x, y, z];
    DecisionCountUnfold(Node(k, [x, y, z]));
  }

  /**
   * `switch (x) { case 1: ...; case 2: ...; default: ... }` has two decision
   * points, so complexity 3; a switch with only a default entry has none,
   * so complexity 1.
   */
  lemma SwitchScenario(x: Kind, body: Node)
    requires !IsDecisionPoint(x) && DecisionCount(body) == 0
    ensures 1 + DecisionCount(Node(OtherNode, [Leaf(x), Entry("case", body), Entry("case", body),
                                              Entry("default", body)])) == 3
    ensures 1 + DecisionCount(Node(OtherNode, [Leaf(x), Entry("default", body)])) == 1
  {
    LeafDecisions(x);
    EntryDecisions("case", body);
    EntryDecisions("default", body);
    QuadDecisions(OtherNode, Leaf(x), Entry("case", body), Entry("case", body), Entry("default", body));
    PairDecisions(OtherNode, Leaf(x), Entry("default", body));
  }

  /** A loop whose condition is `v < bound` and whose body is a block. */
  function Loop(kind: Kind, v: Kind, bound: Kind, block: Kind): Node {
    Node(kind, [Binary(Less, Leaf(v), Leaf(bound)), Leaf(block)])
  }

  lemma LoopDecisions(kind: Kind, v: Kind, bound: Kind, block: Kind)
    requires kind == ForStmt || kind == WhileStmt || kind == DoStmt
    requires !IsDecisionPoint(v) && !IsDecisionPoint(bound) && !IsDecisionPoint(block)
    ensures DecisionCount(Loop(kind, v, bound, block)) == 1
  {
    ComparisonHasNoDecision(Less, v, bound);
    LeafDecisions(block);
    PairDecisions(kind, Binary(Less, Leaf(v), Leaf(bound)), Leaf(block));
  }

  /** A for, a while and a do loop in sequence: complexity 4. */
  lemma LoopsScenario(v: Kind, bound: Kind, block: Kind)
    requires !IsDecisionPoint(v) && !IsDecisionPoint(bound) && !IsDecisionPoint(block)
    ensures 1 + DecisionCount(Node(OtherNode, [Loop(ForStmt, v, bound, block), Loop(WhileStmt, v, bound, block),
                                              Loop(DoStmt, v, bound, block)])) == 4
  {
    LoopDecisions(ForStmt, v, bound, block);
    LoopDecisions(WhileStmt, v, bound, block);
    LoopDecisions(DoStmt, v, bound, block);
    TripleDecisions(OtherNode, Loop(ForStmt, v, bound, block), Loop(WhileStmt, v, bound, block),
                    Loop(DoStmt, v, bound, block));
  }

  /** CyclomaticComplexityVisitor: the complexity field, incremented in place during the walk. */
  class CyclomaticComplexityVisitor {

    var complexity: int

    /** A fresh visitor counts the one path through straight-line code. */
    constructor()
      ensures complexity == 1
    {
      complexity := 1;
    }

    /** getComplexity. */
    function GetComplexity(): int
      reads this
    {
      complexity
    }

    /**
     * accept(visitor): count this node if it is a decision point, then visit
     * the children in order; the field grows by the number of decision
     * points in the subtree and never decreases.
     */
    method Visit(n: Node)
      modifies this
      ensures complexity == old(complexity) + DecisionCount(n)
      ensures complexity >= old(complexity)
      decreases n
    {
      if IsDecisionPoint(n.kind) {
        complexity := complexity + 1;
      }
      assert [n][..0] == [];
      var i := 0;
      while i < |n.children|
        invariant i <= |n.children|
        invariant complexity == old(complexity) + Decisions([n] + ChildrenPreOrder(n, i))
      {
        ghost var done := [n] + ChildrenPreOrder(n, i);
        Visit(n.children[i]);
        DecisionsConcat(done, PreOrder(n.children[i]));
        assert done + PreOrder(n.children[i]) == [n] + ChildrenPreOrder(n, i + 1);
        i := i + 1;
      }
    }
  }
}
