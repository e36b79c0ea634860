/**
 * The operand counter: a visitor that merges +1 into a frequency table for
 * every literal, every declared variable name and every NameExpr whose parent
 * is present and is not a field access, method call or array access. A name
 * that is a call argument or an array index has such a parent and is skipped.
 */
module Operands {

  import opened Wrappers
  import opened JavaText
  import opened Ast
  import opened FrequencyTable

  /**
   * Whether a NameExpr is skipped: it has no parent, or its parent is a field
   * access, a method call or an array access, whatever position it holds
   * there (scope, argument or index alike).
   */
  predicate SkippedName(parent: ParentKind) {
    parent.NoParent? || parent.FieldAccess? || parent.MethodCall? || parent.ArrayAccess?
  }

  /** The key the visitor merges when it meets a node of kind k, if it merges one. */
  function OperandKey(k: Kind): (r: Option<string>)
    ensures r.Some? <==>
              k.BooleanLiteral? || k.CharLiteral? || k.IntegerLiteral? || k.DoubleLiteral? ||
              k.LongLiteral? || k.StringLiteral? || k.NullLiteral? || k.VariableDeclarator? ||
              (k.NameExpr? && k.parent == OtherParent)
    ensures k.NullLiteral? ==> r == Some("null")
  {
    match k
    case BooleanLiteral(b) => Some(if b then "true" else "false")
    case CharLiteral(text) => Some(text)
    case IntegerLiteral(text) => Some(text)
    case DoubleLiteral(text) => Some(text)
    case LongLiteral(text) => Some(text)
    case StringLiteral(text) => Some(text)
    case NullLiteral => Some("null")
    case VariableDeclarator(name) => Some(name)
    case NameExpr(name, parent) =>
      if SkippedName(parent) then None
      else Some(if EqualsIgnoreCase(name, "null") then "null" else name)
    case _ => None
  }

  /** The keys merged for a sequence of nodes met one after the other. */
  function KeysOf(nodes: seq<Node>): seq<string> {
    if nodes == [] then []
    else
      var own := OperandKey(nodes[|nodes| - 1].kind);
      KeysOf(nodes[..|nodes| - 1]) + (if own.Some? then [own.value] else [])
  }

  /** The keys merged while visiting the whole tree rooted at n, in visiting order. */
  function OperandKeys(n: Node): seq<string> {
    KeysOf(PreOrder(n))
  }

  lemma {:induction false} KeysOfConcat(a: seq<Node>, b: seq<Node>)
    ensures KeysOf(a + b) == KeysOf(a) + KeysOf(b)
    decreases |b|
  {
    if b == [] {
      assert a + b == a;
    } else {
      var b' := b[..|b| - 1];
      assert (a + b)[..|a + b| - 1] == a + b';
      assert (a + b)[|a + b| - 1] == b[|b| - 1];
      KeysOfConcat(a, b');
    }
  }

  /**
   * Visiting a node without children merges at most its own key: a literal
   * or a declarator adds exactly 1 under its key and leaves every other key
   * alone; a node that merges nothing leaves the table as it was.
   */
  lemma LeafContribution(m: Table, k: Kind)
    ensures OperandKey(k).Some? ==> MergeAll(m, OperandKeys(Node(k, []))) == Merge(m, OperandKey(k).value)
    ensures OperandKey(k).None? ==> MergeAll(m, OperandKeys(Node(k, []))) == m
  {
    var own := OperandKey(k);
    var ks := if own.Some? then [own.value] else [];
    OperandKeysUnfold(Node(k, []));
    assert ChildKeys([]) == [];
    assert OperandKeys(Node(k, [])) == ks;
    if own.Some? {
      assert ks[..0] == [];
      assert MergeAll(m, ks) == Merge(MergeAll(m, []), own.value);
    }
  }

  /** The keys merged while visiting each of the given subtrees in turn. */
  function ChildKeys(children: seq<Node>): seq<string> {
    if children == [] then []
    else ChildKeys(children[..|children| - 1]) + OperandKeys(children[|children| - 1])
  }

  lemma {:induction false} ChildrenKeys(n: Node, k: nat)
    requires k <= |n.children|
    ensures KeysOf(ChildrenPreOrder(n, k)) == ChildKeys(n.children[..k])
    decreases k
  {
    if k > 0 {
      ChildrenKeys(n, k - 1);
      KeysOfConcat(ChildrenPreOrder(n, k - 1), PreOrder(n.children[k - 1]));
      assert n.children[..k][..k - 1] == n.children[..k - 1];
    }
  }

  /**
   * Visiting any node merges its own key, if it has one, and then the keys of
   * its children's subtrees, child by child in order.
   */
  lemma OperandKeysUnfold(n: Node)
    ensures OperandKeys(n) ==
              (if OperandKey(n.kind).Some? then [OperandKey(n.kind).value] else []) + ChildKeys(n.children)
  {
    KeysOfConcat([n], ChildrenPreOrder(n, |n.children|));
    ChildrenKeys(n, |n.children|);
    assert n.children[..|n.children|] == n.children;
    assert [n][..0] == [];
  }

  /**
   * A declarator `T x = init;`: its type and name children merge nothing, so
   * the table gains 1 under the declared name and then the operands of the
   * initializer, and no more.
   */
  lemma DeclaratorContribution(m: Table, name: string, typeNode: Node, nameNode: Node, init: Node)
    requires OperandKeys(typeNode) == [] && OperandKeys(nameNode) == []
    ensures OperandKeys(Node(VariableDeclarator(name), [typeNode, nameNode, init])) == [name] + OperandKeys(init)
    ensures MergeAll(m, OperandKeys(Node(VariableDeclarator(name), [typeNode, nameNode, init]))) ==
              MergeAll(Merge(m, name), OperandKeys(init))
  {
    var cs := [typeNode, nameNode, init];
    OperandKeysUnfold(Node(VariableDeclarator(name), cs));
    assert cs[..2] == [typeNode, nameNode] && cs[..2][..1] == [typeNode] && [typeNode][..0] == [];
    assert ChildKeys([typeNode]) == [];
    assert ChildKeys([typeNode, nameNode]) == [];
    assert ChildKeys(cs) == OperandKeys(init);
    MergeAllConcat(m, [name], OperandKeys(init));
    assert [name][..0] == [];
  }

  /**
   * A NameExpr is counted exactly when its parent is present and is not a
   * field access, method call or array access; it is counted under "null"
   * exactly when its text equals "null" ignoring case, and under its own
   * text otherwise.
   */
  lemma NameExprKey(name: string, parent: ParentKind)
    ensures OperandKey(NameExpr(name, parent)).Some? <==> parent == OtherParent
    ensures OperandKey(NameExpr(name, parent)).Some? ==>
              (OperandKey(NameExpr(name, parent)).value == "null" <==> EqualsIgnoreCase(name, "null"))
    ensures OperandKey(NameExpr(name, parent)).Some? && !EqualsIgnoreCase(name, "null") ==>
              OperandKey(NameExpr(name, parent)).value == name
  {
    if name == "null" {
      assert ToLower(name) == "null";
    }
  }

  /** The boolean literal false and the string literal "false" are one operand. */
  lemma BooleanAndStringShareKey(b: bool)
    ensures OperandKey(BooleanLiteral(b)) == OperandKey(StringLiteral(if b then "true" else "false"))
  {
  }

  /**
   * What a fresh visitor reports after one walk over n: one key per distinct
   * operand, each counted at least once, the counts adding up to the number
   * of operand occurrences; and the same table whatever order the operands
   * were met in.
   */
  lemma FreshTableOfTree(n: Node)
    ensures Tally(OperandKeys(n)).Keys == Elements(OperandKeys(n))
    ensures SumValues(Tally(OperandKeys(n))) == |OperandKeys(n)|
    ensures forall k :: k in Tally(OperandKeys(n)) ==> Tally(OperandKeys(n))[k] >= 1
    ensures forall s :: multiset(s) == multiset(OperandKeys(n)) ==> Tally(s) == Tally(OperandKeys(n))
  {
    var keys := OperandKeys(n);
    TallyKeys(keys);
    TallySum(keys);
    forall k | k in Tally(keys) ensures Tally(keys)[k] >= 1 {
      TallyCounts(keys, k);
    }
    forall s | multiset(s) == multiset(keys) ensures Tally(s) == Tally(keys) {
      TallyOrderIndependent(s, keys);
    }
  }

  /** OperandVisitor: the operandsPerMethod map, updated in place during the walk. */
  class OperandVisitor {

    /** Maps each operand name to its number of occurrences. */
    var operandsPerMethod: Table

    constructor()
      ensures operandsPerMethod == map[]
    {
      operandsPerMethod := map[];
    }

    /**
     * accept(visitor): merge this node's key, if any, then visit the
     * children in order, so the whole subtree's keys are merged.
     */
    method Visit(n: Node)
      modifies this
      ensures operandsPerMethod == MergeAll(old(operandsPerMethod), OperandKeys(n))
      decreases n
    {
      var own := OperandKey(n.kind);
      if own.Some? {
        operandsPerMethod := Merge(operandsPerMethod, own.value);
      }
      assert [n][..0] == [];
      assert operandsPerMethod == MergeAll(old(operandsPerMethod), KeysOf([n]));
      var i := 0;
      while i < |n.children|
        invariant i <= |n.children|
        invariant operandsPerMethod == MergeAll(old(operandsPerMethod), KeysOf([n] + ChildrenPreOrder(n, i)))
      {
        ghost var done := [n] + ChildrenPreOrder(n, i);
        Visit(n.children[i]);
        MergeAllConcat(old(operandsPerMethod), KeysOf(done), OperandKeys(n.children[i]));
        KeysOfConcat(done, PreOrder(n.children[i]));
        assert done + PreOrder(n.children[i]) == [n] + ChildrenPreOrder(n, i + 1);
        i := i + 1;
      }
    }

    /** getNumberOfUniqueOperands: the number of keys in the map. */
    function GetNumberOfUniqueOperands(): (unique: int)
      reads this
      ensures unique == |operandsPerMethod.Keys|
    {
      |operandsPerMethod|
    }

    /** getTotalNumberOfOperands: the sum of all counts, entry by entry. */
    method GetTotalNumberOfOperands() returns (total: int)
      ensures total == SumValues(operandsPerMethod)
    {
      total := 0;
      var pending := operandsPerMethod.Keys;
      while pending != {}
        invariant pending <= operandsPerMethod.Keys
        invariant total + SumOver(pending, operandsPerMethod) == SumValues(operandsPerMethod)
        decreases |pending|
      {
        var key :| key in pending;
        SumOverRemove(pending, operandsPerMethod, key);
        total := total + operandsPerMethod[key];
        pending := pending - {key};
      }
    }
  }
}
