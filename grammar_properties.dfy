/**
 * Properties of the grammar of src/io/parser.ts that relate several
 * productions: how `parseList` reads its items, the `var`-only scopes, the
 * statement kinds of the dispatch, and which statements can be decoded at all.
 */
module GrammarProperties {
  import opened Results
  import opened Kinds
  import opened NodeTypes
  import opened Ast
  import opened Wire
  import opened Grammar
  import opened Encoding

  // ---------------------------------------------------------------------------
  // `parseList` (src/io/parser.ts:55-62)

  /** `nodes` are what `item` decodes one after the other from `pos`, ending at `next`. */
  ghost predicate Chain<T>(item: nat -> Result<Decoded<T>>, pos: nat, nodes: seq<T>, next: nat)
    decreases |nodes|
  {
    if nodes == [] then next == pos
    else item(pos).Ok? && item(pos).value.node == nodes[0] && Chain(item, item(pos).value.next, nodes[1..], next)
  }

  /** The loop of `parseList` succeeds exactly when `count` calls of `item` succeed in a row. */
  lemma {:induction false} LoopIsChain<T>(items: seq<Item>, pos: nat, count: nat, item: nat -> Result<Decoded<T>>,
                                          nodes: seq<T>, next: nat)
    ensures Loop(items, pos, count, item) == Ok(Decoded(nodes, next)) <==> |nodes| == count && Chain(item, pos, nodes, next)
    decreases count
  {
    if count != 0 && item(pos).Ok? && nodes != [] {
      var first := item(pos).value;
      LoopIsChain(items, first.next, count - 1, item, nodes[1..], next);
      assert nodes == [nodes[0]] + nodes[1..];
    }
  }

  /**
   * `parseList` reads one varnum `n` and then calls `item` exactly `n` times,
   * keeping the results in reading order.
   */
  lemma ListIsChain<T>(items: seq<Item>, pos: nat, item: nat -> Result<Decoded<T>>, nodes: seq<T>, next: nat)
    ensures List(items, pos, item) == Ok(Decoded(nodes, next)) <==>
              pos < |items| && items[pos] == NumItem(|nodes|) && Chain(item, pos + 1, nodes, next)
  {
    if ReadVarnum(items, pos).Ok? {
      LoopIsChain(items, pos + 1, items[pos].n, item, nodes, next);
    }
  }

  /** A count of zero consumes only the count and yields no items; any other count yields some. */
  lemma EmptyList<T>(items: seq<Item>, pos: nat, item: nat -> Result<Decoded<T>>)
    ensures List(items, pos, item) == Ok(Decoded([], pos + 1)) <==> pos < |items| && items[pos] == NumItem(0)
    ensures List(items, pos, item).Ok? && List(items, pos, item).value.node == [] ==> items[pos] == NumItem(0)
  {
    ListIsChain(items, pos, item, [], pos + 1);
  }

  /** With an item decoder that always fails, only the empty list decodes. */
  lemma {:induction false} ListOfFailingItems<T>(items: seq<Item>, pos: nat, item: nat -> Result<Decoded<T>>)
    requires forall p: nat :: item(p).Err?
    ensures List(items, pos, item).Ok? <==> pos < |items| && items[pos] == NumItem(0)
  {
    EmptyList(items, pos, item);
    if List(items, pos, item).Ok? {
      var r := List(items, pos, item).value;
      ListIsChain(items, pos, item, r.node, r.next);
    }
  }

  /** The element lists whose elements reach an expression, a binding or a method decode only when empty. */
  lemma FailingElementLists(items: seq<Item>, pos: nat)
    ensures ClassElementListAt(items, pos).Ok? <==> pos < |items| && items[pos] == NumItem(0)
    ensures DeclaratorListAt(items, pos).Ok? <==> pos < |items| && items[pos] == NumItem(0)
    ensures SwitchCaseListAt(items, pos).Ok? <==> pos < |items| && items[pos] == NumItem(0)
  {
    ListOfFailingItems(items, pos, ClassElementDecoder(items));
    ListOfFailingItems(items, pos, DeclaratorDecoder(items));
    ListOfFailingItems(items, pos, SwitchCaseDecoder(items));
  }

  /** Every node of a chain has each property that every successful call of `item` guarantees. */
  lemma {:induction false} ChainAll<T>(item: nat -> Result<Decoded<T>>, pos: nat, nodes: seq<T>, next: nat, P: T -> bool)
    requires Chain(item, pos, nodes, next)
    requires forall p: nat :: item(p).Ok? ==> P(item(p).value.node)
    ensures forall i :: 0 <= i < |nodes| ==> P(nodes[i])
    decreases |nodes|
  {
    if nodes != [] {
      ChainAll(item, item(pos).value.next, nodes[1..], next, P);
      assert forall i :: 1 <= i < |nodes| ==> nodes[i] == nodes[1..][i - 1];
    }
  }

  // ---------------------------------------------------------------------------
  // Declared names (src/io/parser.ts:110-156, 284-295)

  /** A decoded list of declared names holds only `var` names. */
  lemma DeclaredNameListVarOnly(items: seq<Item>, pos: nat)
    ensures DeclaredNameListAt(items, pos).Ok? ==> VarOnly(DeclaredNameListAt(items, pos).value.node)
  {
    var r := DeclaredNameListAt(items, pos);
    if r.Ok? {
      ListIsChain(items, pos, DeclaredNameDecoder(items), r.value.node, r.value.next);
      ChainAll(DeclaredNameDecoder(items), pos + 1, r.value.node, r.value.next,
               (n: AssertedDeclaredName) => n.kind == AssertedDeclaredKind.Var);
    }
  }

  /** The global scope of a script and the scope of a block declare only `var` names. */
  lemma ScopesDeclareVarOnly(items: seq<Item>, pos: nat)
    ensures ScriptGlobalScopeAt(items, pos).Ok? ==> VarOnly(ScriptGlobalScopeAt(items, pos).value.node.declaredNames)
    ensures BlockScopeAt(items, pos).Ok? ==> VarOnly(BlockScopeAt(items, pos).value.node.declaredNames)
  {
    DeclaredNameListVarOnly(items, pos + 1);
  }

  // ---------------------------------------------------------------------------
  // The statement kinds (src/types.ts:500-502, src/io/parser.ts:176-230)

  /** Every statement shape is written under one of the dispatch tags. */
  lemma TypeIsStatementKind(s: Statement)
    ensures s.Type() in StatementKinds
  {
  }

  /** The dispatch tags are exactly the tags of the statement shapes. */
  lemma StatementKindsAreTypes(kind: NodeType)
    ensures kind in StatementKinds <==> exists s: Statement :: s.Type() == kind
  {
    if s: Statement :| s.Type() == kind {
      TypeIsStatementKind(s);
    }
    var block := Block.Block(AssertedBlockScope.AssertedBlockScope([], false), []);
    var body := Statement.EmptyStatement;
    var e := Expression.Expression(NodeType.ThisExpression);
    var name := BindingIdentifier.BindingIdentifier("f");
    var left := LeftTarget(AssignmentTarget.AssignmentTarget(NodeType.AssignmentTargetIdentifier));
    var shape: Statement;
    if kind == NodeType.Block {
      shape := BlockStatement(block);
    } else if kind == NodeType.BreakStatement {
      shape := Statement.BreakStatement(None);
    } else if kind == NodeType.ContinueStatement {
      shape := Statement.ContinueStatement(None);
    } else if kind == NodeType.ClassDeclaration {
      shape := Statement.ClassDeclaration(name, None, []);
    } else if kind == NodeType.DebuggerStatement {
      shape := Statement.DebuggerStatement;
    } else if kind == NodeType.EmptyStatement {
      shape := Statement.EmptyStatement;
    } else if kind == NodeType.ExpressionStatement {
      shape := Statement.ExpressionStatement(e);
    } else if kind == NodeType.EagerFunctionDeclaration {
      shape := FunctionDeclarationStatement(EagerFunctionDeclaration(false, false, name, []));
    } else if kind == NodeType.LazyFunctionDeclaration {
      shape := FunctionDeclarationStatement(LazyFunctionDeclaration(false, false, name, []));
    } else if kind == NodeType.IfStatement {
      shape := Statement.IfStatement(e, body, None);
    } else if kind == NodeType.DoWhileStatement {
      shape := Iteration(IterationStatement.DoWhileStatement(e, body));
    } else if kind == NodeType.ForInStatement {
      shape := Iteration(IterationStatement.ForInStatement(left, e, body));
    } else if kind == NodeType.ForOfStatement {
      shape := Iteration(IterationStatement.ForOfStatement(left, e, body));
    } else if kind == NodeType.ForStatement {
      shape := Iteration(IterationStatement.ForStatement(None, None, None, body));
    } else if kind == NodeType.WhileStatement {
      shape := Iteration(IterationStatement.WhileStatement(e, body));
    } else if kind == NodeType.LabelledStatement {
      shape := Statement.LabelledStatement("l", body);
    } else if kind == NodeType.ReturnStatement {
      shape := Statement.ReturnStatement(None);
    } else if kind == NodeType.SwitchStatement {
      shape := Statement.SwitchStatement(e, []);
    } else if kind == NodeType.SwitchStatementWithDefault {
      shape := Statement.SwitchStatementWithDefault(e, [], SwitchDefault.SwitchDefault([]), []);
    } else if kind == NodeType.ThrowStatement {
      shape := Statement.ThrowStatement(e);
    } else if kind == NodeType.TryCatchStatement {
      var handler := CatchClause.CatchClause(AssertedBoundNamesScope.AssertedBoundNamesScope([], false), ObjectBinding, block);
      shape := Statement.TryCatchStatement(block, handler);
    } else if kind == NodeType.TryFinallyStatement {
      shape := Statement.TryFinallyStatement(block, None, block);
    } else if kind == NodeType.VariableDeclaration {
      shape := VariableDeclarationStatement(VariableDeclaration.VariableDeclaration(VariableDeclarationKind.Var, []));
    } else if kind == NodeType.WithStatement {
      shape := Statement.WithStatement(e, body);
    } else {
      return;
    }
    assert shape.Type() == kind;
  }

  /** A decoded statement has the kind of the tag it was dispatched on. */
  lemma StatementTagged(items: seq<Item>, pos: nat)
    ensures StatementAt(items, pos).Ok? ==> Peek(items, pos) == Ok(StatementAt(items, pos).value.node.Type())
  {
    NestingTagged(items, pos);
    LeafTagged(items, pos);
  }

  lemma NestingTagged(items: seq<Item>, pos: nat)
    ensures NestingStatementAt(items, pos).Ok? ==> Peek(items, pos) == Ok(NestingStatementAt(items, pos).value.node.Type())
  {
  }

  lemma LeafTagged(items: seq<Item>, pos: nat)
    ensures SimpleStatementAt(items, pos).Ok? ==> Peek(items, pos) == Ok(SimpleStatementAt(items, pos).value.node.Type())
    ensures OtherStatementAt(items, pos).Ok? ==> Peek(items, pos) == Ok(OtherStatementAt(items, pos).value.node.Type())
  {
  }

  /** A tag that is not a statement kind makes `parseStatement` throw, and so does a missing tag. */
  lemma UnknownKindFails(items: seq<Item>, pos: nat)
    ensures Peek(items, pos).Err? ==> StatementAt(items, pos).Err?
    ensures Peek(items, pos).Ok? && Peek(items, pos).value !in StatementKinds ==> StatementAt(items, pos).Err?
  {
  }

  /**
   * The statement kinds whose productions reach an expression, a binding, a
   * method definition or an unimplemented function declaration before they
   * can finish.
   */
  const FailingKinds: set<NodeType> := {
    NodeType.ClassDeclaration, NodeType.ExpressionStatement, NodeType.EagerFunctionDeclaration,
    NodeType.LazyFunctionDeclaration, NodeType.IfStatement, NodeType.DoWhileStatement, NodeType.ForInStatement,
    NodeType.ForOfStatement, NodeType.WhileStatement, NodeType.SwitchStatement, NodeType.SwitchStatementWithDefault,
    NodeType.ThrowStatement, NodeType.TryCatchStatement, NodeType.WithStatement
  }

  /** `parseStatement` throws on every statement kind of the fail-fast subset, whatever follows the tag. */
  lemma FailingKindsFail(items: seq<Item>, pos: nat)
    ensures Peek(items, pos).Ok? && Peek(items, pos).value in FailingKinds ==> StatementAt(items, pos).Err?
  {
  }

  /** The remaining ten dispatch tags are the statements that can decode. */
  lemma DecodedKinds(items: seq<Item>, pos: nat)
    ensures StatementAt(items, pos).Ok? ==> StatementAt(items, pos).value.node.Type() in StatementKinds - FailingKinds
  {
    StatementTagged(items, pos);
    FailingKindsFail(items, pos);
  }

  // ---------------------------------------------------------------------------
  // Variants (src/io/parser.ts:143-156, 446-457)

  /** Each declared kind is read back from its variant; only `var` survives `parseAssertedDeclaredName`. */
  lemma DeclaredKindRoundTrip(items: seq<Item>, pos: nat, k: AssertedDeclaredKind)
    requires pos < |items| && items[pos] == VariantItem(DeclaredKindVariant(k))
    ensures DeclaredKindAt(items, pos) == Ok(Decoded(k, pos + 1))
  {
  }

  /** Each declaration kind is read back from its variant. */
  lemma DeclarationKindRoundTrip(items: seq<Item>, pos: nat, k: VariableDeclarationKind)
    requires pos < |items| && items[pos] == VariantItem(DeclarationKindVariant(k))
    ensures VariableDeclarationKindAt(items, pos) == Ok(Decoded(k, pos + 1))
  {
  }

  // ---------------------------------------------------------------------------
  // `parseOptional` with a peek that throws (src/io/parser.ts:64-74)

  /**
   * `parseOptional` read literally against the typed items: `peekTaggedTuple`
   * fails on an item that is not a tag, and that failure propagates. Module
   * Grammar instead lets the delegate read such an item.
   */
  function StrictOptional<T>(items: seq<Item>, pos: nat, item: nat -> Result<Decoded<T>>): (r: Result<Decoded<Option<T>>>)
    ensures Peek(items, pos).Err? ==> r.Err?
    ensures Peek(items, pos).Ok? ==> r == Optional(items, pos, item)
  {
    var kind :- Peek(items, pos);
    if kind == NodeType.Null then Ok(Decoded(None, pos + 1))
    else
      var value :- item(pos);
      Ok(Decoded(Some(value.node), value.next))
  }

  /** The two readings of `parseOptional` differ exactly where no tag is and the delegate succeeds. */
  lemma OptionalReadingsDiffer<T>(items: seq<Item>, pos: nat, item: nat -> Result<Decoded<T>>)
    ensures StrictOptional(items, pos, item) != Optional(items, pos, item) <==> Peek(items, pos).Err? && item(pos).Ok?
  {
  }

  /** The `for` init clause, the `return` argument and the catch clause fail under both readings alike. */
  lemma TagDelegatesAgree(items: seq<Item>, pos: nat)
    ensures StrictOptional(items, pos, ForInitDecoder(items)) == Optional(items, pos, ForInitDecoder(items))
    ensures StrictOptional(items, pos, ExpressionDecoder(items)) == Optional(items, pos, ExpressionDecoder(items))
    ensures StrictOptional(items, pos, CatchClauseDecoder(items)) == Optional(items, pos, CatchClauseDecoder(items))
  {
    OptionalReadingsDiffer(items, pos, ForInitDecoder(items));
    OptionalReadingsDiffer(items, pos, ExpressionDecoder(items));
    OptionalReadingsDiffer(items, pos, CatchClauseDecoder(items));
  }

  /** `parseBreakStatement` with the literal reading of `parseOptional`. */
  function StrictBreakStatementAt(items: seq<Item>, pos: nat): (r: Result<Decoded<Statement>>)
    ensures r.Ok? ==> r.value.node == Statement.BreakStatement(None)
  {
    var tag :- ExpectKind(items, pos, NodeType.BreakStatement);
    var labelValue :- StrictOptional(items, tag.next, StringDecoder(items));
    Ok(Decoded(Statement.BreakStatement(labelValue.node), labelValue.next))
  }

  /** `parseContinueStatement` with the literal reading of `parseOptional`. */
  function StrictContinueStatementAt(items: seq<Item>, pos: nat): (r: Result<Decoded<Statement>>)
    ensures r.Ok? ==> r.value.node == Statement.ContinueStatement(None)
  {
    var tag :- ExpectKind(items, pos, NodeType.ContinueStatement);
    var labelValue :- StrictOptional(items, tag.next, StringDecoder(items));
    Ok(Decoded(Statement.ContinueStatement(labelValue.node), labelValue.next))
  }

  /**
   * Under the literal reading a label is never decoded: a string after the tag
   * is rejected where the model decodes it as the label, and a `Null` tag reads
   * the same under both.
   */
  lemma StrictLabels(items: seq<Item>, pos: nat)
    ensures StartsWith(items, pos, NodeType.BreakStatement) && pos + 1 < |items| && items[pos + 1].StringItem? ==>
              StrictBreakStatementAt(items, pos).Err? && BreakStatementAt(items, pos).Ok?
    ensures StartsWith(items, pos, NodeType.ContinueStatement) && pos + 1 < |items| && items[pos + 1].StringItem? ==>
              StrictContinueStatementAt(items, pos).Err? && ContinueStatementAt(items, pos).Ok?
    ensures pos + 1 < |items| && items[pos + 1].TagItem? ==>
              StrictBreakStatementAt(items, pos) == BreakStatementAt(items, pos)
              && StrictContinueStatementAt(items, pos) == ContinueStatementAt(items, pos)
  {
  }
}
