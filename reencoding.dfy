/**
 * The converse of module RoundTrip: whatever the grammar of src/io/parser.ts
 * decodes fills exactly the items of its own encoding, from where decoding
 * started to where it stopped. With RoundTrip.ParseRoundTrip this makes
 * Encoding.EncodeScript and `parse` inverse to each other on both sides.
 */
module Reencoding {
  import opened Results
  import opened Kinds
  import opened NodeTypes
  import opened Ast
  import opened Wire
  import opened Grammar
  import opened GrammarProperties
  import opened Encoding
  import opened RoundTrip

  // ---------------------------------------------------------------------------
  // Building occurrences

  /** Items equal one by one to `e` are an occurrence of `e`. */
  lemma {:induction false} AtFromItems(items: seq<Item>, pos: nat, e: seq<Item>)
    requires pos + |e| <= |items|
    requires forall i :: 0 <= i < |e| ==> items[pos + i] == e[i]
    ensures At(items, pos, e, pos + |e|)
    decreases |e|
  {
    if e != [] {
      forall i | 0 <= i < |e[1..]|
        ensures items[pos + 1 + i] == e[1..][i]
      {
        assert items[pos + (i + 1)] == e[i + 1];
      }
      AtFromItems(items, pos + 1, e[1..]);
    }
  }

  /** An occurrence of `a` followed by one of `b` is one of `a + b`. */
  lemma {:induction false} AtJoin(items: seq<Item>, pos: nat, a: seq<Item>, b: seq<Item>, middle: nat, next: nat)
    requires At(items, pos, a, middle) && At(items, middle, b, next)
    ensures At(items, pos, a + b, next)
    decreases |a|
  {
    if a == [] {
      assert a + b == b;
    } else {
      assert (a + b)[1..] == a[1..] + b;
      AtJoin(items, pos + 1, a[1..], b, middle, next);
    }
  }

  // ---------------------------------------------------------------------------
  // What a decoding fills

  /** `r` is a decodable statement whose encoding fills the items from `pos` to where `r` stops. */
  ghost predicate StatementFills(items: seq<Item>, pos: nat, r: Result<Decoded<Statement>>) {
    r.Ok? ==> Decodable(r.value.node) && At(items, pos, EncodeStatement(r.value.node), r.value.next)
  }

  /** `r` is a decodable block whose encoding fills the items from `pos` to where `r` stops. */
  ghost predicate BlockFills(items: seq<Item>, pos: nat, r: Result<Decoded<Block>>) {
    r.Ok? ==> DecodableBlock(r.value.node) && At(items, pos, EncodeBlock(r.value.node), r.value.next)
  }

  /** `r` are decodable statements whose encodings fill the items from `pos` to where `r` stops. */
  ghost predicate StatementsFill(items: seq<Item>, pos: nat, r: Result<Decoded<seq<Statement>>>) {
    r.Ok? ==>
      (forall i :: 0 <= i < |r.value.node| ==> Decodable(r.value.node[i]))
      && At(items, pos, EncodeStatements(r.value.node), r.value.next)
  }

  // ---------------------------------------------------------------------------
  // Names, directives and scopes

  lemma DeclaredNameFills(items: seq<Item>, pos: nat)
    ensures DeclaredNameAt(items, pos).Ok? ==>
              At(items, pos, EncodeDeclaredName(DeclaredNameAt(items, pos).value.node), DeclaredNameAt(items, pos).value.next)
  {
    var r := DeclaredNameAt(items, pos);
    if r.Ok? {
      AtFromItems(items, pos, EncodeDeclaredName(r.value.node));
    }
  }

  /** The declared names of a counted loop fill the items they were decoded from. */
  lemma {:induction false} DeclaredNamesFill(items: seq<Item>, pos: nat, count: nat)
    requires pos <= |items|
    ensures Loop(items, pos, count, DeclaredNameDecoder(items)).Ok? ==>
              At(items, pos, EncodeDeclaredNames(Loop(items, pos, count, DeclaredNameDecoder(items)).value.node),
                 Loop(items, pos, count, DeclaredNameDecoder(items)).value.next)
    decreases count
  {
    var r := Loop(items, pos, count, DeclaredNameDecoder(items));
    if count == 0 {
      AtFromItems(items, pos, []);
    } else if r.Ok? {
      var first := DeclaredNameAt(items, pos).value;
      var rest := Loop(items, first.next, count - 1, DeclaredNameDecoder(items)).value;
      DeclaredNameFills(items, pos);
      DeclaredNamesFill(items, first.next, count - 1);
      assert r.value.node[1..] == rest.node;
      AtJoin(items, pos, EncodeDeclaredName(first.node), EncodeDeclaredNames(rest.node), first.next, r.value.next);
    }
  }

  /** The directives of a counted loop fill the items they were decoded from. */
  lemma {:induction false} DirectivesFill(items: seq<Item>, pos: nat, count: nat)
    requires pos <= |items|
    ensures Loop(items, pos, count, DirectiveDecoder(items)).Ok? ==>
              At(items, pos, EncodeDirectives(Loop(items, pos, count, DirectiveDecoder(items)).value.node),
                 Loop(items, pos, count, DirectiveDecoder(items)).value.next)
    decreases count
  {
    var r := Loop(items, pos, count, DirectiveDecoder(items));
    if count == 0 {
      AtFromItems(items, pos, []);
    } else if r.Ok? {
      var first := DirectiveAt(items, pos).value;
      var rest := Loop(items, first.next, count - 1, DirectiveDecoder(items)).value;
      AtFromItems(items, pos, [TagItem(NodeType.Directive), StringItem(first.node.rawValue)]);
      DirectivesFill(items, first.next, count - 1);
      assert r.value.node[1..] == rest.node;
      AtJoin(items, pos, [TagItem(NodeType.Directive), StringItem(first.node.rawValue)], EncodeDirectives(rest.node),
             first.next, r.value.next);
    }
  }

  /** A scope tag, a count, the names and a boolean, one after the other. */
  lemma ScopeJoin(items: seq<Item>, pos: nat, tag: NodeType, names: seq<AssertedDeclaredName>, hasDirectEval: bool, m: nat)
    requires pos + 1 < |items| && items[pos] == TagItem(tag) && items[pos + 1] == NumItem(|names|)
    requires At(items, pos + 2, EncodeDeclaredNames(names), m)
    requires m < |items| && items[m] == BoolItem(hasDirectEval)
    ensures At(items, pos, [TagItem(tag), NumItem(|names|)] + EncodeDeclaredNames(names) + [BoolItem(hasDirectEval)], m + 1)
  {
    var head := [TagItem(tag), NumItem(|names|)];
    AtFromItems(items, pos, head);
    AtJoin(items, pos, head, EncodeDeclaredNames(names), pos + 2, m);
    AtFromItems(items, m, [BoolItem(hasDirectEval)]);
    AtJoin(items, pos, head + EncodeDeclaredNames(names), [BoolItem(hasDirectEval)], m, m + 1);
  }

  /** A decoded global scope declares only `var` names and fills its encoding. */
  lemma ScriptGlobalScopeFills(items: seq<Item>, pos: nat)
    ensures ScriptGlobalScopeAt(items, pos).Ok? ==>
              VarOnly(ScriptGlobalScopeAt(items, pos).value.node.declaredNames)
              && At(items, pos, EncodeScriptGlobalScope(ScriptGlobalScopeAt(items, pos).value.node),
                    ScriptGlobalScopeAt(items, pos).value.next)
  {
    var r := ScriptGlobalScopeAt(items, pos);
    if r.Ok? {
      ScopesDeclareVarOnly(items, pos);
      var names := DeclaredNameListAt(items, pos + 1).value;
      DeclaredNamesFill(items, pos + 2, items[pos + 1].n);
      ScopeJoin(items, pos, NodeType.AssertedScriptGlobalScope, names.node, r.value.node.hasDirectEval, names.next);
    }
  }

  /** A decoded block scope declares only `var` names and fills its encoding. */
  lemma BlockScopeFills(items: seq<Item>, pos: nat)
    ensures BlockScopeAt(items, pos).Ok? ==>
              VarOnly(BlockScopeAt(items, pos).value.node.declaredNames)
              && At(items, pos, EncodeBlockScope(BlockScopeAt(items, pos).value.node), BlockScopeAt(items, pos).value.next)
  {
    var r := BlockScopeAt(items, pos);
    if r.Ok? {
      ScopesDeclareVarOnly(items, pos);
      var names := DeclaredNameListAt(items, pos + 1).value;
      DeclaredNamesFill(items, pos + 2, items[pos + 1].n);
      ScopeJoin(items, pos, NodeType.AssertedBlockScope, names.node, r.value.node.hasDirectEval, names.next);
    }
  }

  // ---------------------------------------------------------------------------
  // Declarations and absent values

  lemma VariableDeclarationFills(items: seq<Item>, pos: nat)
    ensures VariableDeclarationAt(items, pos).Ok? ==>
              VariableDeclarationAt(items, pos).value.node.declarators == []
              && At(items, pos, EncodeVariableDeclaration(VariableDeclarationAt(items, pos).value.node.kind),
                    VariableDeclarationAt(items, pos).value.next)
  {
    var r := VariableDeclarationAt(items, pos);
    if r.Ok? {
      AtFromItems(items, pos, EncodeVariableDeclaration(r.value.node.kind));
    }
  }

  /** A decoded `for` init clause is decodable and fills its encoding. */
  lemma ForInitFills(items: seq<Item>, pos: nat)
    ensures Optional(items, pos, ForInitDecoder(items)).Ok? ==>
              DecodableForInit(Optional(items, pos, ForInitDecoder(items)).value.node)
              && At(items, pos, EncodeForInit(Optional(items, pos, ForInitDecoder(items)).value.node),
                    Optional(items, pos, ForInitDecoder(items)).value.next)
  {
    var r := Optional(items, pos, ForInitDecoder(items));
    if r.Ok? {
      if Peek(items, pos) == Ok(NodeType.Null) {
        AtFromItems(items, pos, [TagItem(NodeType.Null)]);
      } else {
        VariableDeclarationFills(items, pos);
      }
    }
  }

  /** An optional expression decodes only as the `Null` tag. */
  lemma AbsentExpression(items: seq<Item>, pos: nat)
    ensures Optional(items, pos, ExpressionDecoder(items)).Ok? ==>
              pos < |items| && items[pos] == TagItem(NodeType.Null)
              && Optional(items, pos, ExpressionDecoder(items)).value == Decoded(None, pos + 1)
  {
  }

  /** An optional catch clause decodes only as the `Null` tag. */
  lemma AbsentCatch(items: seq<Item>, pos: nat)
    ensures Optional(items, pos, CatchClauseDecoder(items)).Ok? ==>
              pos < |items| && items[pos] == TagItem(NodeType.Null)
              && Optional(items, pos, CatchClauseDecoder(items)).value == Decoded(None, pos + 1)
  {
  }

  // ---------------------------------------------------------------------------
  // Statements

  /** A decoded statement is decodable and fills its encoding. */
  lemma {:induction false} StatementFillsAt(items: seq<Item>, pos: nat)
    ensures StatementFills(items, pos, StatementAt(items, pos))
    decreases Remaining(items, pos), 2
  {
    var kind := Peek(items, pos);
    if kind.Ok? {
      if kind.value == NodeType.Block || kind.value == NodeType.ForStatement || kind.value == NodeType.LabelledStatement
         || kind.value == NodeType.TryCatchStatement || kind.value == NodeType.TryFinallyStatement {
        NestingFills(items, pos);
      } else {
        LeafFills(items, pos);
      }
    }
  }

  /** The statements that contain no statement fill their one to three items. */
  lemma LeafFills(items: seq<Item>, pos: nat)
    ensures StatementFills(items, pos, SimpleStatementAt(items, pos))
    ensures StatementFills(items, pos, OtherStatementAt(items, pos))
  {
    var simple := SimpleStatementAt(items, pos);
    if simple.Ok? {
      AtFromItems(items, pos, EncodeStatement(simple.value.node));
    }
    var other := OtherStatementAt(items, pos);
    if other.Ok? {
      VariableDeclarationFills(items, pos);
      if StartsWith(items, pos, NodeType.ReturnStatement) {
        AtFromItems(items, pos, EncodeStatement(other.value.node));
      }
    }
  }

  lemma {:induction false} NestingFills(items: seq<Item>, pos: nat)
    ensures StatementFills(items, pos, NestingStatementAt(items, pos))
    decreases Remaining(items, pos), 1
  {
    BlockFillsAt(items, pos);
    ForFills(items, pos);
    LabelledFills(items, pos);
    TryFinallyFills(items, pos);
  }

  /** A `for` tag, the init clause, two `Null` tags and the body, one after the other. */
  lemma ForJoin(items: seq<Item>, pos: nat, init: seq<Item>, body: seq<Item>, p: nat, next: nat)
    requires pos < |items| && items[pos] == TagItem(NodeType.ForStatement) && At(items, pos + 1, init, p)
    requires p + 1 < |items| && items[p] == TagItem(NodeType.Null) && items[p + 1] == TagItem(NodeType.Null)
    requires At(items, p + 2, body, next)
    ensures At(items, pos, [TagItem(NodeType.ForStatement)] + init + [TagItem(NodeType.Null), TagItem(NodeType.Null)] + body, next)
  {
    var tag := [TagItem(NodeType.ForStatement)];
    var absent := [TagItem(NodeType.Null), TagItem(NodeType.Null)];
    AtFromItems(items, pos, tag);
    AtJoin(items, pos, tag, init, pos + 1, p);
    AtFromItems(items, p, absent);
    AtJoin(items, pos, tag + init, absent, p, p + 2);
    AtJoin(items, pos, tag + init + absent, body, p + 2, next);
  }

  lemma ForValueFills(items: seq<Item>, pos: nat, init: Option<ForInit>, body: Statement, next: nat)
    requires DecodableForInit(init) && Decodable(body)
    requires At(items, pos, [TagItem(NodeType.ForStatement)] + EncodeForInit(init) + [TagItem(NodeType.Null), TagItem(NodeType.Null)]
                            + EncodeStatement(body), next)
    ensures StatementFills(items, pos, Ok(Decoded(Iteration(IterationStatement.ForStatement(init, None, None, body)), next)))
  {
  }

  /** The three clauses of a decoded `for`: a decodable init clause, then two `Null` tags. */
  lemma ForClausesFill(items: seq<Item>, pos: nat)
    ensures Optional(items, pos, ForInitDecoder(items)).Ok? ==>
              var p := Optional(items, pos, ForInitDecoder(items)).value.next;
              pos < p && DecodableForInit(Optional(items, pos, ForInitDecoder(items)).value.node)
              && At(items, pos, EncodeForInit(Optional(items, pos, ForInitDecoder(items)).value.node), p)
              && (Optional(items, p, ExpressionDecoder(items)).Ok? && Optional(items, p + 1, ExpressionDecoder(items)).Ok? ==>
                    p + 1 < |items| && items[p] == TagItem(NodeType.Null) && items[p + 1] == TagItem(NodeType.Null)
                    && Optional(items, p + 1, ExpressionDecoder(items)).value.next == p + 2)
  {
    var init := Optional(items, pos, ForInitDecoder(items));
    if init.Ok? {
      ForInitFills(items, pos);
      AtItems(items, pos, EncodeForInit(init.value.node), init.value.next);
      AbsentExpression(items, init.value.next);
      AbsentExpression(items, init.value.next + 1);
    }
  }

  lemma {:induction false} ForFills(items: seq<Item>, pos: nat)
    ensures StatementFills(items, pos, ForStatementAt(items, pos))
    decreases Remaining(items, pos), 0
  {
    if StartsWith(items, pos, NodeType.ForStatement) {
      var init := Optional(items, pos + 1, ForInitDecoder(items));
      ForClausesFill(items, pos + 1);
      if init.Ok? {
        var p := init.value.next;
        if Optional(items, p, ExpressionDecoder(items)).Ok? && Optional(items, p + 1, ExpressionDecoder(items)).Ok? {
          StatementFillsAt(items, p + 2);
          var body := StatementAt(items, p + 2);
          if body.Ok? {
            ForParts(items, pos, init.value.node, body.value.node, p, body.value.next);
            ForJoin(items, pos, EncodeForInit(init.value.node), EncodeStatement(body.value.node), p, body.value.next);
            ForValueFills(items, pos, init.value.node, body.value.node, body.value.next);
          }
        }
      }
    }
  }

  lemma {:induction false} LabelledFills(items: seq<Item>, pos: nat)
    ensures StatementFills(items, pos, LabelledStatementAt(items, pos))
    decreases Remaining(items, pos), 0
  {
    if StartsWith(items, pos, NodeType.LabelledStatement) && pos + 1 < |items| && items[pos + 1].StringItem? {
      StatementFillsAt(items, pos + 2);
      var body := StatementAt(items, pos + 2);
      if body.Ok? {
        var head := [TagItem(NodeType.LabelledStatement), items[pos + 1]];
        AtFromItems(items, pos, head);
        AtJoin(items, pos, head, EncodeStatement(body.value.node), pos + 2, body.value.next);
      }
    }
  }

  /** A `try`/`finally` tag, the block, a `Null` tag and the finalizer, one after the other. */
  lemma TryFinallyJoin(items: seq<Item>, pos: nat, block: seq<Item>, finalizer: seq<Item>, p: nat, next: nat)
    requires pos < |items| && items[pos] == TagItem(NodeType.TryFinallyStatement) && At(items, pos + 1, block, p)
    requires p < |items| && items[p] == TagItem(NodeType.Null) && At(items, p + 1, finalizer, next)
    ensures At(items, pos, [TagItem(NodeType.TryFinallyStatement)] + block + [TagItem(NodeType.Null)] + finalizer, next)
  {
    var tag := [TagItem(NodeType.TryFinallyStatement)];
    var absent := [TagItem(NodeType.Null)];
    AtFromItems(items, pos, tag);
    AtJoin(items, pos, tag, block, pos + 1, p);
    AtFromItems(items, p, absent);
    AtJoin(items, pos, tag + block, absent, p, p + 1);
    AtJoin(items, pos, tag + block + absent, finalizer, p + 1, next);
  }

  lemma TryFinallyValueFills(items: seq<Item>, pos: nat, block: Block, finalizer: Block, next: nat)
    requires DecodableBlock(block) && DecodableBlock(finalizer)
    requires At(items, pos, [TagItem(NodeType.TryFinallyStatement)] + EncodeBlock(block) + [TagItem(NodeType.Null)]
                            + EncodeBlock(finalizer), next)
    ensures StatementFills(items, pos, Ok(Decoded(Statement.TryFinallyStatement(block, None, finalizer), next)))
  {
  }

  lemma {:induction false} TryFinallyFills(items: seq<Item>, pos: nat)
    ensures StatementFills(items, pos, TryFinallyStatementAt(items, pos))
    decreases Remaining(items, pos), 0
  {
    if StartsWith(items, pos, NodeType.TryFinallyStatement) {
      BlockFillsAt(items, pos + 1);
      var block := BlockAt(items, pos + 1);
      if block.Ok? {
        var p := block.value.next;
        AbsentCatch(items, p);
        if Optional(items, p, CatchClauseDecoder(items)).Ok? {
          BlockFillsAt(items, p + 1);
          var finalizer := BlockAt(items, p + 1);
          if finalizer.Ok? {
            TryFinallyParts(items, pos, block.value.node, finalizer.value.node, p, finalizer.value.next);
            TryFinallyJoin(items, pos, EncodeBlock(block.value.node), EncodeBlock(finalizer.value.node), p, finalizer.value.next);
            TryFinallyValueFills(items, pos, block.value.node, finalizer.value.node, finalizer.value.next);
          }
        }
      }
    }
  }

  /** A `Block` tag, the scope, a count and the statements, one after the other. */
  lemma BlockJoin(items: seq<Item>, pos: nat, scope: seq<Item>, count: nat, statements: seq<Item>, p: nat, next: nat)
    requires pos < |items| && items[pos] == TagItem(NodeType.Block) && At(items, pos + 1, scope, p)
    requires p < |items| && items[p] == NumItem(count) && At(items, p + 1, statements, next)
    ensures At(items, pos, [TagItem(NodeType.Block)] + scope + [NumItem(count)] + statements, next)
  {
    var tag := [TagItem(NodeType.Block)];
    AtFromItems(items, pos, tag);
    AtJoin(items, pos, tag, scope, pos + 1, p);
    AtFromItems(items, p, [NumItem(count)]);
    AtJoin(items, pos, tag + scope, [NumItem(count)], p, p + 1);
    AtJoin(items, pos, tag + scope + [NumItem(count)], statements, p + 1, next);
  }

  /** A decoded block is decodable and fills its encoding. */
  lemma {:induction false} BlockFillsAt(items: seq<Item>, pos: nat)
    ensures BlockFills(items, pos, BlockAt(items, pos))
    decreases Remaining(items, pos), 0
  {
    if StartsWith(items, pos, NodeType.Block) {
      BlockScopeFills(items, pos + 1);
      var scope := BlockScopeAt(items, pos + 1);
      if scope.Ok? {
        var p := scope.value.next;
        StatementListFills(items, p);
        var statements := StatementListAt(items, p);
        if statements.Ok? {
          BlockJoin(items, pos, EncodeBlockScope(scope.value.node), |statements.value.node|,
                    EncodeStatements(statements.value.node), p, statements.value.next);
        }
      }
    }
  }

  /** A decoded statement list is its count followed by statements that fill their encodings. */
  lemma {:induction false} StatementListFills(items: seq<Item>, pos: nat)
    ensures StatementListAt(items, pos).Ok? ==>
              pos < |items| && items[pos] == NumItem(|StatementListAt(items, pos).value.node|)
              && StatementsFill(items, pos + 1, StatementListAt(items, pos))
    decreases Remaining(items, pos), 0
  {
    var count := ReadVarnum(items, pos);
    if count.Ok? {
      StatementLoopFills(items, pos + 1, count.value.node);
    }
  }

  /** The statements of a counted loop are decodable and fill their encodings. */
  lemma {:induction false} StatementLoopFills(items: seq<Item>, pos: nat, count: nat)
    requires pos <= |items|
    ensures StatementsFill(items, pos, StatementLoopAt(items, pos, count))
    decreases Remaining(items, pos), 3
  {
    var r := StatementLoopAt(items, pos, count);
    if count == 0 {
      AtFromItems(items, pos, []);
    } else if r.Ok? {
      var first := StatementAt(items, pos).value;
      var rest := StatementLoopAt(items, first.next, count - 1).value;
      StatementFillsAt(items, pos);
      StatementLoopFills(items, first.next, count - 1);
      assert r.value.node[1..] == rest.node;
      AtJoin(items, pos, EncodeStatement(first.node), EncodeStatements(rest.node), first.next, r.value.next);
    }
  }

  // ---------------------------------------------------------------------------
  // Scripts and whole files

  /** A decoded script is decodable and fills the encoding `EncodeScript` writes after the header. */
  lemma ScriptFills(items: seq<Item>, pos: nat)
    ensures ScriptAt(items, pos).Ok? ==>
              DecodableScript(ScriptAt(items, pos).value.node)
              && At(items, pos, [TagItem(NodeType.Script)] + EncodeScriptGlobalScope(ScriptAt(items, pos).value.node.scope)
                                + [NumItem(|ScriptAt(items, pos).value.node.directives|)]
                                + EncodeDirectives(ScriptAt(items, pos).value.node.directives)
                                + [NumItem(|ScriptAt(items, pos).value.node.statements|)]
                                + EncodeStatements(ScriptAt(items, pos).value.node.statements),
                    ScriptAt(items, pos).value.next)
  {
    var r := ScriptAt(items, pos);
    if r.Ok? {
      var scope := ScriptGlobalScopeAt(items, pos + 1).value;
      var directives := DirectiveListAt(items, scope.next).value;
      ScriptGlobalScopeFills(items, pos + 1);
      DirectivesFill(items, scope.next + 1, items[scope.next].n);
      StatementListFills(items, directives.next);
      ScriptJoin(items, pos, EncodeScriptGlobalScope(scope.node), |directives.node|, EncodeDirectives(directives.node),
                 |r.value.node.statements|, EncodeStatements(r.value.node.statements), scope.next, directives.next, r.value.next);
    }
  }

  /** A `Script` tag, the scope, then a count and the directives, then a count and the statements. */
  lemma ScriptJoin(items: seq<Item>, pos: nat, scope: seq<Item>, directiveCount: nat, directives: seq<Item>,
                   statementCount: nat, statements: seq<Item>, p: nat, q: nat, next: nat)
    requires pos < |items| && items[pos] == TagItem(NodeType.Script) && At(items, pos + 1, scope, p)
    requires p < |items| && items[p] == NumItem(directiveCount) && At(items, p + 1, directives, q)
    requires q < |items| && items[q] == NumItem(statementCount) && At(items, q + 1, statements, next)
    ensures At(items, pos, [TagItem(NodeType.Script)] + scope + [NumItem(directiveCount)] + directives
                           + [NumItem(statementCount)] + statements, next)
  {
    var tag := [TagItem(NodeType.Script)];
    AtFromItems(items, pos, tag);
    AtJoin(items, pos, tag, scope, pos + 1, p);
    AtFromItems(items, p, [NumItem(directiveCount)]);
    AtJoin(items, pos, tag + scope, [NumItem(directiveCount)], p, p + 1);
    AtJoin(items, pos, tag + scope + [NumItem(directiveCount)], directives, p + 1, q);
    AtFromItems(items, q, [NumItem(statementCount)]);
    AtJoin(items, pos, tag + scope + [NumItem(directiveCount)] + directives, [NumItem(statementCount)], q, q + 1);
    AtJoin(items, pos, tag + scope + [NumItem(directiveCount)] + directives + [NumItem(statementCount)], statements, q + 1, next);
  }

  /**
   * The encoder inverts `parse`: the items a successful `parse` consumed are
   * exactly the encoding of the decodable script it returns.
   */
  lemma ParseFills(items: seq<Item>)
    ensures ParseAt(items, 0).Ok? ==>
              ParseAt(items, 0).value.node.ScriptProgram? && DecodableScript(ParseAt(items, 0).value.node.script)
              && items[..ParseAt(items, 0).value.next] == EncodeScript(ParseAt(items, 0).value.node.script)
  {
    var r := ParseAt(items, 0);
    if r.Ok? {
      assert r == Ok(Decoded(ScriptProgram(ScriptAt(items, 1).value.node), ScriptAt(items, 1).value.next));
      ScriptFills(items, 1);
      HeaderJoin(items, ScriptAt(items, 1).value.node, r.value.next);
    }
  }

  /** The header followed by the encoding of a script is that script's whole-file encoding. */
  lemma HeaderJoin(items: seq<Item>, script: Script, next: nat)
    requires DecodableScript(script)
    requires 0 < |items| && items[0] == HeaderItem
    requires At(items, 1, [TagItem(NodeType.Script)] + EncodeScriptGlobalScope(script.scope)
                          + [NumItem(|script.directives|)] + EncodeDirectives(script.directives)
                          + [NumItem(|script.statements|)] + EncodeStatements(script.statements), next)
    ensures next <= |items| && items[..next] == EncodeScript(script)
  {
    var scope, directives, statements := EncodeScriptGlobalScope(script.scope), EncodeDirectives(script.directives),
                                         EncodeStatements(script.statements);
    var body := [TagItem(NodeType.Script)] + scope + [NumItem(|script.directives|)] + directives
                + [NumItem(|script.statements|)] + statements;
    AtFromItems(items, 0, [HeaderItem]);
    AtJoin(items, 0, [HeaderItem], body, 1, next);
    HeaderAppend(scope, |script.directives|, directives, |script.statements|, statements);
    AtPrefix(items, EncodeScript(script), next);
  }

  /** Putting the header in front of the script's items gives the layout of `EncodeScript`. */
  lemma HeaderAppend(scope: seq<Item>, directiveCount: nat, directives: seq<Item>, statementCount: nat, statements: seq<Item>)
    ensures [HeaderItem] + ([TagItem(NodeType.Script)] + scope + [NumItem(directiveCount)] + directives
                            + [NumItem(statementCount)] + statements)
            == [HeaderItem, TagItem(NodeType.Script)] + scope + [NumItem(directiveCount)] + directives
               + [NumItem(statementCount)] + statements
  {
  }

  /** An occurrence from the start is the prefix of the items up to where it stops. */
  lemma AtPrefix(items: seq<Item>, e: seq<Item>, next: nat)
    requires At(items, 0, e, next)
    ensures next <= |items| && items[..next] == e
  {
    AtItems(items, 0, e, next);
  }
}
