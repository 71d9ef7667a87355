/**
 * Concrete inputs to the grammar of src/io/parser.ts: the smallest script, the
 * statements of the fail-fast subset that still decode, and inputs that must
 * be rejected.
 */
module Scenarios {
  import opened Results
  import opened Kinds
  import opened NodeTypes
  import opened Ast
  import opened Wire
  import opened Grammar
  import opened GrammarProperties

  /** A file holding an empty script: header, root tag, an empty global scope, no directives, no statements. */
  lemma EmptyScript()
    ensures ParseAt([HeaderItem, TagItem(NodeType.Script), TagItem(NodeType.AssertedScriptGlobalScope), NumItem(0),
                     BoolItem(false), NumItem(0), NumItem(0)], 0)
            == Ok(Decoded(ScriptProgram(Script.Script(AssertedScriptGlobalScope.AssertedScriptGlobalScope([], false), [], [])), 7))
  {
    var items := [HeaderItem, TagItem(NodeType.Script), TagItem(NodeType.AssertedScriptGlobalScope), NumItem(0),
                  BoolItem(false), NumItem(0), NumItem(0)];
    EmptyList(items, 3, DeclaredNameDecoder(items));
    EmptyList(items, 5, DirectiveDecoder(items));
    assert ScriptGlobalScopeAt(items, 2) == Ok(Decoded(AssertedScriptGlobalScope.AssertedScriptGlobalScope([], false), 5));
    assert StatementListAt(items, 6) == Ok(Decoded([], 7));
    assert ScriptAt(items, 1) == Ok(Decoded(Script.Script(AssertedScriptGlobalScope.AssertedScriptGlobalScope([], false), [], []), 7));
  }

  /** `break outer;` and `continue;` decode, with and without their label. */
  lemma BreakAndContinue()
    ensures StatementAt([TagItem(NodeType.BreakStatement), StringItem("outer")], 0)
            == Ok(Decoded(Statement.BreakStatement(Some("outer")), 2))
    ensures StatementAt([TagItem(NodeType.ContinueStatement), TagItem(NodeType.Null)], 0)
            == Ok(Decoded(Statement.ContinueStatement(None), 2))
  {
  }

  /** `for (;;) ;` decodes: all three clauses absent and an empty body. */
  lemma EmptyFor()
    ensures StatementAt([TagItem(NodeType.ForStatement), TagItem(NodeType.Null), TagItem(NodeType.Null),
                         TagItem(NodeType.Null), TagItem(NodeType.EmptyStatement)], 0)
            == Ok(Decoded(Iteration(IterationStatement.ForStatement(None, None, None, Statement.EmptyStatement)), 5))
  {
    var items := [TagItem(NodeType.ForStatement), TagItem(NodeType.Null), TagItem(NodeType.Null),
                  TagItem(NodeType.Null), TagItem(NodeType.EmptyStatement)];
    assert StatementAt(items, 4) == Ok(Decoded(Statement.EmptyStatement, 5));
    assert ForStatementAt(items, 0) == Ok(Decoded(Iteration(IterationStatement.ForStatement(None, None, None, Statement.EmptyStatement)), 5));
    assert StatementAt(items, 0) == NestingStatementAt(items, 0);
  }

  /** A `for` with a test clause fails, since the test is an expression. */
  lemma ForWithTest(rest: seq<Item>)
    ensures StatementAt([TagItem(NodeType.ForStatement), TagItem(NodeType.Null), TagItem(NodeType.ThisExpression)] + rest, 0).Err?
  {
    var items := [TagItem(NodeType.ForStatement), TagItem(NodeType.Null), TagItem(NodeType.ThisExpression)] + rest;
    assert StatementAt(items, 0) == NestingStatementAt(items, 0);
  }

  /** A module root is rejected, whatever follows it. */
  lemma ModuleRoot(rest: seq<Item>)
    ensures ParseAt([HeaderItem, TagItem(NodeType.Module)] + rest, 0).Err?
  {
  }

  /** A `const` name in the global scope is rejected. */
  lemma ConstDeclaredName()
    ensures ScriptGlobalScopeAt([TagItem(NodeType.AssertedScriptGlobalScope), NumItem(1),
                                 TagItem(NodeType.AssertedDeclaredName), StringItem("x"),
                                 VariantItem(Variant.ConstLexical), BoolItem(false), BoolItem(false)], 0).Err?
  {
  }

  /** `return;` decodes, and so does `let;`, a declaration with no declarators. */
  lemma ReturnAndDeclaration()
    ensures StatementAt([TagItem(NodeType.ReturnStatement), TagItem(NodeType.Null)], 0)
            == Ok(Decoded(Statement.ReturnStatement(None), 2))
    ensures StatementAt([TagItem(NodeType.VariableDeclaration), VariantItem(Variant.Let), NumItem(0)], 0)
            == Ok(Decoded(VariableDeclarationStatement(VariableDeclaration.VariableDeclaration(VariableDeclarationKind.Let, [])), 3))
  {
  }
}
