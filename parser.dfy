/**
 * class Parser of src/io/parser.ts. Every production moves the shared cursor of
 * the reader; each method is proved to return what the matching function of
 * module Grammar decodes from the cursor it started at and, on success, to
 * leave the cursor just after what that function consumed (on failure the
 * cursor is left unspecified):
 *
 *   Outcome(r, reader.pos) == XAt(reader.items, old(reader.pos))
 *
 * `parseList` and `parseOptional` take a callback, which a Dafny method cannot;
 * each list is its own counted loop, and each optional value runs the
 * absent-marker test of `parseOptional` (ParseAbsent) and then the callback's
 * body. After a call that always throws, a production returns that failure.
 */
module Parsing {
  import opened Results
  import opened Kinds
  import opened NodeTypes
  import opened Ast
  import opened Wire
  import opened Grammar
  import opened Reading

  class Parser {
    const reader: Reader

    /** The parser over a fresh reader of `items`, positioned at the start. */
    constructor (items: seq<Item>)
      ensures fresh(reader) && reader.items == items && reader.pos == 0
    {
      reader := new Reader(items);
    }

    // -------------------------------------------------------------------------
    // Primitives

    /** `peekTaggedTuple`: `enterTaggedTuple` run inside `lookAhead`, which restores the cursor. */
    method PeekTaggedTuple() returns (r: Result<NodeType>)
      modifies reader
      ensures reader.pos == old(reader.pos)
      ensures r == Peek(reader.items, old(reader.pos))
    {
      var saved := reader.pos;
      r := reader.EnterTaggedTuple();
      reader.Rewind(saved);
    }

    /** `parseKind`: one tag, which must be `expectedKind`. */
    method ParseKind(expectedKind: NodeType) returns (r: Result<NodeType>)
      modifies reader
      ensures Outcome(r, reader.pos) == ExpectKind(reader.items, old(reader.pos), expectedKind)
    {
      var kind :- reader.EnterTaggedTuple();
      if kind != expectedKind {
        return Err;
      }
      return Ok(expectedKind);
    }

    /**
     * The test `parseOptional` makes before running its callback: a `Null` tag
     * is consumed and stands for an absent value; otherwise nothing is consumed.
     */
    method ParseAbsent() returns (absent: bool)
      modifies reader
      ensures absent <==> Peek(reader.items, old(reader.pos)) == Ok(NodeType.Null)
      ensures reader.pos == if absent then old(reader.pos) + 1 else old(reader.pos)
    {
      var kind := PeekTaggedTuple();
      if kind == Ok(NodeType.Null) {
        var marker := reader.EnterTaggedTuple();
        return true;
      }
      return false;
    }

    // -------------------------------------------------------------------------
    // Root

    /** `parse`. */
    method Parse() returns (r: Result<Program>)
      modifies reader
      ensures Outcome(r, reader.pos) == ParseAt(reader.items, old(reader.pos))
    {
      var header :- reader.ReadHeader();
      r := ParseProgram();
    }

    /** `parseProgram`. */
    method ParseProgram() returns (r: Result<Program>)
      modifies reader
      ensures Outcome(r, reader.pos) == ProgramAt(reader.items, old(reader.pos))
    {
      var kind :- PeekTaggedTuple();
      if kind == NodeType.Script {
        var script :- ParseScript();
        return Ok(ScriptProgram(script));
      }
      return Err;
    }

    /** `parseScript`. */
    method ParseScript() returns (r: Result<Script>)
      modifies reader
      ensures Outcome(r, reader.pos) == ScriptAt(reader.items, old(reader.pos))
    {
      var tag :- ParseKind(NodeType.Script);
      var scope :- ParseAssertedScriptGlobalScope();
      var directives :- ParseDirectiveList();
      var statements :- ParseStatementList();
      return Ok(Script.Script(scope, directives, statements));
    }

    // -------------------------------------------------------------------------
    // Scopes and names

    /** `parseAssertedScriptGlobalScope`. */
    method ParseAssertedScriptGlobalScope() returns (r: Result<AssertedScriptGlobalScope>)
      modifies reader
      ensures Outcome(r, reader.pos) == ScriptGlobalScopeAt(reader.items, old(reader.pos))
    {
      var tag :- ParseKind(NodeType.AssertedScriptGlobalScope);
      var declaredNames :- ParseAssertedDeclaredNameList();
      var hasDirectEval :- reader.ReadBoolean();
      return Ok(AssertedScriptGlobalScope.AssertedScriptGlobalScope(declaredNames, hasDirectEval));
    }

    /** `parseAssertedDeclaredNameList`. */
    method ParseAssertedDeclaredNameList() returns (r: Result<seq<AssertedDeclaredName>>)
      modifies reader
      ensures Outcome(r, reader.pos) == DeclaredNameListAt(reader.items, old(reader.pos))
    {
      var length :- reader.ReadVarnum();
      var result: seq<AssertedDeclaredName> := [];
      var i := 0;
      PrependNothing(Loop(reader.items, reader.pos, length - i, DeclaredNameDecoder(reader.items)));
      while i < length
        invariant i <= length
        invariant DeclaredNameListAt(reader.items, old(reader.pos))
                  == Prepend(result, Loop(reader.items, reader.pos, length - i, DeclaredNameDecoder(reader.items)))
      {
        var name :- ParseAssertedDeclaredName();
        PrependTwice(result, [name], Loop(reader.items, reader.pos, length - i - 1, DeclaredNameDecoder(reader.items)));
        result := result + [name];
        i := i + 1;
      }
      PrependToEmpty(result, reader.pos);
      return Ok(result);
    }

    /** `parseAssertedDeclaredName`. */
    method ParseAssertedDeclaredName() returns (r: Result<AssertedDeclaredName>)
      modifies reader
      ensures Outcome(r, reader.pos) == DeclaredNameAt(reader.items, old(reader.pos))
    {
      var tag :- ParseKind(NodeType.AssertedDeclaredName);
      var name :- reader.ReadString();
      var kind :- ParseAssertedDeclaredKind();
      if kind.IsLexical() {
        return Err;  // let and const are not supported
      }
      var isCaptured :- reader.ReadBoolean();
      return Ok(AssertedDeclaredName.AssertedDeclaredName(name, kind, isCaptured));
    }

    /** `parseAssertedDeclaredKind`. */
    method ParseAssertedDeclaredKind() returns (r: Result<AssertedDeclaredKind>)
      modifies reader
      ensures Outcome(r, reader.pos) == DeclaredKindAt(reader.items, old(reader.pos))
    {
      var kind :- reader.ReadVariant();
      match kind
      case AssertedDeclaredKindOrVariableDeclarationKindVar => return Ok(AssertedDeclaredKind.Var);
      case ConstLexical => return Ok(AssertedDeclaredKind.ConstLexical);
      case NonConstLexical => return Ok(AssertedDeclaredKind.NonConstLexical);
      case _ => return Err;
    }

    /** `parseDirectiveList`. */
    method ParseDirectiveList() returns (r: Result<seq<Directive>>)
      modifies reader
      ensures Outcome(r, reader.pos) == DirectiveListAt(reader.items, old(reader.pos))
    {
      var length :- reader.ReadVarnum();
      var result: seq<Directive> := [];
      var i := 0;
      PrependNothing(Loop(reader.items, reader.pos, length - i, DirectiveDecoder(reader.items)));
      while i < length
        invariant i <= length
        invariant DirectiveListAt(reader.items, old(reader.pos))
                  == Prepend(result, Loop(reader.items, reader.pos, length - i, DirectiveDecoder(reader.items)))
      {
        var directive :- ParseDirective();
        PrependTwice(result, [directive], Loop(reader.items, reader.pos, length - i - 1, DirectiveDecoder(reader.items)));
        result := result + [directive];
        i := i + 1;
      }
      PrependToEmpty(result, reader.pos);
      return Ok(result);
    }

    /** `parseDirective`. */
    method ParseDirective() returns (r: Result<Directive>)
      modifies reader
      ensures Outcome(r, reader.pos) == DirectiveAt(reader.items, old(reader.pos))
    {
      var tag :- ParseKind(NodeType.Directive);
      var rawValue :- reader.ReadString();
      return Ok(Directive.Directive(rawValue));
    }

    /** `parseAssertedBoundNamesScope`. */
    method ParseAssertedBoundNamesScope() returns (r: Result<AssertedBoundNamesScope>)
      modifies reader
      ensures Outcome(r, reader.pos) == BoundNamesScopeAt(reader.items, old(reader.pos))
    {
      var tag :- ParseKind(NodeType.AssertedBoundNamesScope);
      var boundNames :- ParseAssertedBoundNameList();
      var hasDirectEval :- reader.ReadBoolean();
      return Ok(AssertedBoundNamesScope.AssertedBoundNamesScope(boundNames, hasDirectEval));
    }

    /** `parseAssertedBoundNameList`. */
    method ParseAssertedBoundNameList() returns (r: Result<seq<AssertedBoundName>>)
      modifies reader
      ensures Outcome(r, reader.pos) == BoundNameListAt(reader.items, old(reader.pos))
    {
      var length :- reader.ReadVarnum();
      var result: seq<AssertedBoundName> := [];
      var i := 0;
      PrependNothing(Loop(reader.items, reader.pos, length - i, BoundNameDecoder(reader.items)));
      while i < length
        invariant i <= length
        invariant BoundNameListAt(reader.items, old(reader.pos))
                  == Prepend(result, Loop(reader.items, reader.pos, length - i, BoundNameDecoder(reader.items)))
      {
        var name :- ParseAssertedBoundName();
        PrependTwice(result, [name], Loop(reader.items, reader.pos, length - i - 1, BoundNameDecoder(reader.items)));
        result := result + [name];
        i := i + 1;
      }
      PrependToEmpty(result, reader.pos);
      return Ok(result);
    }

    /** `parseAssertedBoundName`. */
    method ParseAssertedBoundName() returns (r: Result<AssertedBoundName>)
      modifies reader
      ensures Outcome(r, reader.pos) == BoundNameAt(reader.items, old(reader.pos))
    {
      var tag :- ParseKind(NodeType.AssertedBoundName);
      var name :- reader.ReadString();
      var isCaptured :- reader.ReadBoolean();
      return Ok(AssertedBoundName.AssertedBoundName(name, isCaptured));
    }

    /** `parseBindingIdentifier`. */
    method ParseBindingIdentifier() returns (r: Result<BindingIdentifier>)
      modifies reader
      ensures Outcome(r, reader.pos) == BindingIdentifierAt(reader.items, old(reader.pos))
    {
      var tag :- ParseKind(NodeType.BindingIdentifier);
      var name :- reader.ReadString();
      return Ok(BindingIdentifier.BindingIdentifier(name));
    }

    // -------------------------------------------------------------------------
    // Productions that always throw

    /** `parseExpression`: every tag, listed or not, throws. */
    method ParseExpression() returns (r: Result<Expression>)
      modifies reader
      ensures Outcome(r, reader.pos) == ExpressionAt(reader.items, old(reader.pos))
    {
      var kind :- PeekTaggedTuple();
      return Err;
    }

    /** `parseMethodDefinition`: every tag throws. */
    method ParseMethodDefinition() returns (r: Result<MethodDefinition>)
      modifies reader
      ensures Outcome(r, reader.pos) == MethodDefinitionAt(reader.items, old(reader.pos))
    {
      var kind :- PeekTaggedTuple();
      return Err;
    }

    /** `parseBinding`: every tag throws. */
    method ParseBinding() returns (r: Result<Binding>)
      modifies reader
      ensures Outcome(r, reader.pos) == BindingAt(reader.items, old(reader.pos))
    {
      var kind :- PeekTaggedTuple();
      return Err;
    }

    /** `parseForInOfBindingOrAssignmentTarget`: every tag throws. */
    method ParseForInOfBindingOrAssignmentTarget() returns (r: Result<ForInOfLeft>)
      modifies reader
      ensures Outcome(r, reader.pos) == ForInOfTargetAt(reader.items, old(reader.pos))
    {
      var kind :- PeekTaggedTuple();
      return Err;
    }

    /** `parseVariableDeclarationOrExpression`: only a variable declaration is read. */
    method ParseVariableDeclarationOrExpression() returns (r: Result<ForInit>)
      modifies reader
      ensures Outcome(r, reader.pos) == VarDeclOrExpressionAt(reader.items, old(reader.pos))
    {
      var kind :- PeekTaggedTuple();
      if kind == NodeType.VariableDeclaration {
        var declaration :- ParseVariableDeclaration();
        return Ok(InitDeclaration(declaration));
      }
      return Err;
    }

    /** `parseEagerFunctionDeclaration`: the tag, then "not implemented". */
    method ParseEagerFunctionDeclaration() returns (r: Result<FunctionDeclaration>)
      modifies reader
      ensures Outcome(r, reader.pos) == EagerFunctionDeclarationAt(reader.items, old(reader.pos))
    {
      var tag :- ParseKind(NodeType.EagerFunctionDeclaration);
      return Err;
    }

    /** `parseLazyFunctionDeclaration`: the tag, then "not implemented". */
    method ParseLazyFunctionDeclaration() returns (r: Result<FunctionDeclaration>)
      modifies reader
      ensures Outcome(r, reader.pos) == LazyFunctionDeclarationAt(reader.items, old(reader.pos))
    {
      var tag :- ParseKind(NodeType.LazyFunctionDeclaration);
      return Err;
    }

    // -------------------------------------------------------------------------
    // Statements

    /** `parseStatementList`. */
    method ParseStatementList() returns (r: Result<seq<Statement>>)
      modifies reader
      ensures Outcome(r, reader.pos) == StatementListAt(reader.items, old(reader.pos))
      decreases Remaining(reader.items, reader.pos), 0
    {
      var length :- reader.ReadVarnum();
      var result: seq<Statement> := [];
      var i := 0;
      PrependNothing(StatementLoopAt(reader.items, reader.pos, length - i));
      while i < length
        invariant i <= length
        invariant old(reader.pos) < reader.pos <= |reader.items|
        invariant StatementListAt(reader.items, old(reader.pos))
                  == Prepend(result, StatementLoopAt(reader.items, reader.pos, length - i))
      {
        var statement :- ParseStatement();
        PrependTwice(result, [statement], StatementLoopAt(reader.items, reader.pos, length - i - 1));
        result := result + [statement];
        i := i + 1;
      }
      PrependToEmpty(result, reader.pos);
      return Ok(result);
    }

    /** `parseStatement`: the switch on the peeked tag. */
    method ParseStatement() returns (r: Result<Statement>)
      modifies reader
      ensures Outcome(r, reader.pos) == StatementAt(reader.items, old(reader.pos))
      decreases Remaining(reader.items, reader.pos), 1
    {
      ghost var start := reader.pos;
      var kind :- PeekTaggedTuple();
      if kind == NodeType.Block {
        assert StatementAt(reader.items, start) == NestingStatementAt(reader.items, start);
        var block :- ParseBlock();
        r := Ok(BlockStatement(block));
      } else if kind == NodeType.BreakStatement {
        r := ParseBreakStatement();
      } else if kind == NodeType.ContinueStatement {
        r := ParseContinueStatement();
      } else if kind == NodeType.ClassDeclaration {
        r := ParseClassDeclaration();
      } else if kind == NodeType.DebuggerStatement {
        r := ParseDebuggerStatement();
      } else if kind == NodeType.EmptyStatement {
        r := ParseEmptyStatement();
      } else if kind == NodeType.ExpressionStatement {
        r := ParseExpressionStatement();
      } else if kind == NodeType.EagerFunctionDeclaration {
        var declaration := ParseEagerFunctionDeclaration();
        r := declaration.PropagateFailure();
      } else if kind == NodeType.LazyFunctionDeclaration {
        var declaration := ParseLazyFunctionDeclaration();
        r := declaration.PropagateFailure();
      } else if kind == NodeType.IfStatement {
        r := ParseIfStatement();
      } else if kind == NodeType.DoWhileStatement {
        r := ParseDoWhileStatement();
      } else if kind == NodeType.ForInStatement {
        r := ParseForInStatement();
      } else if kind == NodeType.ForOfStatement {
        r := ParseForOfStatement();
      } else if kind == NodeType.ForStatement {
        assert StatementAt(reader.items, start) == NestingStatementAt(reader.items, start);
        r := ParseForStatement();
      } else if kind == NodeType.WhileStatement {
        r := ParseWhileStatement();
      } else if kind == NodeType.LabelledStatement {
        assert StatementAt(reader.items, start) == NestingStatementAt(reader.items, start);
        r := ParseLabelledStatement();
      } else if kind == NodeType.ReturnStatement {
        r := ParseReturnStatement();
      } else if kind == NodeType.SwitchStatement {
        r := ParseSwitchStatement();
      } else if kind == NodeType.SwitchStatementWithDefault {
        r := ParseSwitchStatementWithDefault();
      } else if kind == NodeType.ThrowStatement {
        r := ParseThrowStatement();
      } else if kind == NodeType.TryCatchStatement {
        assert StatementAt(reader.items, start) == NestingStatementAt(reader.items, start);
        r := ParseTryCatchStatement();
      } else if kind == NodeType.TryFinallyStatement {
        assert StatementAt(reader.items, start) == NestingStatementAt(reader.items, start);
        r := ParseTryFinallyStatement();
      } else if kind == NodeType.VariableDeclaration {
        var declaration :- ParseVariableDeclaration();
        r := Ok(VariableDeclarationStatement(declaration));
      } else if kind == NodeType.WithStatement {
        r := ParseWithStatement();
      } else {
        r := Err;
      }
    }

    /** `parseBlock`. */
    method ParseBlock() returns (r: Result<Block>)
      modifies reader
      ensures Outcome(r, reader.pos) == BlockAt(reader.items, old(reader.pos))
      decreases Remaining(reader.items, reader.pos), 0
    {
      var tag :- ParseKind(NodeType.Block);
      var scope :- ParseAssertedBlockScope();
      var statements :- ParseStatementList();
      return Ok(Block.Block(scope, statements));
    }

    /** `parseAssertedBlockScope`. */
    method ParseAssertedBlockScope() returns (r: Result<AssertedBlockScope>)
      modifies reader
      ensures Outcome(r, reader.pos) == BlockScopeAt(reader.items, old(reader.pos))
    {
      var tag :- ParseKind(NodeType.AssertedBlockScope);
      var declaredNames :- ParseAssertedDeclaredNameList();
      var hasDirectEval :- reader.ReadBoolean();
      return Ok(AssertedBlockScope.AssertedBlockScope(declaredNames, hasDirectEval));
    }

    /** `parseBreakStatement`. */
    method ParseBreakStatement() returns (r: Result<Statement>)
      modifies reader
      ensures Outcome(r, reader.pos) == BreakStatementAt(reader.items, old(reader.pos))
    {
      var tag :- ParseKind(NodeType.BreakStatement);
      var absent := ParseAbsent();
      var labelName: Option<string> := None;
      if !absent {
        var atom :- reader.ReadString();
        labelName := Some(atom);
      }
      return Ok(Statement.BreakStatement(labelName));
    }

    /** `parseContinueStatement`. */
    method ParseContinueStatement() returns (r: Result<Statement>)
      modifies reader
      ensures Outcome(r, reader.pos) == ContinueStatementAt(reader.items, old(reader.pos))
    {
      var tag :- ParseKind(NodeType.ContinueStatement);
      var absent := ParseAbsent();
      var labelName: Option<string> := None;
      if !absent {
        var atom :- reader.ReadString();
        labelName := Some(atom);
      }
      return Ok(Statement.ContinueStatement(labelName));
    }

    /** `parseClassDeclaration`: stops at the superclass expression, which throws. */
    method ParseClassDeclaration() returns (r: Result<Statement>)
      modifies reader
      ensures Outcome(r, reader.pos) == ClassDeclarationAt(reader.items, old(reader.pos))
    {
      var tag :- ParseKind(NodeType.ClassDeclaration);
      var name :- ParseBindingIdentifier();
      var superExpr := ParseExpression();
      return superExpr.PropagateFailure();
    }

    /** `parseClassElementList`. */
    method ParseClassElementList() returns (r: Result<seq<ClassElement>>)
      modifies reader
      ensures Outcome(r, reader.pos) == ClassElementListAt(reader.items, old(reader.pos))
    {
      var length :- reader.ReadVarnum();
      if length == 0 {
        return Ok([]);
      }
      // The first element throws, so the loop of `parseList` ends there.
      var element := ParseClassElement();
      return element.PropagateFailure();
    }

    /** `parseClassElement`: stops at the method definition, which throws. */
    method ParseClassElement() returns (r: Result<ClassElement>)
      modifies reader
      ensures Outcome(r, reader.pos) == ClassElementAt(reader.items, old(reader.pos))
    {
      var tag :- ParseKind(NodeType.ClassElement);
      var isStatic :- reader.ReadBoolean();
      var methodDefinition := ParseMethodDefinition();
      return methodDefinition.PropagateFailure();
    }

    /** `parseDebuggerStatement`. */
    method ParseDebuggerStatement() returns (r: Result<Statement>)
      modifies reader
      ensures Outcome(r, reader.pos) == DebuggerStatementAt(reader.items, old(reader.pos))
    {
      var tag :- ParseKind(NodeType.DebuggerStatement);
      return Ok(Statement.DebuggerStatement);
    }

    /** `parseEmptyStatement`. */
    method ParseEmptyStatement() returns (r: Result<Statement>)
      modifies reader
      ensures Outcome(r, reader.pos) == EmptyStatementAt(reader.items, old(reader.pos))
    {
      var tag :- ParseKind(NodeType.EmptyStatement);
      return Ok(Statement.EmptyStatement);
    }

    /** `parseExpressionStatement`: stops at the expression, which throws. */
    method ParseExpressionStatement() returns (r: Result<Statement>)
      modifies reader
      ensures Outcome(r, reader.pos) == ExpressionStatementAt(reader.items, old(reader.pos))
    {
      var tag :- ParseKind(NodeType.ExpressionStatement);
      var expression := ParseExpression();
      return expression.PropagateFailure();
    }

    /** `parseIfStatement`: stops at the test, which throws. */
    method ParseIfStatement() returns (r: Result<Statement>)
      modifies reader
      ensures Outcome(r, reader.pos) == IfStatementAt(reader.items, old(reader.pos))
    {
      var tag :- ParseKind(NodeType.IfStatement);
      var test := ParseExpression();
      return test.PropagateFailure();
    }

    /** `parseDoWhileStatement`: stops at the test, which throws. */
    method ParseDoWhileStatement() returns (r: Result<Statement>)
      modifies reader
      ensures Outcome(r, reader.pos) == DoWhileStatementAt(reader.items, old(reader.pos))
    {
      var tag :- ParseKind(NodeType.DoWhileStatement);
      var test := ParseExpression();
      return test.PropagateFailure();
    }

    /** `parseVariableDeclaration`. */
    method ParseVariableDeclaration() returns (r: Result<VariableDeclaration>)
      modifies reader
      ensures Outcome(r, reader.pos) == VariableDeclarationAt(reader.items, old(reader.pos))
    {
      var tag :- ParseKind(NodeType.VariableDeclaration);
      var kind :- ParseVariableDeclarationKind();
      var declarators :- ParseVariableDeclaratorList();
      return Ok(VariableDeclaration.VariableDeclaration(kind, declarators));
    }

    /** `parseVariableDeclarationKind`. */
    method ParseVariableDeclarationKind() returns (r: Result<VariableDeclarationKind>)
      modifies reader
      ensures Outcome(r, reader.pos) == VariableDeclarationKindAt(reader.items, old(reader.pos))
    {
      var variant :- reader.ReadVariant();
      match variant
      case Let => return Ok(VariableDeclarationKind.Let);
      case Const => return Ok(VariableDeclarationKind.Const);
      case AssertedDeclaredKindOrVariableDeclarationKindVar => return Ok(VariableDeclarationKind.Var);
      case _ => return Err;
    }

    /** `parseVariableDeclaratorList`. */
    method ParseVariableDeclaratorList() returns (r: Result<seq<VariableDeclarator>>)
      modifies reader
      ensures Outcome(r, reader.pos) == DeclaratorListAt(reader.items, old(reader.pos))
    {
      var length :- reader.ReadVarnum();
      if length == 0 {
        return Ok([]);
      }
      // The first element throws, so the loop of `parseList` ends there.
      var declarator := ParseVariableDeclarator();
      return declarator.PropagateFailure();
    }

    /** `parseVariableDeclarator`: stops at the binding, which throws. */
    method ParseVariableDeclarator() returns (r: Result<VariableDeclarator>)
      modifies reader
      ensures Outcome(r, reader.pos) == DeclaratorAt(reader.items, old(reader.pos))
    {
      var tag :- ParseKind(NodeType.VariableDeclarator);
      var binding := ParseBinding();
      return binding.PropagateFailure();
    }

    /** `parseForInStatement`: stops at the left-hand side, which throws. */
    method ParseForInStatement() returns (r: Result<Statement>)
      modifies reader
      ensures Outcome(r, reader.pos) == ForInStatementAt(reader.items, old(reader.pos))
    {
      var tag :- ParseKind(NodeType.ForInStatement);
      var left := ParseForInOfBindingOrAssignmentTarget();
      return left.PropagateFailure();
    }

    /** `parseForOfStatement`: stops at the left-hand side, which throws. */
    method ParseForOfStatement() returns (r: Result<Statement>)
      modifies reader
      ensures Outcome(r, reader.pos) == ForOfStatementAt(reader.items, old(reader.pos))
    {
      var tag :- ParseKind(NodeType.ForOfStatement);
      var left := ParseForInOfBindingOrAssignmentTarget();
      return left.PropagateFailure();
    }

    /** `parseForStatement`: three optional clauses and the body. */
    method ParseForStatement() returns (r: Result<Statement>)
      modifies reader
      ensures Outcome(r, reader.pos) == ForStatementAt(reader.items, old(reader.pos))
      decreases Remaining(reader.items, reader.pos), 0
    {
      var tag :- ParseKind(NodeType.ForStatement);
      var absent := ParseAbsent();
      var init: Option<ForInit> := None;
      if !absent {
        var clause :- ParseVariableDeclarationOrExpression();
        init := Some(clause);
      }
      absent := ParseAbsent();
      if !absent {
        var test := ParseExpression();
        return test.PropagateFailure();
      }
      absent := ParseAbsent();
      if !absent {
        var update := ParseExpression();
        return update.PropagateFailure();
      }
      var body :- ParseStatement();
      return Ok(Iteration(IterationStatement.ForStatement(init, None, None, body)));
    }

    /** `parseWhileStatement`: stops at the test, which throws. */
    method ParseWhileStatement() returns (r: Result<Statement>)
      modifies reader
      ensures Outcome(r, reader.pos) == WhileStatementAt(reader.items, old(reader.pos))
    {
      var tag :- ParseKind(NodeType.WhileStatement);
      var test := ParseExpression();
      return test.PropagateFailure();
    }

    /** `parseLabelledStatement`. */
    method ParseLabelledStatement() returns (r: Result<Statement>)
      modifies reader
      ensures Outcome(r, reader.pos) == LabelledStatementAt(reader.items, old(reader.pos))
      decreases Remaining(reader.items, reader.pos), 0
    {
      var tag :- ParseKind(NodeType.LabelledStatement);
      var labelText :- reader.ReadString();
      var body :- ParseStatement();
      return Ok(Statement.LabelledStatement(labelText, body));
    }

    /** `parseReturnStatement`: the argument is read only when present, and then throws. */
    method ParseReturnStatement() returns (r: Result<Statement>)
      modifies reader
      ensures Outcome(r, reader.pos) == ReturnStatementAt(reader.items, old(reader.pos))
    {
      var tag :- ParseKind(NodeType.ReturnStatement);
      var absent := ParseAbsent();
      if !absent {
        var argument := ParseExpression();
        return argument.PropagateFailure();
      }
      return Ok(Statement.ReturnStatement(None));
    }

    /** `parseSwitchStatement`: stops at the discriminant, which throws. */
    method ParseSwitchStatement() returns (r: Result<Statement>)
      modifies reader
      ensures Outcome(r, reader.pos) == SwitchStatementAt(reader.items, old(reader.pos))
    {
      var tag :- ParseKind(NodeType.SwitchStatement);
      var discriminant := ParseExpression();
      return discriminant.PropagateFailure();
    }

    /** `parseSwitchCaseList`. */
    method ParseSwitchCaseList() returns (r: Result<seq<SwitchCase>>)
      modifies reader
      ensures Outcome(r, reader.pos) == SwitchCaseListAt(reader.items, old(reader.pos))
    {
      var length :- reader.ReadVarnum();
      if length == 0 {
        return Ok([]);
      }
      // The first element throws, so the loop of `parseList` ends there.
      var switchCase := ParseSwitchCase();
      return switchCase.PropagateFailure();
    }

    /** `parseSwitchCase`: stops at the test, which throws. */
    method ParseSwitchCase() returns (r: Result<SwitchCase>)
      modifies reader
      ensures Outcome(r, reader.pos) == SwitchCaseAt(reader.items, old(reader.pos))
    {
      var tag :- ParseKind(NodeType.SwitchCase);
      var test := ParseExpression();
      return test.PropagateFailure();
    }

    /** `parseSwitchStatementWithDefault`: stops at the discriminant, which throws. */
    method ParseSwitchStatementWithDefault() returns (r: Result<Statement>)
      modifies reader
      ensures Outcome(r, reader.pos) == SwitchStatementWithDefaultAt(reader.items, old(reader.pos))
    {
      var tag :- ParseKind(NodeType.SwitchStatementWithDefault);
      var discriminant := ParseExpression();
      return discriminant.PropagateFailure();
    }

    /** `parseSwitchDefault`. */
    method ParseSwitchDefault() returns (r: Result<SwitchDefault>)
      modifies reader
      ensures Outcome(r, reader.pos) == SwitchDefaultAt(reader.items, old(reader.pos))
    {
      var tag :- ParseKind(NodeType.SwitchDefault);
      var consequent :- ParseStatementList();
      return Ok(SwitchDefault.SwitchDefault(consequent));
    }

    /** `parseThrowStatement`: stops at the expression, which throws. */
    method ParseThrowStatement() returns (r: Result<Statement>)
      modifies reader
      ensures Outcome(r, reader.pos) == ThrowStatementAt(reader.items, old(reader.pos))
    {
      var tag :- ParseKind(NodeType.ThrowStatement);
      var expression := ParseExpression();
      return expression.PropagateFailure();
    }

    /** `parseTryCatchStatement`: stops at the catch clause, which throws. */
    method ParseTryCatchStatement() returns (r: Result<Statement>)
      modifies reader
      ensures Outcome(r, reader.pos) == TryCatchStatementAt(reader.items, old(reader.pos))
      decreases Remaining(reader.items, reader.pos), 0
    {
      var tag :- ParseKind(NodeType.TryCatchStatement);
      var body :- ParseBlock();
      var catchClause := ParseCatchClause();
      return catchClause.PropagateFailure();
    }

    /** `parseCatchClause`: stops at the binding, which throws. */
    method ParseCatchClause() returns (r: Result<CatchClause>)
      modifies reader
      ensures Outcome(r, reader.pos) == CatchClauseAt(reader.items, old(reader.pos))
    {
      var tag :- ParseKind(NodeType.CatchClause);
      var bindingScope :- ParseAssertedBoundNamesScope();
      var binding := ParseBinding();
      return binding.PropagateFailure();
    }

    /** `parseTryFinallyStatement`: a block, an optional catch clause and the finalizer. */
    method ParseTryFinallyStatement() returns (r: Result<Statement>)
      modifies reader
      ensures Outcome(r, reader.pos) == TryFinallyStatementAt(reader.items, old(reader.pos))
      decreases Remaining(reader.items, reader.pos), 0
    {
      var tag :- ParseKind(NodeType.TryFinallyStatement);
      var body :- ParseBlock();
      var absent := ParseAbsent();
      if !absent {
        var catchClause := ParseCatchClause();
        return catchClause.PropagateFailure();
      }
      var finalizer :- ParseBlock();
      return Ok(Statement.TryFinallyStatement(body, None, finalizer));
    }

    /** `parseWithStatement`: stops at the object, which throws. */
    method ParseWithStatement() returns (r: Result<Statement>)
      modifies reader
      ensures Outcome(r, reader.pos) == WithStatementAt(reader.items, old(reader.pos))
    {
      var tag :- ParseKind(NodeType.WithStatement);
      var objectExpression := ParseExpression();
      return objectExpression.PropagateFailure();
    }
  }
}
