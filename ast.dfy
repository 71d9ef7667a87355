/**
 * The node shapes of src/types.ts that the statement parser builds. The `type`
 * field every interface carries is implied by the constructor here; `Type()`
 * recovers it for statements. Shapes that no production decodes (expressions,
 * bindings, method definitions, assignment targets, modules) are placeholders.
 */
module Ast {
  import opened Results
  import opened Kinds
  import opened NodeTypes

  datatype AssertedDeclaredName = AssertedDeclaredName(name: string, kind: AssertedDeclaredKind, isCaptured: bool)

  datatype AssertedBoundName = AssertedBoundName(name: string, isCaptured: bool)

  datatype AssertedBlockScope = AssertedBlockScope(declaredNames: seq<AssertedDeclaredName>, hasDirectEval: bool)

  datatype AssertedScriptGlobalScope = AssertedScriptGlobalScope(declaredNames: seq<AssertedDeclaredName>, hasDirectEval: bool)

  datatype AssertedBoundNamesScope = AssertedBoundNamesScope(boundNames: seq<AssertedBoundName>, hasDirectEval: bool)

  datatype Directive = Directive(rawValue: string)

  datatype BindingIdentifier = BindingIdentifier(name: string)

  /** Placeholder: the kind of expression node; no expression is ever decoded. */
  datatype Expression = Expression(kind: NodeType)

  /** Placeholder: the kind of method, getter or setter node. */
  datatype MethodDefinition = MethodDefinition(kind: NodeType)

  /** Placeholder: the kind of assignment-target node. */
  datatype AssignmentTarget = AssignmentTarget(kind: NodeType)

  /** `Binding`; the object and array patterns are placeholders. */
  datatype Binding = ObjectBinding | ArrayBinding | IdentifierBinding(identifier: BindingIdentifier)

  datatype ForInOfBinding = ForInOfBinding(kind: VariableDeclarationKind, binding: Binding)

  /** The left-hand side of `for … in` / `for … of`. */
  datatype ForInOfLeft = LeftBinding(binding: ForInOfBinding) | LeftTarget(target: AssignmentTarget)

  datatype ClassElement = ClassElement(isStatic: bool, methodDefinition: MethodDefinition)

  datatype VariableDeclarator = VariableDeclarator(binding: Binding, init: Option<Expression>)

  datatype VariableDeclaration = VariableDeclaration(kind: VariableDeclarationKind, declarators: seq<VariableDeclarator>)

  /** The `init` clause of a `for` statement. */
  datatype ForInit = InitDeclaration(declaration: VariableDeclaration) | InitExpression(expression: Expression)

  /** Function declarations, without their (never decoded) `length` and `contents`. */
  datatype FunctionDeclaration =
      EagerFunctionDeclaration(isAsync: bool, isGenerator: bool, name: BindingIdentifier, directives: seq<Directive>)
    | LazyFunctionDeclaration(isAsync: bool, isGenerator: bool, name: BindingIdentifier, directives: seq<Directive>)

  datatype Block = Block(scope: AssertedBlockScope, statements: seq<Statement>)

  datatype CatchClause = CatchClause(bindingScope: AssertedBoundNamesScope, binding: Binding, body: Block)

  datatype SwitchCase = SwitchCase(test: Expression, consequent: seq<Statement>)

  datatype SwitchDefault = SwitchDefault(consequent: seq<Statement>)

  /**
   * `IterationStatement`: exactly the five loop forms. Dafny needs one type per
   * field name across constructors, so `ForStatement.test` is `condition` here,
   * and the `bod` of `ForInStatement` and `ForOfStatement` is `body`, as in
   * the other loops.
   */
  datatype IterationStatement =
      DoWhileStatement(test: Expression, body: Statement)
    | ForInStatement(left: ForInOfLeft, right: Expression, body: Statement)
    | ForOfStatement(left: ForInOfLeft, right: Expression, body: Statement)
    | ForStatement(init: Option<ForInit>, condition: Option<Expression>, update: Option<Expression>, body: Statement)
    | WhileStatement(test: Expression, body: Statement)
  {
    /** The tag the node is written under. */
    function Type(): NodeType {
      match this
      case DoWhileStatement(_, _) => NodeType.DoWhileStatement
      case ForInStatement(_, _, _) => NodeType.ForInStatement
      case ForOfStatement(_, _, _) => NodeType.ForOfStatement
      case ForStatement(_, _, _, _) => NodeType.ForStatement
      case WhileStatement(_, _) => NodeType.WhileStatement
    }
  }

  /**
   * `Statement`: the seventeen non-loop statement shapes, a function
   * declaration, or an iteration statement. Field names follow the interfaces,
   * except for Dafny keywords and where two interfaces give one name different
   * types: `label` is `labelName` (break, continue) or `labelText` (labelled
   * statement), `ClassElement.method` is `methodDefinition`, `ReturnStatement.expression` is
   * `argument`, `WithStatement._object` is `objectExpression`, and the `body` and
   * `catchClause` of the two try statements are `block` and (when optional) `handler`.
   */
  datatype Statement =
      BlockStatement(block: Block)
    | BreakStatement(labelName: Option<string>)
    | ContinueStatement(labelName: Option<string>)
    | ClassDeclaration(name: BindingIdentifier, super: Option<Expression>, elements: seq<ClassElement>)
    | DebuggerStatement
    | EmptyStatement
    | ExpressionStatement(expression: Expression)
    | FunctionDeclarationStatement(functionDeclaration: FunctionDeclaration)
    | IfStatement(test: Expression, consequent: Statement, alternate: Option<Statement>)
    | Iteration(iteration: IterationStatement)
    | LabelledStatement(labelText: string, body: Statement)
    | ReturnStatement(argument: Option<Expression>)
    | SwitchStatement(discriminant: Expression, cases: seq<SwitchCase>)
    | SwitchStatementWithDefault(discriminant: Expression, preDefaultCases: seq<SwitchCase>,
                                 defaultCase: SwitchDefault, postDefaultCases: seq<SwitchCase>)
    | ThrowStatement(expression: Expression)
    | TryCatchStatement(block: Block, catchClause: CatchClause)
    | TryFinallyStatement(block: Block, handler: Option<CatchClause>, finalizer: Block)
    | VariableDeclarationStatement(declaration: VariableDeclaration)
    | WithStatement(objectExpression: Expression, body: Statement)
  {
    /** The tag the node is written under (its `type` field). */
    function Type(): NodeType {
      match this
      case BlockStatement(_) => NodeType.Block
      case BreakStatement(_) => NodeType.BreakStatement
      case ContinueStatement(_) => NodeType.ContinueStatement
      case ClassDeclaration(_, _, _) => NodeType.ClassDeclaration
      case DebuggerStatement => NodeType.DebuggerStatement
      case EmptyStatement => NodeType.EmptyStatement
      case ExpressionStatement(_) => NodeType.ExpressionStatement
      case FunctionDeclarationStatement(d) =>
        if d.EagerFunctionDeclaration? then NodeType.EagerFunctionDeclaration else NodeType.LazyFunctionDeclaration
      case IfStatement(_, _, _) => NodeType.IfStatement
      case Iteration(i) => i.Type()
      case LabelledStatement(_, _) => NodeType.LabelledStatement
      case ReturnStatement(_) => NodeType.ReturnStatement
      case SwitchStatement(_, _) => NodeType.SwitchStatement
      case SwitchStatementWithDefault(_, _, _, _) => NodeType.SwitchStatementWithDefault
      case ThrowStatement(_) => NodeType.ThrowStatement
      case TryCatchStatement(_, _) => NodeType.TryCatchStatement
      case TryFinallyStatement(_, _, _) => NodeType.TryFinallyStatement
      case VariableDeclarationStatement(_) => NodeType.VariableDeclaration
      case WithStatement(_, _) => NodeType.WithStatement
    }
  }

  /** The tags `parseStatement` dispatches on. */
  const StatementKinds: set<NodeType> := {
    NodeType.Block, NodeType.BreakStatement, NodeType.ContinueStatement, NodeType.ClassDeclaration,
    NodeType.DebuggerStatement, NodeType.EmptyStatement, NodeType.ExpressionStatement,
    NodeType.EagerFunctionDeclaration, NodeType.LazyFunctionDeclaration, NodeType.IfStatement,
    NodeType.DoWhileStatement, NodeType.ForInStatement, NodeType.ForOfStatement, NodeType.ForStatement,
    NodeType.WhileStatement, NodeType.LabelledStatement, NodeType.ReturnStatement, NodeType.SwitchStatement,
    NodeType.SwitchStatementWithDefault, NodeType.ThrowStatement, NodeType.TryCatchStatement,
    NodeType.TryFinallyStatement, NodeType.VariableDeclaration, NodeType.WithStatement
  }

  datatype Script = Script(scope: AssertedScriptGlobalScope, directives: seq<Directive>, statements: seq<Statement>)

  /** `Program`: a script, or a module (placeholder; never decoded). */
  datatype Program = ScriptProgram(script: Script) | ModuleProgram
}
