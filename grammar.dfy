/**
 * The grammar of src/io/parser.ts as total functions. `XAt(items, pos)` is
 * what `parseX()` returns when the reader's cursor is at `pos`: the decoded
 * node and the cursor after it, or `Err` where the parser throws. The
 * parser's methods (module Parsing) are proved against these functions.
 *
 * A production whose every path reaches a call that always throws
 * (`parseExpression`, `parseBinding`, `parseMethodDefinition`,
 * `parseForInOfBindingOrAssignmentTarget`) is written up to that call and
 * ends with its failure; the fields after it are never read.
 */
module Grammar {
  import opened Results
  import opened Kinds
  import opened NodeTypes
  import opened Ast
  import opened Wire

  /** A successful decoding consumed at least one item and stayed inside the input. */
  predicate Progress<T>(items: seq<Item>, pos: nat, r: Result<Decoded<T>>) {
    r.Ok? ==> pos < r.value.next <= |items|
  }

  /** Every successful call of `item`, at any position, makes progress. */
  ghost predicate Advances<T>(items: seq<Item>, item: nat -> Result<Decoded<T>>) {
    forall p: nat :: Progress(items, p, item(p))
  }

  /** The item at `pos` is the tag `kind`. */
  predicate StartsWith(items: seq<Item>, pos: nat, kind: NodeType) {
    pos < |items| && items[pos] == TagItem(kind)
  }

  // ---------------------------------------------------------------------------
  // Primitives (src/io/parser.ts:55-82)

  /** `peekTaggedTuple`: the tag `enterTaggedTuple` would return at `pos`. */
  function Peek(items: seq<Item>, pos: nat): (r: Result<NodeType>)
    ensures r.Ok? <==> pos < |items| && items[pos].TagItem?
    ensures r.Ok? ==> r.value == items[pos].kind
  {
    var tag :- EnterTaggedTuple(items, pos);
    Ok(tag.node)
  }

  /** `parseKind`: consume one tag and insist that it is `expected`. */
  function ExpectKind(items: seq<Item>, pos: nat, expected: NodeType): (r: Result<Decoded<NodeType>>)
    ensures r.Ok? <==> StartsWith(items, pos, expected)
    ensures r.Ok? ==> r.value == Decoded(expected, pos + 1)
  {
    var tag :- EnterTaggedTuple(items, pos);
    if tag.node == expected then Ok(Decoded(expected, tag.next)) else Err
  }

  /** `parseList`: a varnum count, then that many items. */
  function List<T>(items: seq<Item>, pos: nat, item: nat -> Result<Decoded<T>>): (r: Result<Decoded<seq<T>>>)
    ensures r.Ok? ==> ReadVarnum(items, pos).Ok? && |r.value.node| == ReadVarnum(items, pos).value.node
    ensures Advances(items, item) ==> Progress(items, pos, r)
  {
    var count :- ReadVarnum(items, pos);
    Loop(items, count.next, count.node, item)
  }

  /** The loop of `parseList`: `count` items, in reading order. */
  function Loop<T>(items: seq<Item>, pos: nat, count: nat, item: nat -> Result<Decoded<T>>): (r: Result<Decoded<seq<T>>>)
    ensures r.Ok? ==> |r.value.node| == count
    ensures Advances(items, item) && r.Ok? ==> pos <= r.value.next && (count > 0 ==> r.value.next <= |items|)
    decreases count
  {
    if count == 0 then Ok(Decoded([], pos))
    else
      var first :- item(pos);
      var rest :- Loop(items, first.next, count - 1, item);
      Ok(Decoded([first.node] + rest.node, rest.next))
  }

  /**
   * `parseOptional`: a `Null` tag stands for an absent value and is consumed;
   * otherwise the delegate decodes the value from the same position. A peek
   * that finds no tag at all is not the absent marker either.
   */
  function Optional<T>(items: seq<Item>, pos: nat, item: nat -> Result<Decoded<T>>): (r: Result<Decoded<Option<T>>>)
    ensures Peek(items, pos) == Ok(NodeType.Null) ==> r == Ok(Decoded(None, pos + 1))
    ensures Peek(items, pos) != Ok(NodeType.Null) ==>
              (r.Ok? <==> item(pos).Ok?) &&
              (r.Ok? ==> r.value == Decoded(Some(item(pos).value.node), item(pos).value.next))
    ensures Progress(items, pos, item(pos)) ==> Progress(items, pos, r)
  {
    if Peek(items, pos) == Ok(NodeType.Null) then
      Ok(Decoded(None, EnterTaggedTuple(items, pos).value.next))
    else
      var value :- item(pos);
      Ok(Decoded(Some(value.node), value.next))
  }

  /** `prefix` in front of the values of a successful list decoding. */
  function Prepend<T>(prefix: seq<T>, r: Result<Decoded<seq<T>>>): Result<Decoded<seq<T>>> {
    if r.Ok? then Ok(Decoded(prefix + r.value.node, r.value.next)) else Err
  }

  lemma PrependNothing<T>(r: Result<Decoded<seq<T>>>)
    ensures Prepend([], r) == r
  {
    if r.Ok? {
      assert [] + r.value.node == r.value.node;
    }
  }

  lemma PrependToEmpty<T>(prefix: seq<T>, next: nat)
    ensures Prepend(prefix, Ok(Decoded([], next))) == Ok(Decoded(prefix, next))
  {
    assert prefix + [] == prefix;
  }

  lemma PrependTwice<T>(a: seq<T>, b: seq<T>, r: Result<Decoded<seq<T>>>)
    ensures Prepend(a, Prepend(b, r)) == Prepend(a + b, r)
  {
    if r.Ok? {
      assert a + (b + r.value.node) == (a + b) + r.value.node;
    }
  }

  // ---------------------------------------------------------------------------
  // Item decoders handed to `List` and `Optional`

  function StringDecoder(items: seq<Item>): nat -> Result<Decoded<string>> {
    (p: nat) => ReadString(items, p)
  }

  function ExpressionDecoder(items: seq<Item>): nat -> Result<Decoded<Expression>> {
    (p: nat) => ExpressionAt(items, p)
  }

  function DeclaredNameDecoder(items: seq<Item>): nat -> Result<Decoded<AssertedDeclaredName>> {
    (p: nat) => DeclaredNameAt(items, p)
  }

  function DirectiveDecoder(items: seq<Item>): nat -> Result<Decoded<Directive>> {
    (p: nat) => DirectiveAt(items, p)
  }

  function ClassElementDecoder(items: seq<Item>): nat -> Result<Decoded<ClassElement>> {
    (p: nat) => ClassElementAt(items, p)
  }

  function DeclaratorDecoder(items: seq<Item>): nat -> Result<Decoded<VariableDeclarator>> {
    (p: nat) => DeclaratorAt(items, p)
  }

  function SwitchCaseDecoder(items: seq<Item>): nat -> Result<Decoded<SwitchCase>> {
    (p: nat) => SwitchCaseAt(items, p)
  }

  function BoundNameDecoder(items: seq<Item>): nat -> Result<Decoded<AssertedBoundName>> {
    (p: nat) => BoundNameAt(items, p)
  }

  function CatchClauseDecoder(items: seq<Item>): nat -> Result<Decoded<CatchClause>> {
    (p: nat) => CatchClauseAt(items, p)
  }

  function ForInitDecoder(items: seq<Item>): nat -> Result<Decoded<ForInit>> {
    (p: nat) => VarDeclOrExpressionAt(items, p)
  }

  // ---------------------------------------------------------------------------
  // Root (src/io/parser.ts:50-108)

  /** `parse`: the header, then the program. */
  function ParseAt(items: seq<Item>, pos: nat): (r: Result<Decoded<Program>>)
    ensures Progress(items, pos, r)
    ensures r.Ok? ==> pos < |items| && items[pos] == HeaderItem && StartsWith(items, pos + 1, NodeType.Script)
    ensures r.Ok? ==> r.value.node.ScriptProgram?
  {
    var header :- ReadHeader(items, pos);
    ProgramAt(items, header.next)
  }

  /** `parseProgram`: only a script root decodes; a module or any other tag fails. */
  function ProgramAt(items: seq<Item>, pos: nat): (r: Result<Decoded<Program>>)
    ensures Progress(items, pos, r)
    ensures r.Ok? ==> StartsWith(items, pos, NodeType.Script) && r.value.node.ScriptProgram?
    ensures r.Ok? <==> ScriptAt(items, pos).Ok?
  {
    var kind :- Peek(items, pos);
    if kind == NodeType.Script then
      var script :- ScriptAt(items, pos);
      Ok(Decoded(ScriptProgram(script.node), script.next))
    else
      Err  // NodeType.Module and every other tag
  }

  /** `parseScript`. */
  function ScriptAt(items: seq<Item>, pos: nat): (r: Result<Decoded<Script>>)
    ensures Progress(items, pos, r)
    ensures r.Ok? ==> StartsWith(items, pos, NodeType.Script)
  {
    var tag :- ExpectKind(items, pos, NodeType.Script);
    var scope :- ScriptGlobalScopeAt(items, tag.next);
    var directives :- DirectiveListAt(items, scope.next);
    var statements :- StatementListAt(items, directives.next);
    Ok(Decoded(Script.Script(scope.node, directives.node, statements.node), statements.next))
  }

  // ---------------------------------------------------------------------------
  // Scopes and names (src/io/parser.ts:110-170, 284-295, 680-706)

  /** `parseAssertedScriptGlobalScope`. */
  function ScriptGlobalScopeAt(items: seq<Item>, pos: nat): (r: Result<Decoded<AssertedScriptGlobalScope>>)
    ensures Progress(items, pos, r)
    ensures r.Ok? ==> StartsWith(items, pos, NodeType.AssertedScriptGlobalScope)
  {
    var tag :- ExpectKind(items, pos, NodeType.AssertedScriptGlobalScope);
    var names :- DeclaredNameListAt(items, tag.next);
    var hasDirectEval :- ReadBoolean(items, names.next);
    Ok(Decoded(AssertedScriptGlobalScope.AssertedScriptGlobalScope(names.node, hasDirectEval.node), hasDirectEval.next))
  }

  /** `parseAssertedBlockScope`. */
  function BlockScopeAt(items: seq<Item>, pos: nat): (r: Result<Decoded<AssertedBlockScope>>)
    ensures Progress(items, pos, r)
    ensures r.Ok? ==> StartsWith(items, pos, NodeType.AssertedBlockScope)
  {
    var tag :- ExpectKind(items, pos, NodeType.AssertedBlockScope);
    var names :- DeclaredNameListAt(items, tag.next);
    var hasDirectEval :- ReadBoolean(items, names.next);
    Ok(Decoded(AssertedBlockScope.AssertedBlockScope(names.node, hasDirectEval.node), hasDirectEval.next))
  }

  /** `parseAssertedDeclaredNameList`. */
  function DeclaredNameListAt(items: seq<Item>, pos: nat): (r: Result<Decoded<seq<AssertedDeclaredName>>>)
    ensures Progress(items, pos, r)
  {
    assert Advances(items, DeclaredNameDecoder(items));
    List(items, pos, DeclaredNameDecoder(items))
  }

  /**
   * `parseAssertedDeclaredName`: a tag, a name, a kind that must be `var`, and
   * the captured flag: exactly four items.
   */
  function DeclaredNameAt(items: seq<Item>, pos: nat): (r: Result<Decoded<AssertedDeclaredName>>)
    ensures r.Ok? <==>
              pos + 3 < |items| && items[pos] == TagItem(NodeType.AssertedDeclaredName) && items[pos + 1].StringItem?
              && items[pos + 2] == VariantItem(Variant.AssertedDeclaredKindOrVariableDeclarationKindVar)
              && items[pos + 3].BoolItem?
    ensures r.Ok? ==>
              r.value == Decoded(AssertedDeclaredName.AssertedDeclaredName(items[pos + 1].s, AssertedDeclaredKind.Var, items[pos + 3].b), pos + 4)
  {
    var tag :- ExpectKind(items, pos, NodeType.AssertedDeclaredName);
    var name :- ReadString(items, tag.next);
    var kind :- DeclaredKindAt(items, name.next);
    if kind.node.IsLexical() then Err  // let and const are not supported
    else
      var isCaptured :- ReadBoolean(items, kind.next);
      Ok(Decoded(AssertedDeclaredName.AssertedDeclaredName(name.node, kind.node, isCaptured.node), isCaptured.next))
  }

  /** `parseAssertedDeclaredKind`: one variant, mapped to its declared kind. */
  function DeclaredKindAt(items: seq<Item>, pos: nat): (r: Result<Decoded<AssertedDeclaredKind>>)
    ensures r.Ok? <==>
              pos < |items| && items[pos].VariantItem?
              && items[pos].v in {Variant.AssertedDeclaredKindOrVariableDeclarationKindVar, Variant.ConstLexical, Variant.NonConstLexical}
    ensures r.Ok? ==> items[pos] == VariantItem(DeclaredKindVariant(r.value.node)) && r.value.next == pos + 1
  {
    var variant :- ReadVariant(items, pos);
    match variant.node
    case AssertedDeclaredKindOrVariableDeclarationKindVar => Ok(Decoded(AssertedDeclaredKind.Var, variant.next))
    case ConstLexical => Ok(Decoded(AssertedDeclaredKind.ConstLexical, variant.next))
    case NonConstLexical => Ok(Decoded(AssertedDeclaredKind.NonConstLexical, variant.next))
    case _ => Err
  }

  /** `parseDirectiveList`. */
  function DirectiveListAt(items: seq<Item>, pos: nat): (r: Result<Decoded<seq<Directive>>>)
    ensures Progress(items, pos, r)
  {
    assert Advances(items, DirectiveDecoder(items));
    List(items, pos, DirectiveDecoder(items))
  }

  /** `parseDirective`: a tag and the raw value. */
  function DirectiveAt(items: seq<Item>, pos: nat): (r: Result<Decoded<Directive>>)
    ensures r.Ok? <==> StartsWith(items, pos, NodeType.Directive) && pos + 1 < |items| && items[pos + 1].StringItem?
    ensures r.Ok? ==> r.value == Decoded(Directive.Directive(items[pos + 1].s), pos + 2)
  {
    var tag :- ExpectKind(items, pos, NodeType.Directive);
    var rawValue :- ReadString(items, tag.next);
    Ok(Decoded(Directive.Directive(rawValue.node), rawValue.next))
  }

  /** `parseAssertedBoundNamesScope`. */
  function BoundNamesScopeAt(items: seq<Item>, pos: nat): (r: Result<Decoded<AssertedBoundNamesScope>>)
    ensures Progress(items, pos, r)
    ensures r.Ok? ==> StartsWith(items, pos, NodeType.AssertedBoundNamesScope)
  {
    var tag :- ExpectKind(items, pos, NodeType.AssertedBoundNamesScope);
    var names :- BoundNameListAt(items, tag.next);
    var hasDirectEval :- ReadBoolean(items, names.next);
    Ok(Decoded(AssertedBoundNamesScope.AssertedBoundNamesScope(names.node, hasDirectEval.node), hasDirectEval.next))
  }

  /** `parseAssertedBoundNameList`. */
  function BoundNameListAt(items: seq<Item>, pos: nat): (r: Result<Decoded<seq<AssertedBoundName>>>)
    ensures Progress(items, pos, r)
  {
    assert Advances(items, BoundNameDecoder(items));
    List(items, pos, BoundNameDecoder(items))
  }

  /** `parseAssertedBoundName`: a tag, a name and the captured flag. */
  function BoundNameAt(items: seq<Item>, pos: nat): (r: Result<Decoded<AssertedBoundName>>)
    ensures r.Ok? <==>
              StartsWith(items, pos, NodeType.AssertedBoundName) && pos + 2 < |items|
              && items[pos + 1].StringItem? && items[pos + 2].BoolItem?
    ensures r.Ok? ==> r.value == Decoded(AssertedBoundName.AssertedBoundName(items[pos + 1].s, items[pos + 2].b), pos + 3)
  {
    var tag :- ExpectKind(items, pos, NodeType.AssertedBoundName);
    var name :- ReadString(items, tag.next);
    var isCaptured :- ReadBoolean(items, name.next);
    Ok(Decoded(AssertedBoundName.AssertedBoundName(name.node, isCaptured.node), isCaptured.next))
  }

  /** `parseBindingIdentifier`: a tag and a name. */
  function BindingIdentifierAt(items: seq<Item>, pos: nat): (r: Result<Decoded<BindingIdentifier>>)
    ensures r.Ok? <==> StartsWith(items, pos, NodeType.BindingIdentifier) && pos + 1 < |items| && items[pos + 1].StringItem?
    ensures r.Ok? ==> r.value == Decoded(BindingIdentifier.BindingIdentifier(items[pos + 1].s), pos + 2)
  {
    var tag :- ExpectKind(items, pos, NodeType.BindingIdentifier);
    var name :- ReadString(items, tag.next);
    Ok(Decoded(BindingIdentifier.BindingIdentifier(name.node), name.next))
  }

  // ---------------------------------------------------------------------------
  // Decoders that always throw (src/io/parser.ts:232-270, 347-359, 477-486, 542-554)

  /** `parseExpression`: peeks at the tag, then throws for every tag. */
  function ExpressionAt(items: seq<Item>, pos: nat): (r: Result<Decoded<Expression>>)
    ensures r.Err?
  {
    var kind :- Peek(items, pos);
    Err
  }

  /** `parseMethodDefinition`: peeks at the tag, then throws for every tag. */
  function MethodDefinitionAt(items: seq<Item>, pos: nat): (r: Result<Decoded<MethodDefinition>>)
    ensures r.Err?
  {
    var kind :- Peek(items, pos);
    Err
  }

  /** `parseBinding`: peeks at the tag, then throws for every tag. */
  function BindingAt(items: seq<Item>, pos: nat): (r: Result<Decoded<Binding>>)
    ensures r.Err?
  {
    var kind :- Peek(items, pos);
    Err
  }

  /** `parseForInOfBindingOrAssignmentTarget`: peeks at the tag, then throws for every tag. */
  function ForInOfTargetAt(items: seq<Item>, pos: nat): (r: Result<Decoded<ForInOfLeft>>)
    ensures r.Err?
  {
    var kind :- Peek(items, pos);
    Err
  }

  /**
   * `parseVariableDeclarationOrExpression`: only a variable declaration is
   * decoded; every other tag throws.
   */
  function VarDeclOrExpressionAt(items: seq<Item>, pos: nat): (r: Result<Decoded<ForInit>>)
    ensures r.Ok? <==> VariableDeclarationAt(items, pos).Ok?
    ensures r.Ok? ==>
              r.value == Decoded(InitDeclaration(VariableDeclarationAt(items, pos).value.node), VariableDeclarationAt(items, pos).value.next)
  {
    var kind :- Peek(items, pos);
    if kind == NodeType.VariableDeclaration then
      var declaration :- VariableDeclarationAt(items, pos);
      Ok(Decoded(InitDeclaration(declaration.node), declaration.next))
    else
      Err
  }

  // ---------------------------------------------------------------------------
  // Statements (src/io/parser.ts:172-230 and the productions after it)

  /** `parseStatementList`. */
  function StatementListAt(items: seq<Item>, pos: nat): (r: Result<Decoded<seq<Statement>>>)
    ensures Progress(items, pos, r)
    ensures r.Ok? ==> ReadVarnum(items, pos).Ok? && |r.value.node| == ReadVarnum(items, pos).value.node
    decreases Remaining(items, pos), 0
  {
    var count :- ReadVarnum(items, pos);
    StatementLoopAt(items, count.next, count.node)
  }

  /** The loop of `parseStatementList`: `count` statements, in reading order. */
  function StatementLoopAt(items: seq<Item>, pos: nat, count: nat): (r: Result<Decoded<seq<Statement>>>)
    ensures r.Ok? ==> |r.value.node| == count
    ensures r.Ok? ==> pos <= r.value.next && (count > 0 ==> r.value.next <= |items|)
    decreases Remaining(items, pos), 3
  {
    if count == 0 then Ok(Decoded([], pos))
    else
      var first :- StatementAt(items, pos);
      var rest :- StatementLoopAt(items, first.next, count - 1);
      Ok(Decoded([first.node] + rest.node, rest.next))
  }

  /**
   * `parseStatement`: dispatch on the peeked tag. A decoded statement is of the
   * kind of that tag, and a tag that is not a statement kind throws. The
   * dispatch is split in three: the statements that contain statements, and
   * two groups of statements that do not.
   */
  function StatementAt(items: seq<Item>, pos: nat): (r: Result<Decoded<Statement>>)
    ensures Progress(items, pos, r)
    decreases Remaining(items, pos), 2
  {
    var kind :- Peek(items, pos);
    if kind == NodeType.Block || kind == NodeType.ForStatement || kind == NodeType.LabelledStatement
       || kind == NodeType.TryCatchStatement || kind == NodeType.TryFinallyStatement
    then
      NestingStatementAt(items, pos)
    else if kind == NodeType.BreakStatement || kind == NodeType.ContinueStatement || kind == NodeType.ClassDeclaration
            || kind == NodeType.DebuggerStatement || kind == NodeType.EmptyStatement || kind == NodeType.ExpressionStatement
            || kind == NodeType.EagerFunctionDeclaration || kind == NodeType.LazyFunctionDeclaration || kind == NodeType.IfStatement
    then
      SimpleStatementAt(items, pos)
    else if kind == NodeType.DoWhileStatement || kind == NodeType.ForInStatement || kind == NodeType.ForOfStatement
            || kind == NodeType.WhileStatement || kind == NodeType.ReturnStatement || kind == NodeType.SwitchStatement
            || kind == NodeType.SwitchStatementWithDefault || kind == NodeType.ThrowStatement
            || kind == NodeType.VariableDeclaration || kind == NodeType.WithStatement
    then
      OtherStatementAt(items, pos)
    else
      Err
  }

  /** The statements of `parseStatement` that contain statements. */
  function NestingStatementAt(items: seq<Item>, pos: nat): (r: Result<Decoded<Statement>>)
    ensures Progress(items, pos, r)
    decreases Remaining(items, pos), 1
  {
    var kind :- Peek(items, pos);
    if kind == NodeType.Block then
      var block :- BlockAt(items, pos);
      Ok(Decoded(BlockStatement(block.node), block.next))
    else if kind == NodeType.ForStatement then ForStatementAt(items, pos)
    else if kind == NodeType.LabelledStatement then LabelledStatementAt(items, pos)
    else if kind == NodeType.TryCatchStatement then TryCatchStatementAt(items, pos)
    else if kind == NodeType.TryFinallyStatement then TryFinallyStatementAt(items, pos)
    else Err
  }

  /** Nine of the statements of `parseStatement` that contain no statement. */
  function SimpleStatementAt(items: seq<Item>, pos: nat): (r: Result<Decoded<Statement>>)
    ensures Progress(items, pos, r)
  {
    var kind :- Peek(items, pos);
    if kind == NodeType.BreakStatement then BreakStatementAt(items, pos)
    else if kind == NodeType.ContinueStatement then ContinueStatementAt(items, pos)
    else if kind == NodeType.ClassDeclaration then ClassDeclarationAt(items, pos)
    else if kind == NodeType.DebuggerStatement then DebuggerStatementAt(items, pos)
    else if kind == NodeType.EmptyStatement then EmptyStatementAt(items, pos)
    else if kind == NodeType.ExpressionStatement then ExpressionStatementAt(items, pos)
    else if kind == NodeType.EagerFunctionDeclaration then EagerFunctionDeclarationAt(items, pos).PropagateFailure()
    else if kind == NodeType.LazyFunctionDeclaration then LazyFunctionDeclarationAt(items, pos).PropagateFailure()
    else if kind == NodeType.IfStatement then IfStatementAt(items, pos)
    else Err
  }

  /** The other ten statements of `parseStatement` that contain no statement. */
  function OtherStatementAt(items: seq<Item>, pos: nat): (r: Result<Decoded<Statement>>)
    ensures Progress(items, pos, r)
  {
    var kind :- Peek(items, pos);
    if kind == NodeType.DoWhileStatement then DoWhileStatementAt(items, pos)
    else if kind == NodeType.ForInStatement then ForInStatementAt(items, pos)
    else if kind == NodeType.ForOfStatement then ForOfStatementAt(items, pos)
    else if kind == NodeType.WhileStatement then WhileStatementAt(items, pos)
    else if kind == NodeType.ReturnStatement then ReturnStatementAt(items, pos)
    else if kind == NodeType.SwitchStatement then SwitchStatementAt(items, pos)
    else if kind == NodeType.SwitchStatementWithDefault then SwitchStatementWithDefaultAt(items, pos)
    else if kind == NodeType.ThrowStatement then ThrowStatementAt(items, pos)
    else if kind == NodeType.VariableDeclaration then
      var declaration :- VariableDeclarationAt(items, pos);
      Ok(Decoded(VariableDeclarationStatement(declaration.node), declaration.next))
    else if kind == NodeType.WithStatement then WithStatementAt(items, pos)
    else Err
  }

  /** `parseBlock`. */
  function BlockAt(items: seq<Item>, pos: nat): (r: Result<Decoded<Block>>)
    ensures Progress(items, pos, r)
    ensures r.Ok? ==> StartsWith(items, pos, NodeType.Block)
    decreases Remaining(items, pos), 0
  {
    var tag :- ExpectKind(items, pos, NodeType.Block);
    var scope :- BlockScopeAt(items, tag.next);
    var statements :- StatementListAt(items, scope.next);
    Ok(Decoded(Block.Block(scope.node, statements.node), statements.next))
  }

  /** `parseBreakStatement`: a tag and an optional label; exactly two items. */
  function BreakStatementAt(items: seq<Item>, pos: nat): (r: Result<Decoded<Statement>>)
    ensures r.Ok? <==>
              StartsWith(items, pos, NodeType.BreakStatement) && pos + 1 < |items|
              && (items[pos + 1] == TagItem(NodeType.Null) || items[pos + 1].StringItem?)
    ensures r.Ok? ==>
              r.value == Decoded(Statement.BreakStatement(if items[pos + 1].StringItem? then Some(items[pos + 1].s) else None), pos + 2)
  {
    var tag :- ExpectKind(items, pos, NodeType.BreakStatement);
    var labelValue :- Optional(items, tag.next, StringDecoder(items));
    Ok(Decoded(Statement.BreakStatement(labelValue.node), labelValue.next))
  }

  /** `parseContinueStatement`: a tag and an optional label; exactly two items. */
  function ContinueStatementAt(items: seq<Item>, pos: nat): (r: Result<Decoded<Statement>>)
    ensures r.Ok? <==>
              StartsWith(items, pos, NodeType.ContinueStatement) && pos + 1 < |items|
              && (items[pos + 1] == TagItem(NodeType.Null) || items[pos + 1].StringItem?)
    ensures r.Ok? ==>
              r.value == Decoded(Statement.ContinueStatement(if items[pos + 1].StringItem? then Some(items[pos + 1].s) else None), pos + 2)
  {
    var tag :- ExpectKind(items, pos, NodeType.ContinueStatement);
    var labelValue :- Optional(items, tag.next, StringDecoder(items));
    Ok(Decoded(Statement.ContinueStatement(labelValue.node), labelValue.next))
  }

  /** `parseClassDeclaration`: the superclass is read with `parseExpression`, so it always throws. */
  function ClassDeclarationAt(items: seq<Item>, pos: nat): (r: Result<Decoded<Statement>>)
    ensures r.Err?
  {
    var tag :- ExpectKind(items, pos, NodeType.ClassDeclaration);
    var name :- BindingIdentifierAt(items, tag.next);
    ExpressionAt(items, name.next).PropagateFailure()
  }

  /** `parseClassElementList`. */
  function ClassElementListAt(items: seq<Item>, pos: nat): (r: Result<Decoded<seq<ClassElement>>>)
    ensures Progress(items, pos, r)
  {
    assert Advances(items, ClassElementDecoder(items));
    List(items, pos, ClassElementDecoder(items))
  }

  /** `parseClassElement`: the method is read with `parseMethodDefinition`, so it always throws. */
  function ClassElementAt(items: seq<Item>, pos: nat): (r: Result<Decoded<ClassElement>>)
    ensures r.Err?
  {
    var tag :- ExpectKind(items, pos, NodeType.ClassElement);
    var isStatic :- ReadBoolean(items, tag.next);
    MethodDefinitionAt(items, isStatic.next).PropagateFailure()
  }

  /** `parseDebuggerStatement`: just the tag. */
  function DebuggerStatementAt(items: seq<Item>, pos: nat): (r: Result<Decoded<Statement>>)
    ensures r.Ok? <==> StartsWith(items, pos, NodeType.DebuggerStatement)
    ensures r.Ok? ==> r.value == Decoded(Statement.DebuggerStatement, pos + 1)
  {
    var tag :- ExpectKind(items, pos, NodeType.DebuggerStatement);
    Ok(Decoded(Statement.DebuggerStatement, tag.next))
  }

  /** `parseEmptyStatement`: just the tag. */
  function EmptyStatementAt(items: seq<Item>, pos: nat): (r: Result<Decoded<Statement>>)
    ensures r.Ok? <==> StartsWith(items, pos, NodeType.EmptyStatement)
    ensures r.Ok? ==> r.value == Decoded(Statement.EmptyStatement, pos + 1)
  {
    var tag :- ExpectKind(items, pos, NodeType.EmptyStatement);
    Ok(Decoded(Statement.EmptyStatement, tag.next))
  }

  /** `parseExpressionStatement`: always throws, in `parseExpression`. */
  function ExpressionStatementAt(items: seq<Item>, pos: nat): (r: Result<Decoded<Statement>>)
    ensures r.Err?
  {
    var tag :- ExpectKind(items, pos, NodeType.ExpressionStatement);
    ExpressionAt(items, tag.next).PropagateFailure()
  }

  /** `parseEagerFunctionDeclaration`: reads the tag, then throws (not implemented). */
  function EagerFunctionDeclarationAt(items: seq<Item>, pos: nat): (r: Result<Decoded<FunctionDeclaration>>)
    ensures r.Err?
  {
    var tag :- ExpectKind(items, pos, NodeType.EagerFunctionDeclaration);
    Err
  }

  /** `parseLazyFunctionDeclaration`: reads the tag, then throws (not implemented). */
  function LazyFunctionDeclarationAt(items: seq<Item>, pos: nat): (r: Result<Decoded<FunctionDeclaration>>)
    ensures r.Err?
  {
    var tag :- ExpectKind(items, pos, NodeType.LazyFunctionDeclaration);
    Err
  }

  /** `parseIfStatement`: always throws, in `parseExpression` for the test. */
  function IfStatementAt(items: seq<Item>, pos: nat): (r: Result<Decoded<Statement>>)
    ensures r.Err?
  {
    var tag :- ExpectKind(items, pos, NodeType.IfStatement);
    ExpressionAt(items, tag.next).PropagateFailure()
  }

  /** `parseDoWhileStatement`: always throws, in `parseExpression` for the test. */
  function DoWhileStatementAt(items: seq<Item>, pos: nat): (r: Result<Decoded<Statement>>)
    ensures r.Err?
  {
    var tag :- ExpectKind(items, pos, NodeType.DoWhileStatement);
    ExpressionAt(items, tag.next).PropagateFailure()
  }

  /**
   * `parseVariableDeclaration`: a tag, the kind, and the declarators. A
   * declarator always throws (its binding), so only an empty list decodes:
   * exactly three items.
   */
  function VariableDeclarationAt(items: seq<Item>, pos: nat): (r: Result<Decoded<VariableDeclaration>>)
    ensures r.Ok? <==>
              StartsWith(items, pos, NodeType.VariableDeclaration) && pos + 2 < |items|
              && VariableDeclarationKindAt(items, pos + 1).Ok? && items[pos + 2] == NumItem(0)
    ensures r.Ok? ==>
              items[pos + 1] == VariantItem(DeclarationKindVariant(r.value.node.kind))
              && r.value.node.declarators == [] && r.value.next == pos + 3
  {
    var tag :- ExpectKind(items, pos, NodeType.VariableDeclaration);
    var kind :- VariableDeclarationKindAt(items, tag.next);
    var declarators :- DeclaratorListAt(items, kind.next);
    Ok(Decoded(VariableDeclaration.VariableDeclaration(kind.node, declarators.node), declarators.next))
  }

  /** `parseVariableDeclarationKind`: one variant, mapped to its declaration kind. */
  function VariableDeclarationKindAt(items: seq<Item>, pos: nat): (r: Result<Decoded<VariableDeclarationKind>>)
    ensures r.Ok? <==>
              pos < |items| && items[pos].VariantItem?
              && items[pos].v in {Variant.Let, Variant.Const, Variant.AssertedDeclaredKindOrVariableDeclarationKindVar}
    ensures r.Ok? ==> items[pos] == VariantItem(DeclarationKindVariant(r.value.node)) && r.value.next == pos + 1
  {
    var variant :- ReadVariant(items, pos);
    match variant.node
    case Let => Ok(Decoded(VariableDeclarationKind.Let, variant.next))
    case Const => Ok(Decoded(VariableDeclarationKind.Const, variant.next))
    case AssertedDeclaredKindOrVariableDeclarationKindVar => Ok(Decoded(VariableDeclarationKind.Var, variant.next))
    case _ => Err
  }

  /** `parseVariableDeclaratorList`. */
  function DeclaratorListAt(items: seq<Item>, pos: nat): (r: Result<Decoded<seq<VariableDeclarator>>>)
    ensures Progress(items, pos, r)
  {
    assert Advances(items, DeclaratorDecoder(items));
    List(items, pos, DeclaratorDecoder(items))
  }

  /** `parseVariableDeclarator`: always throws, in `parseBinding`. */
  function DeclaratorAt(items: seq<Item>, pos: nat): (r: Result<Decoded<VariableDeclarator>>)
    ensures r.Err?
  {
    var tag :- ExpectKind(items, pos, NodeType.VariableDeclarator);
    BindingAt(items, tag.next).PropagateFailure()
  }

  /** `parseForInStatement`: always throws, in `parseForInOfBindingOrAssignmentTarget`. */
  function ForInStatementAt(items: seq<Item>, pos: nat): (r: Result<Decoded<Statement>>)
    ensures r.Err?
  {
    var tag :- ExpectKind(items, pos, NodeType.ForInStatement);
    ForInOfTargetAt(items, tag.next).PropagateFailure()
  }

  /** `parseForOfStatement`: always throws, in `parseForInOfBindingOrAssignmentTarget`. */
  function ForOfStatementAt(items: seq<Item>, pos: nat): (r: Result<Decoded<Statement>>)
    ensures r.Err?
  {
    var tag :- ExpectKind(items, pos, NodeType.ForOfStatement);
    ForInOfTargetAt(items, tag.next).PropagateFailure()
  }

  /**
   * `parseForStatement`: a tag, three optional clauses, and the body. A test or
   * update clause decodes only when absent, an init clause only when absent or
   * a variable declaration.
   */
  function ForStatementAt(items: seq<Item>, pos: nat): (r: Result<Decoded<Statement>>)
    ensures Progress(items, pos, r)
    ensures r.Ok? ==>
              StartsWith(items, pos, NodeType.ForStatement) && r.value.node.Iteration?
              && r.value.node.iteration.ForStatement?
              && r.value.node.iteration.condition.None? && r.value.node.iteration.update.None?
    decreases Remaining(items, pos), 0
  {
    var tag :- ExpectKind(items, pos, NodeType.ForStatement);
    var init :- Optional(items, tag.next, ForInitDecoder(items));
    var test :- Optional(items, init.next, ExpressionDecoder(items));
    var update :- Optional(items, test.next, ExpressionDecoder(items));
    var body :- StatementAt(items, update.next);
    Ok(Decoded(Iteration(IterationStatement.ForStatement(init.node, test.node, update.node, body.node)), body.next))
  }

  /** `parseWhileStatement`: always throws, in `parseExpression` for the test. */
  function WhileStatementAt(items: seq<Item>, pos: nat): (r: Result<Decoded<Statement>>)
    ensures r.Err?
  {
    var tag :- ExpectKind(items, pos, NodeType.WhileStatement);
    ExpressionAt(items, tag.next).PropagateFailure()
  }

  /** `parseLabelledStatement`: a tag, the label, and the labelled statement. */
  function LabelledStatementAt(items: seq<Item>, pos: nat): (r: Result<Decoded<Statement>>)
    ensures Progress(items, pos, r)
    ensures r.Ok? ==>
              StartsWith(items, pos, NodeType.LabelledStatement) && pos + 1 < |items| && items[pos + 1].StringItem?
              && r.value.node.LabelledStatement? && r.value.node.labelText == items[pos + 1].s
    decreases Remaining(items, pos), 0
  {
    var tag :- ExpectKind(items, pos, NodeType.LabelledStatement);
    var labelText :- ReadString(items, tag.next);
    var body :- StatementAt(items, labelText.next);
    Ok(Decoded(Statement.LabelledStatement(labelText.node, body.node), body.next))
  }

  /** `parseReturnStatement`: decodes only with the argument absent; exactly two items. */
  function ReturnStatementAt(items: seq<Item>, pos: nat): (r: Result<Decoded<Statement>>)
    ensures r.Ok? <==> StartsWith(items, pos, NodeType.ReturnStatement) && StartsWith(items, pos + 1, NodeType.Null)
    ensures r.Ok? ==> r.value == Decoded(Statement.ReturnStatement(None), pos + 2)
  {
    var tag :- ExpectKind(items, pos, NodeType.ReturnStatement);
    var argument :- Optional(items, tag.next, ExpressionDecoder(items));
    Ok(Decoded(Statement.ReturnStatement(argument.node), argument.next))
  }

  /** `parseSwitchStatement`: always throws, in `parseExpression` for the discriminant. */
  function SwitchStatementAt(items: seq<Item>, pos: nat): (r: Result<Decoded<Statement>>)
    ensures r.Err?
  {
    var tag :- ExpectKind(items, pos, NodeType.SwitchStatement);
    ExpressionAt(items, tag.next).PropagateFailure()
  }

  /** `parseSwitchCaseList`. */
  function SwitchCaseListAt(items: seq<Item>, pos: nat): (r: Result<Decoded<seq<SwitchCase>>>)
    ensures Progress(items, pos, r)
  {
    assert Advances(items, SwitchCaseDecoder(items));
    List(items, pos, SwitchCaseDecoder(items))
  }

  /** `parseSwitchCase`: always throws, in `parseExpression` for the test. */
  function SwitchCaseAt(items: seq<Item>, pos: nat): (r: Result<Decoded<SwitchCase>>)
    ensures r.Err?
  {
    var tag :- ExpectKind(items, pos, NodeType.SwitchCase);
    ExpressionAt(items, tag.next).PropagateFailure()
  }

  /** `parseSwitchStatementWithDefault`: always throws, in `parseExpression` for the discriminant. */
  function SwitchStatementWithDefaultAt(items: seq<Item>, pos: nat): (r: Result<Decoded<Statement>>)
    ensures r.Err?
  {
    var tag :- ExpectKind(items, pos, NodeType.SwitchStatementWithDefault);
    ExpressionAt(items, tag.next).PropagateFailure()
  }

  /** `parseSwitchDefault`: a tag and the consequent statements. */
  function SwitchDefaultAt(items: seq<Item>, pos: nat): (r: Result<Decoded<SwitchDefault>>)
    ensures Progress(items, pos, r)
    ensures r.Ok? ==> StartsWith(items, pos, NodeType.SwitchDefault)
  {
    var tag :- ExpectKind(items, pos, NodeType.SwitchDefault);
    var consequent :- StatementListAt(items, tag.next);
    Ok(Decoded(SwitchDefault.SwitchDefault(consequent.node), consequent.next))
  }

  /** `parseThrowStatement`: always throws, in `parseExpression`. */
  function ThrowStatementAt(items: seq<Item>, pos: nat): (r: Result<Decoded<Statement>>)
    ensures r.Err?
  {
    var tag :- ExpectKind(items, pos, NodeType.ThrowStatement);
    ExpressionAt(items, tag.next).PropagateFailure()
  }

  /** `parseTryCatchStatement`: always throws, in the binding of the catch clause. */
  function TryCatchStatementAt(items: seq<Item>, pos: nat): (r: Result<Decoded<Statement>>)
    ensures r.Err?
    decreases Remaining(items, pos), 0
  {
    var tag :- ExpectKind(items, pos, NodeType.TryCatchStatement);
    var block :- BlockAt(items, tag.next);
    CatchClauseAt(items, block.next).PropagateFailure()
  }

  /** `parseCatchClause`: always throws, in `parseBinding`. */
  function CatchClauseAt(items: seq<Item>, pos: nat): (r: Result<Decoded<CatchClause>>)
    ensures r.Err?
  {
    var tag :- ExpectKind(items, pos, NodeType.CatchClause);
    var bindingScope :- BoundNamesScopeAt(items, tag.next);
    BindingAt(items, bindingScope.next).PropagateFailure()
  }

  /**
   * `parseTryFinallyStatement`: a tag, the block, an optional catch clause and
   * the finalizer; the catch clause decodes only when absent.
   */
  function TryFinallyStatementAt(items: seq<Item>, pos: nat): (r: Result<Decoded<Statement>>)
    ensures Progress(items, pos, r)
    ensures r.Ok? ==>
              StartsWith(items, pos, NodeType.TryFinallyStatement) && r.value.node.TryFinallyStatement?
              && r.value.node.handler.None?
    decreases Remaining(items, pos), 0
  {
    var tag :- ExpectKind(items, pos, NodeType.TryFinallyStatement);
    var block :- BlockAt(items, tag.next);
    var handler :- Optional(items, block.next, CatchClauseDecoder(items));
    var finalizer :- BlockAt(items, handler.next);
    Ok(Decoded(Statement.TryFinallyStatement(block.node, handler.node, finalizer.node), finalizer.next))
  }

  /** `parseWithStatement`: always throws, in `parseExpression` for the object. */
  function WithStatementAt(items: seq<Item>, pos: nat): (r: Result<Decoded<Statement>>)
    ensures r.Err?
  {
    var tag :- ExpectKind(items, pos, NodeType.WithStatement);
    ExpressionAt(items, tag.next).PropagateFailure()
  }
}
