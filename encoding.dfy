/**
 * The statements the parser of src/io/parser.ts can produce, and an encoder
 * for them. The encoder is not part of the source: it writes the items that
 * the grammar reads back, and so serves as the reference the decoding is
 * checked against (see module RoundTrip).
 */
module Encoding {
  import opened Results
  import opened Kinds
  import opened NodeTypes
  import opened Ast
  import opened Wire

  // ---------------------------------------------------------------------------
  // The decodable shapes

  /** Only `var` names are declared. */
  predicate VarOnly(names: seq<AssertedDeclaredName>) {
    forall i :: 0 <= i < |names| ==> names[i].kind == AssertedDeclaredKind.Var
  }

  /** An absent `init` clause, or a variable declaration without declarators. */
  predicate DecodableForInit(init: Option<ForInit>) {
    init.None? || (init.value.InitDeclaration? && init.value.declaration.declarators == [])
  }

  /**
   * A statement that contains no expression, binding, method definition or
   * catch clause, whose declarations have no declarators and whose block
   * scopes declare only `var` names.
   */
  predicate Decodable(s: Statement)
    decreases s, 0
  {
    match s
    case BlockStatement(block) => DecodableBlock(block)
    case BreakStatement(_) => true
    case ContinueStatement(_) => true
    case DebuggerStatement => true
    case EmptyStatement => true
    case Iteration(loop) =>
      loop.ForStatement? && DecodableForInit(loop.init) && loop.condition.None? && loop.update.None?
      && Decodable(loop.body)
    case LabelledStatement(_, body) => Decodable(body)
    case ReturnStatement(argument) => argument.None?
    case TryFinallyStatement(block, handler, finalizer) =>
      DecodableBlock(block) && handler.None? && DecodableBlock(finalizer)
    case VariableDeclarationStatement(declaration) => declaration.declarators == []
    case _ => false
  }

  /** A block whose scope declares only `var` names and whose statements are decodable. */
  predicate DecodableBlock(block: Block)
    decreases block, 0
  {
    VarOnly(block.scope.declaredNames) && forall i :: 0 <= i < |block.statements| ==> Decodable(block.statements[i])
  }

  /** A script whose global scope declares only `var` names and whose statements are decodable. */
  predicate DecodableScript(script: Script) {
    VarOnly(script.scope.declaredNames) && forall i :: 0 <= i < |script.statements| ==> Decodable(script.statements[i])
  }

  // ---------------------------------------------------------------------------
  // The encoder

  function EncodeDeclaredName(name: AssertedDeclaredName): seq<Item> {
    [TagItem(NodeType.AssertedDeclaredName), StringItem(name.name), VariantItem(DeclaredKindVariant(name.kind)),
     BoolItem(name.isCaptured)]
  }

  /** The declared names one after the other, without their count. */
  function EncodeDeclaredNames(names: seq<AssertedDeclaredName>): seq<Item>
    decreases |names|
  {
    if names == [] then [] else EncodeDeclaredName(names[0]) + EncodeDeclaredNames(names[1..])
  }

  function EncodeScriptGlobalScope(scope: AssertedScriptGlobalScope): seq<Item> {
    [TagItem(NodeType.AssertedScriptGlobalScope), NumItem(|scope.declaredNames|)]
    + EncodeDeclaredNames(scope.declaredNames) + [BoolItem(scope.hasDirectEval)]
  }

  function EncodeBlockScope(scope: AssertedBlockScope): seq<Item> {
    [TagItem(NodeType.AssertedBlockScope), NumItem(|scope.declaredNames|)]
    + EncodeDeclaredNames(scope.declaredNames) + [BoolItem(scope.hasDirectEval)]
  }

  /** The directives one after the other, without their count. */
  function EncodeDirectives(directives: seq<Directive>): seq<Item>
    decreases |directives|
  {
    if directives == [] then []
    else [TagItem(NodeType.Directive), StringItem(directives[0].rawValue)] + EncodeDirectives(directives[1..])
  }

  /** An optional label: the `Null` tag when absent, the atom otherwise. */
  function EncodeLabel(target: Option<string>): seq<Item> {
    if target.Some? then [StringItem(target.value)] else [TagItem(NodeType.Null)]
  }

  /** A variable declaration of `kind` with no declarators. */
  function EncodeVariableDeclaration(kind: VariableDeclarationKind): seq<Item> {
    [TagItem(NodeType.VariableDeclaration), VariantItem(DeclarationKindVariant(kind)), NumItem(0)]
  }

  function EncodeForInit(init: Option<ForInit>): seq<Item>
    requires DecodableForInit(init)
  {
    if init.None? then [TagItem(NodeType.Null)] else EncodeVariableDeclaration(init.value.declaration.kind)
  }

  /** The encoding of `s` starts with the tag of its kind. */
  function EncodeStatement(s: Statement): (e: seq<Item>)
    requires Decodable(s)
    ensures |e| > 0 && e[0] == TagItem(s.Type())
    decreases s, 1
  {
    match s
    case BlockStatement(block) => EncodeBlock(block)
    case BreakStatement(target) => [TagItem(NodeType.BreakStatement)] + EncodeLabel(target)
    case ContinueStatement(target) => [TagItem(NodeType.ContinueStatement)] + EncodeLabel(target)
    case DebuggerStatement => [TagItem(NodeType.DebuggerStatement)]
    case EmptyStatement => [TagItem(NodeType.EmptyStatement)]
    case Iteration(loop) =>
      [TagItem(NodeType.ForStatement)] + EncodeForInit(loop.init) + [TagItem(NodeType.Null), TagItem(NodeType.Null)]
      + EncodeStatement(loop.body)
    case LabelledStatement(name, body) => [TagItem(NodeType.LabelledStatement), StringItem(name)] + EncodeStatement(body)
    case ReturnStatement(_) => [TagItem(NodeType.ReturnStatement), TagItem(NodeType.Null)]
    case TryFinallyStatement(block, _, finalizer) =>
      [TagItem(NodeType.TryFinallyStatement)] + EncodeBlock(block) + [TagItem(NodeType.Null)] + EncodeBlock(finalizer)
    case VariableDeclarationStatement(declaration) => EncodeVariableDeclaration(declaration.kind)
  }

  function EncodeBlock(block: Block): (e: seq<Item>)
    requires DecodableBlock(block)
    ensures |e| > 0 && e[0] == TagItem(NodeType.Block)
    decreases block, 1
  {
    [TagItem(NodeType.Block)] + EncodeBlockScope(block.scope) + [NumItem(|block.statements|)]
    + EncodeStatements(block.statements)
  }

  /** The statements one after the other, without their count. */
  function EncodeStatements(statements: seq<Statement>): seq<Item>
    requires forall i :: 0 <= i < |statements| ==> Decodable(statements[i])
    decreases statements
  {
    if statements == [] then [] else EncodeStatement(statements[0]) + EncodeStatements(statements[1..])
  }

  /** A whole file: the header, then the script. */
  function EncodeScript(script: Script): seq<Item>
    requires DecodableScript(script)
  {
    [HeaderItem, TagItem(NodeType.Script)] + EncodeScriptGlobalScope(script.scope)
    + [NumItem(|script.directives|)] + EncodeDirectives(script.directives)
    + [NumItem(|script.statements|)] + EncodeStatements(script.statements)
  }
}
