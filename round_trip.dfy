/**
 * The encoding of module Encoding decodes back: for every decodable
 * statement, block and script, the grammar of src/io/parser.ts reads its
 * encoding back to the same value and stops just after it.
 *
 * Positions inside an encoding are introduced by the layout lemmas, which
 * return them, so that the decoding lemmas never compute with the lengths of
 * encodings.
 */
module RoundTrip {
  import opened Results
  import opened Kinds
  import opened NodeTypes
  import opened Ast
  import opened Wire
  import opened Grammar
  import opened GrammarProperties
  import opened Encoding

  // ---------------------------------------------------------------------------
  // Occurrences

  /** The items `e` occur in `items` from `pos` on, and `next` is the position just after them. */
  predicate At(items: seq<Item>, pos: nat, e: seq<Item>, next: nat)
    decreases |e|
  {
    if e == [] then next == pos && pos <= |items|
    else pos < |items| && items[pos] == e[0] && At(items, pos + 1, e[1..], next)
  }

  /** An occurrence covers `|e|` items, each equal to its counterpart in `e`. */
  lemma {:induction false} AtItems(items: seq<Item>, pos: nat, e: seq<Item>, next: nat)
    requires At(items, pos, e, next)
    ensures next == pos + |e| <= |items|
    ensures forall i :: 0 <= i < |e| ==> items[pos + i] == e[i]
    decreases |e|
  {
    if e != [] {
      AtItems(items, pos + 1, e[1..], next);
      assert forall i :: 1 <= i < |e| ==> e[i] == e[1..][i - 1];
    }
  }

  /** An occurrence of `a + b` is one of `a` followed by one of `b`. */
  lemma {:induction false} AtSplit(items: seq<Item>, pos: nat, a: seq<Item>, b: seq<Item>, next: nat) returns (middle: nat)
    requires At(items, pos, a + b, next)
    ensures At(items, pos, a, middle) && At(items, middle, b, next)
    decreases |a|
  {
    if a == [] {
      assert a + b == b;
      AtItems(items, pos, b, next);
      middle := pos;
    } else {
      assert (a + b)[1..] == a[1..] + b;
      middle := AtSplit(items, pos + 1, a[1..], b, next);
    }
  }

  lemma AtOne(items: seq<Item>, pos: nat, x: Item, next: nat)
    requires At(items, pos, [x], next)
    ensures pos < |items| && items[pos] == x && next == pos + 1
  {
    AtItems(items, pos, [x], next);
  }

  lemma AtTwo(items: seq<Item>, pos: nat, x: Item, y: Item, next: nat)
    requires At(items, pos, [x, y], next)
    ensures pos + 1 < |items| && items[pos] == x && items[pos + 1] == y && next == pos + 2
  {
    AtItems(items, pos, [x, y], next);
  }

  // ---------------------------------------------------------------------------
  // Names and directives

  lemma {:induction false} DeclaredNamesRoundTrip(items: seq<Item>, pos: nat, names: seq<AssertedDeclaredName>, next: nat)
    requires VarOnly(names) && At(items, pos, EncodeDeclaredNames(names), next)
    ensures Chain(DeclaredNameDecoder(items), pos, names, next)
    decreases |names|
  {
    if names == [] {
      AtItems(items, pos, [], next);
    } else {
      var first := EncodeDeclaredName(names[0]);
      var middle := AtSplit(items, pos, first, EncodeDeclaredNames(names[1..]), next);
      AtItems(items, pos, first, middle);
      assert items[pos] == first[0] && items[pos + 1] == first[1] && items[pos + 2] == first[2] && items[pos + 3] == first[3];
      assert DeclaredNameAt(items, pos) == Ok(Decoded(names[0], middle));
      assert VarOnly(names[1..]) by {
        assert forall i :: 0 <= i < |names[1..]| ==> names[1..][i] == names[i + 1];
      }
      DeclaredNamesRoundTrip(items, middle, names[1..], next);
    }
  }

  lemma {:induction false} DirectivesRoundTrip(items: seq<Item>, pos: nat, directives: seq<Directive>, next: nat)
    requires At(items, pos, EncodeDirectives(directives), next)
    ensures Chain(DirectiveDecoder(items), pos, directives, next)
    decreases |directives|
  {
    if directives == [] {
      AtItems(items, pos, [], next);
    } else {
      var middle := AtSplit(items, pos, [TagItem(NodeType.Directive), StringItem(directives[0].rawValue)],
                            EncodeDirectives(directives[1..]), next);
      AtTwo(items, pos, TagItem(NodeType.Directive), StringItem(directives[0].rawValue), middle);
      assert DirectiveAt(items, pos) == Ok(Decoded(directives[0], middle));
      DirectivesRoundTrip(items, middle, directives[1..], next);
    }
  }

  /** The layout of a scope: its tag, the count, the names from `pos + 2` to `p`, and the flag at `p`. */
  lemma ScopeLayout(items: seq<Item>, pos: nat, tag: NodeType, names: seq<AssertedDeclaredName>, hasDirectEval: bool,
                    next: nat) returns (p: nat)
    requires At(items, pos, [TagItem(tag), NumItem(|names|)] + EncodeDeclaredNames(names) + [BoolItem(hasDirectEval)], next)
    ensures pos + 1 < |items| && items[pos] == TagItem(tag) && items[pos + 1] == NumItem(|names|)
    ensures At(items, pos + 2, EncodeDeclaredNames(names), p)
    ensures p < |items| && items[p] == BoolItem(hasDirectEval) && next == p + 1
  {
    var head := [TagItem(tag), NumItem(|names|)];
    var last := AtSplit(items, pos, head + EncodeDeclaredNames(names), [BoolItem(hasDirectEval)], next);
    var middle := AtSplit(items, pos, head, EncodeDeclaredNames(names), last);
    AtTwo(items, pos, TagItem(tag), NumItem(|names|), middle);
    AtOne(items, last, BoolItem(hasDirectEval), next);
    p := last;
  }

  /** A count and the declared names decode back to the names. */
  lemma DeclaredNameListParts(items: seq<Item>, pos: nat, names: seq<AssertedDeclaredName>, next: nat)
    requires pos < |items| && items[pos] == NumItem(|names|) && Chain(DeclaredNameDecoder(items), pos + 1, names, next)
    ensures DeclaredNameListAt(items, pos) == Ok(Decoded(names, next))
  {
    ListIsChain(items, pos, DeclaredNameDecoder(items), names, next);
  }

  lemma BlockScopeRoundTrip(items: seq<Item>, pos: nat, scope: AssertedBlockScope, next: nat)
    requires VarOnly(scope.declaredNames) && At(items, pos, EncodeBlockScope(scope), next)
    ensures BlockScopeAt(items, pos) == Ok(Decoded(scope, next))
  {
    var p := ScopeLayout(items, pos, NodeType.AssertedBlockScope, scope.declaredNames, scope.hasDirectEval, next);
    DeclaredNamesRoundTrip(items, pos + 2, scope.declaredNames, p);
    DeclaredNameListParts(items, pos + 1, scope.declaredNames, p);
  }

  lemma ScriptGlobalScopeRoundTrip(items: seq<Item>, pos: nat, scope: AssertedScriptGlobalScope, next: nat)
    requires VarOnly(scope.declaredNames) && At(items, pos, EncodeScriptGlobalScope(scope), next)
    ensures ScriptGlobalScopeAt(items, pos) == Ok(Decoded(scope, next))
  {
    var p := ScopeLayout(items, pos, NodeType.AssertedScriptGlobalScope, scope.declaredNames, scope.hasDirectEval, next);
    DeclaredNamesRoundTrip(items, pos + 2, scope.declaredNames, p);
    DeclaredNameListParts(items, pos + 1, scope.declaredNames, p);
  }

  /** A count and the directives decode back to the directives. */
  lemma DirectiveListRoundTrip(items: seq<Item>, pos: nat, directives: seq<Directive>, next: nat)
    requires pos < |items| && items[pos] == NumItem(|directives|) && At(items, pos + 1, EncodeDirectives(directives), next)
    ensures DirectiveListAt(items, pos) == Ok(Decoded(directives, next))
  {
    DirectivesRoundTrip(items, pos + 1, directives, next);
    ListIsChain(items, pos, DirectiveDecoder(items), directives, next);
  }

  // ---------------------------------------------------------------------------
  // Declarations and the clauses of `for`

  /** A declaration without declarators decodes back from its three items. */
  lemma VariableDeclarationRoundTrip(items: seq<Item>, pos: nat, kind: VariableDeclarationKind, next: nat)
    requires At(items, pos, EncodeVariableDeclaration(kind), next)
    ensures VariableDeclarationAt(items, pos) == Ok(Decoded(VariableDeclaration.VariableDeclaration(kind, []), next))
  {
    var e := EncodeVariableDeclaration(kind);
    AtItems(items, pos, e, next);
    assert items[pos] == e[0] && items[pos + 1] == e[1] && items[pos + 2] == e[2];
    var r := VariableDeclarationAt(items, pos);
    assert r.Ok?;
    assert DeclarationKindVariant(r.value.node.kind) == DeclarationKindVariant(kind);
  }

  /** An absent init clause, or a declaration without declarators, decodes back. */
  lemma ForInitRoundTrip(items: seq<Item>, pos: nat, init: Option<ForInit>, next: nat)
    requires DecodableForInit(init) && At(items, pos, EncodeForInit(init), next)
    ensures Optional(items, pos, ForInitDecoder(items)) == Ok(Decoded(init, next))
  {
    if init.Some? {
      VariableDeclarationRoundTrip(items, pos, init.value.declaration.kind, next);
      AtItems(items, pos, EncodeForInit(init), next);
      assert items[pos] == EncodeForInit(init)[0];
    } else {
      AtOne(items, pos, TagItem(NodeType.Null), next);
    }
  }

  // ---------------------------------------------------------------------------
  // Statements and blocks

  /** A decodable statement decodes back from its encoding and stops just after it. */
  lemma {:induction false} StatementRoundTrip(items: seq<Item>, pos: nat, s: Statement, next: nat)
    requires Decodable(s) && At(items, pos, EncodeStatement(s), next)
    ensures StatementAt(items, pos) == Ok(Decoded(s, next))
    decreases s, 1
  {
    match s
    case BlockStatement(block) => BlockStatementRoundTrip(items, pos, block, next);
    case Iteration(loop) => ForRoundTrip(items, pos, loop.init, loop.body, next);
    case LabelledStatement(name, body) => LabelledRoundTrip(items, pos, name, body, next);
    case TryFinallyStatement(block, _, finalizer) => TryFinallyRoundTrip(items, pos, block, finalizer, next);
    case _ => LeafRoundTrip(items, pos, s, next);
  }

  /** The statements that contain no statement decode back from their one, two or three items. */
  lemma LeafRoundTrip(items: seq<Item>, pos: nat, s: Statement, next: nat)
    requires Decodable(s) && At(items, pos, EncodeStatement(s), next)
    requires s.BreakStatement? || s.ContinueStatement? || s.DebuggerStatement? || s.EmptyStatement?
             || s.ReturnStatement? || s.VariableDeclarationStatement?
    ensures StatementAt(items, pos) == Ok(Decoded(s, next))
  {
    var e := EncodeStatement(s);
    AtItems(items, pos, e, next);
    assert items[pos] == e[0];
    match s
    case BreakStatement(_) =>
      assert items[pos + 1] == e[1];
    case ContinueStatement(_) =>
      assert items[pos + 1] == e[1];
    case DebuggerStatement =>
    case EmptyStatement =>
    case ReturnStatement(_) =>
      assert items[pos + 1] == e[1];
    case VariableDeclarationStatement(declaration) =>
      VariableDeclarationRoundTrip(items, pos, declaration.kind, next);
  }

  lemma {:induction false} BlockStatementRoundTrip(items: seq<Item>, pos: nat, block: Block, next: nat)
    requires DecodableBlock(block) && At(items, pos, EncodeBlock(block), next)
    ensures StatementAt(items, pos) == Ok(Decoded(BlockStatement(block), next))
    decreases BlockStatement(block), 0
  {
    BlockRoundTrip(items, pos, block, next);
    assert items[pos] == EncodeBlock(block)[0];
    assert StatementAt(items, pos) == NestingStatementAt(items, pos);
  }

  lemma {:induction false} ForRoundTrip(items: seq<Item>, pos: nat, init: Option<ForInit>, body: Statement, next: nat)
    requires DecodableForInit(init) && Decodable(body)
    requires At(items, pos, [TagItem(NodeType.ForStatement)] + EncodeForInit(init) + [TagItem(NodeType.Null), TagItem(NodeType.Null)]
                            + EncodeStatement(body), next)
    ensures StatementAt(items, pos) == Ok(Decoded(Iteration(IterationStatement.ForStatement(init, None, None, body)), next))
    decreases Iteration(IterationStatement.ForStatement(init, None, None, body)), 0
  {
    var p := ForLayout(items, pos, EncodeForInit(init), EncodeStatement(body), next);
    ForInitRoundTrip(items, pos + 1, init, p);
    StatementRoundTrip(items, p + 2, body, next);
    ForParts(items, pos, init, body, p, next);
    ForDispatch(items, pos);
  }

  lemma ForLayout(items: seq<Item>, pos: nat, init: seq<Item>, body: seq<Item>, next: nat) returns (p: nat)
    requires At(items, pos, [TagItem(NodeType.ForStatement)] + init + [TagItem(NodeType.Null), TagItem(NodeType.Null)] + body, next)
    ensures pos < |items| && items[pos] == TagItem(NodeType.ForStatement) && At(items, pos + 1, init, p)
    ensures p + 1 < |items| && items[p] == TagItem(NodeType.Null) && items[p + 1] == TagItem(NodeType.Null)
    ensures At(items, p + 2, body, next)
  {
    var tag := [TagItem(NodeType.ForStatement)];
    var absent := [TagItem(NodeType.Null), TagItem(NodeType.Null)];
    var third := AtSplit(items, pos, tag + init + absent, body, next);
    var second := AtSplit(items, pos, tag + init, absent, third);
    var first := AtSplit(items, pos, tag, init, second);
    AtOne(items, pos, TagItem(NodeType.ForStatement), first);
    AtTwo(items, second, TagItem(NodeType.Null), TagItem(NodeType.Null), third);
    p := second;
  }

  lemma ForParts(items: seq<Item>, pos: nat, init: Option<ForInit>, body: Statement, p: nat, next: nat)
    requires pos < |items| && items[pos] == TagItem(NodeType.ForStatement)
    requires Optional(items, pos + 1, ForInitDecoder(items)) == Ok(Decoded(init, p))
    requires p + 1 < |items| && items[p] == TagItem(NodeType.Null) && items[p + 1] == TagItem(NodeType.Null)
    requires StatementAt(items, p + 2) == Ok(Decoded(body, next))
    ensures ForStatementAt(items, pos) == Ok(Decoded(Iteration(IterationStatement.ForStatement(init, None, None, body)), next))
  {
  }

  lemma {:induction false} LabelledRoundTrip(items: seq<Item>, pos: nat, name: string, body: Statement, next: nat)
    requires Decodable(body)
    requires At(items, pos, [TagItem(NodeType.LabelledStatement), StringItem(name)] + EncodeStatement(body), next)
    ensures StatementAt(items, pos) == Ok(Decoded(Statement.LabelledStatement(name, body), next))
    decreases Statement.LabelledStatement(name, body), 0
  {
    var middle := AtSplit(items, pos, [TagItem(NodeType.LabelledStatement), StringItem(name)], EncodeStatement(body), next);
    AtTwo(items, pos, TagItem(NodeType.LabelledStatement), StringItem(name), middle);
    StatementRoundTrip(items, pos + 2, body, next);
    LabelledParts(items, pos, name, body, next);
    LabelledDispatch(items, pos);
  }

  lemma LabelledParts(items: seq<Item>, pos: nat, name: string, body: Statement, next: nat)
    requires pos + 1 < |items| && items[pos] == TagItem(NodeType.LabelledStatement) && items[pos + 1] == StringItem(name)
    requires StatementAt(items, pos + 2) == Ok(Decoded(body, next))
    ensures LabelledStatementAt(items, pos) == Ok(Decoded(Statement.LabelledStatement(name, body), next))
  {
  }

  lemma {:induction false} TryFinallyRoundTrip(items: seq<Item>, pos: nat, block: Block, finalizer: Block, next: nat)
    requires DecodableBlock(block) && DecodableBlock(finalizer)
    requires At(items, pos, [TagItem(NodeType.TryFinallyStatement)] + EncodeBlock(block) + [TagItem(NodeType.Null)]
                            + EncodeBlock(finalizer), next)
    ensures StatementAt(items, pos) == Ok(Decoded(Statement.TryFinallyStatement(block, None, finalizer), next))
    decreases Statement.TryFinallyStatement(block, None, finalizer), 0
  {
    var p := TryFinallyLayout(items, pos, EncodeBlock(block), EncodeBlock(finalizer), next);
    BlockRoundTrip(items, pos + 1, block, p);
    BlockRoundTrip(items, p + 1, finalizer, next);
    CatchAbsent(items, p);
    TryFinallyParts(items, pos, block, finalizer, p, next);
    TryFinallyDispatch(items, pos);
  }

  lemma TryFinallyLayout(items: seq<Item>, pos: nat, block: seq<Item>, finalizer: seq<Item>, next: nat) returns (p: nat)
    requires At(items, pos, [TagItem(NodeType.TryFinallyStatement)] + block + [TagItem(NodeType.Null)] + finalizer, next)
    ensures pos < |items| && items[pos] == TagItem(NodeType.TryFinallyStatement) && At(items, pos + 1, block, p)
    ensures p < |items| && items[p] == TagItem(NodeType.Null) && At(items, p + 1, finalizer, next)
  {
    var tag := [TagItem(NodeType.TryFinallyStatement)];
    var absent := [TagItem(NodeType.Null)];
    var third := AtSplit(items, pos, tag + block + absent, finalizer, next);
    var second := AtSplit(items, pos, tag + block, absent, third);
    var first := AtSplit(items, pos, tag, block, second);
    AtOne(items, pos, TagItem(NodeType.TryFinallyStatement), first);
    AtOne(items, second, TagItem(NodeType.Null), third);
    p := second;
  }

  lemma TryFinallyParts(items: seq<Item>, pos: nat, block: Block, finalizer: Block, p: nat, next: nat)
    requires pos < |items| && items[pos] == TagItem(NodeType.TryFinallyStatement)
    requires BlockAt(items, pos + 1) == Ok(Decoded(block, p))
    requires Optional(items, p, CatchClauseDecoder(items)) == Ok(Decoded(None, p + 1))
    requires BlockAt(items, p + 1) == Ok(Decoded(finalizer, next))
    ensures TryFinallyStatementAt(items, pos) == Ok(Decoded(Statement.TryFinallyStatement(block, None, finalizer), next))
  {
  }

  /** The `Null` tag stands for an absent catch clause. */
  lemma CatchAbsent(items: seq<Item>, pos: nat)
    requires pos < |items| && items[pos] == TagItem(NodeType.Null)
    ensures Optional(items, pos, CatchClauseDecoder(items)) == Ok(Decoded(None, pos + 1))
  {
  }

  /** The tag of a `for` statement selects its production. */
  lemma ForDispatch(items: seq<Item>, pos: nat)
    requires StartsWith(items, pos, NodeType.ForStatement)
    ensures StatementAt(items, pos) == ForStatementAt(items, pos)
  {
    assert StatementAt(items, pos) == NestingStatementAt(items, pos);
  }

  /** The tag of a labelled statement selects its production. */
  lemma LabelledDispatch(items: seq<Item>, pos: nat)
    requires StartsWith(items, pos, NodeType.LabelledStatement)
    ensures StatementAt(items, pos) == LabelledStatementAt(items, pos)
  {
    assert StatementAt(items, pos) == NestingStatementAt(items, pos);
  }

  /** The tag of a `try`/`finally` statement selects its production. */
  lemma TryFinallyDispatch(items: seq<Item>, pos: nat)
    requires StartsWith(items, pos, NodeType.TryFinallyStatement)
    ensures StatementAt(items, pos) == TryFinallyStatementAt(items, pos)
  {
    assert StatementAt(items, pos) == NestingStatementAt(items, pos);
  }

  /** A decodable block decodes back from its encoding and stops just after it. */
  lemma {:induction false} BlockRoundTrip(items: seq<Item>, pos: nat, block: Block, next: nat)
    requires DecodableBlock(block) && At(items, pos, EncodeBlock(block), next)
    ensures BlockAt(items, pos) == Ok(Decoded(block, next))
    decreases block
  {
    var p := BlockLayout(items, pos, EncodeBlockScope(block.scope), |block.statements|, EncodeStatements(block.statements), next);
    BlockScopeRoundTrip(items, pos + 1, block.scope, p);
    StatementListRoundTrip(items, p, block.statements, next);
    BlockParts(items, pos, block.scope, block.statements, p, next);
  }

  lemma BlockLayout(items: seq<Item>, pos: nat, scope: seq<Item>, count: nat, statements: seq<Item>, next: nat) returns (p: nat)
    requires At(items, pos, [TagItem(NodeType.Block)] + scope + [NumItem(count)] + statements, next)
    ensures pos < |items| && items[pos] == TagItem(NodeType.Block) && At(items, pos + 1, scope, p)
    ensures p < |items| && items[p] == NumItem(count) && At(items, p + 1, statements, next)
  {
    var tag := [TagItem(NodeType.Block)];
    var third := AtSplit(items, pos, tag + scope + [NumItem(count)], statements, next);
    var second := AtSplit(items, pos, tag + scope, [NumItem(count)], third);
    var first := AtSplit(items, pos, tag, scope, second);
    AtOne(items, pos, TagItem(NodeType.Block), first);
    AtOne(items, second, NumItem(count), third);
    p := second;
  }

  lemma BlockParts(items: seq<Item>, pos: nat, scope: AssertedBlockScope, statements: seq<Statement>, p: nat, next: nat)
    requires pos < |items| && items[pos] == TagItem(NodeType.Block)
    requires BlockScopeAt(items, pos + 1) == Ok(Decoded(scope, p))
    requires StatementListAt(items, p) == Ok(Decoded(statements, next))
    ensures BlockAt(items, pos) == Ok(Decoded(Block.Block(scope, statements), next))
  {
  }

  /** A count followed by the encodings of that many decodable statements decodes back to them. */
  lemma StatementListRoundTrip(items: seq<Item>, pos: nat, statements: seq<Statement>, next: nat)
    requires forall i :: 0 <= i < |statements| ==> Decodable(statements[i])
    requires pos < |items| && items[pos] == NumItem(|statements|) && At(items, pos + 1, EncodeStatements(statements), next)
    ensures StatementListAt(items, pos) == Ok(Decoded(statements, next))
    decreases statements, 1
  {
    StatementsRoundTrip(items, pos + 1, statements, next);
    StatementListParts(items, pos, statements, next);
  }

  /** A count and that many statements decode back to the statements. */
  lemma StatementListParts(items: seq<Item>, pos: nat, statements: seq<Statement>, next: nat)
    requires pos < |items| && items[pos] == NumItem(|statements|)
    requires StatementLoopAt(items, pos + 1, |statements|) == Ok(Decoded(statements, next))
    ensures StatementListAt(items, pos) == Ok(Decoded(statements, next))
  {
  }

  /** Decodable statements one after the other decode back, in order. */
  lemma {:induction false} StatementsRoundTrip(items: seq<Item>, pos: nat, statements: seq<Statement>, next: nat)
    requires forall i :: 0 <= i < |statements| ==> Decodable(statements[i])
    requires At(items, pos, EncodeStatements(statements), next)
    ensures StatementLoopAt(items, pos, |statements|) == Ok(Decoded(statements, next))
    decreases statements, 0
  {
    if statements == [] {
      AtItems(items, pos, [], next);
    } else {
      var rest := statements[1..];
      var middle := AtSplit(items, pos, EncodeStatement(statements[0]), EncodeStatements(rest), next);
      StatementRoundTrip(items, pos, statements[0], middle);
      assert forall i :: 0 <= i < |rest| ==> rest[i] == statements[i + 1];
      StatementsRoundTrip(items, middle, rest, next);
      StatementsParts(items, pos, statements, middle, next);
    }
  }

  lemma StatementsParts(items: seq<Item>, pos: nat, statements: seq<Statement>, middle: nat, next: nat)
    requires statements != []
    requires StatementAt(items, pos) == Ok(Decoded(statements[0], middle))
    requires StatementLoopAt(items, middle, |statements| - 1) == Ok(Decoded(statements[1..], next))
    ensures StatementLoopAt(items, pos, |statements|) == Ok(Decoded(statements, next))
  {
    assert statements == [statements[0]] + statements[1..];
  }

  // ---------------------------------------------------------------------------
  // Scripts and whole files

  /** A decodable script decodes back from its encoding after the header. */
  lemma ScriptRoundTrip(items: seq<Item>, pos: nat, script: Script, next: nat)
    requires DecodableScript(script)
    requires At(items, pos, [TagItem(NodeType.Script)] + EncodeScriptGlobalScope(script.scope)
                            + [NumItem(|script.directives|)] + EncodeDirectives(script.directives)
                            + [NumItem(|script.statements|)] + EncodeStatements(script.statements), next)
    ensures ScriptAt(items, pos) == Ok(Decoded(script, next))
  {
    var p, q := ScriptLayout(items, pos, EncodeScriptGlobalScope(script.scope), |script.directives|,
                             EncodeDirectives(script.directives), |script.statements|, EncodeStatements(script.statements), next);
    ScriptPieces(items, pos, script, p, q, next);
  }

  /** The pieces of a script encoding, found by ScriptLayout, decode back one by one. */
  lemma ScriptPieces(items: seq<Item>, pos: nat, script: Script, p: nat, q: nat, next: nat)
    requires DecodableScript(script)
    requires pos < |items| && items[pos] == TagItem(NodeType.Script)
    requires At(items, pos + 1, EncodeScriptGlobalScope(script.scope), p)
    requires p < |items| && items[p] == NumItem(|script.directives|) && At(items, p + 1, EncodeDirectives(script.directives), q)
    requires q < |items| && items[q] == NumItem(|script.statements|) && At(items, q + 1, EncodeStatements(script.statements), next)
    ensures ScriptAt(items, pos) == Ok(Decoded(script, next))
  {
    ScriptGlobalScopeRoundTrip(items, pos + 1, script.scope, p);
    DirectiveListRoundTrip(items, p, script.directives, q);
    StatementListRoundTrip(items, q, script.statements, next);
    ScriptParts(items, pos, script.scope, script.directives, script.statements, p, q, next);
  }

  lemma ScriptLayout(items: seq<Item>, pos: nat, scope: seq<Item>, directiveCount: nat, directives: seq<Item>,
                     statementCount: nat, statements: seq<Item>, next: nat) returns (p: nat, q: nat)
    requires At(items, pos, [TagItem(NodeType.Script)] + scope + [NumItem(directiveCount)] + directives
                            + [NumItem(statementCount)] + statements, next)
    ensures pos < |items| && items[pos] == TagItem(NodeType.Script) && At(items, pos + 1, scope, p)
    ensures p < |items| && items[p] == NumItem(directiveCount) && At(items, p + 1, directives, q)
    ensures q < |items| && items[q] == NumItem(statementCount) && At(items, q + 1, statements, next)
  {
    var tag := [TagItem(NodeType.Script)];
    var fifth := AtSplit(items, pos, tag + scope + [NumItem(directiveCount)] + directives + [NumItem(statementCount)],
                         statements, next);
    var fourth := AtSplit(items, pos, tag + scope + [NumItem(directiveCount)] + directives, [NumItem(statementCount)], fifth);
    var third := AtSplit(items, pos, tag + scope + [NumItem(directiveCount)], directives, fourth);
    var second := AtSplit(items, pos, tag + scope, [NumItem(directiveCount)], third);
    var first := AtSplit(items, pos, tag, scope, second);
    AtOne(items, pos, TagItem(NodeType.Script), first);
    AtOne(items, second, NumItem(directiveCount), third);
    AtOne(items, fourth, NumItem(statementCount), fifth);
    p, q := second, fourth;
  }

  lemma ScriptParts(items: seq<Item>, pos: nat, scope: AssertedScriptGlobalScope, directives: seq<Directive>,
                     statements: seq<Statement>, p: nat, q: nat, next: nat)
    requires pos < |items| && items[pos] == TagItem(NodeType.Script)
    requires ScriptGlobalScopeAt(items, pos + 1) == Ok(Decoded(scope, p))
    requires DirectiveListAt(items, p) == Ok(Decoded(directives, q))
    requires StatementListAt(items, q) == Ok(Decoded(statements, next))
    ensures ScriptAt(items, pos) == Ok(Decoded(Script.Script(scope, directives, statements), next))
  {
  }

  /** Every sequence occurs in itself, from its start to its end. */
  lemma {:induction false} AtSuffix(items: seq<Item>, pos: nat)
    requires pos <= |items|
    ensures At(items, pos, items[pos..], |items|)
    decreases |items| - pos
  {
    if pos < |items| {
      AtSuffix(items, pos + 1);
      assert items[pos..][1..] == items[pos + 1..];
    }
  }

  /**
   * The decoder inverts the encoder: the encoding of a decodable script, read
   * from its start, is that script, and the whole encoding is consumed.
   */
  lemma ParseRoundTrip(script: Script)
    requires DecodableScript(script)
    ensures ParseAt(EncodeScript(script), 0) == Ok(Decoded(ScriptProgram(script), |EncodeScript(script)|))
  {
    var e := EncodeScript(script);
    var rest := [TagItem(NodeType.Script)] + EncodeScriptGlobalScope(script.scope)
                + [NumItem(|script.directives|)] + EncodeDirectives(script.directives)
                + [NumItem(|script.statements|)] + EncodeStatements(script.statements);
    assert e == [HeaderItem] + rest;
    AtSuffix(e, 0);
    assert e[0..] == e;
    var middle := AtSplit(e, 0, [HeaderItem], rest, |e|);
    AtOne(e, 0, HeaderItem, middle);
    ScriptRoundTrip(e, 1, script, |e|);
  }
}
