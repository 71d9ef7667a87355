/**
 * Which trees the grammar of src/io/parser.ts can produce at all: every
 * decoded statement, block and script is decodable in the sense of module
 * Encoding, and every decodable one is decoded from some items. Together the
 * two directions say that the predicates of module Encoding describe the
 * image of the parser exactly.
 */
module Decodability {
  import opened Results
  import opened Kinds
  import opened NodeTypes
  import opened Ast
  import opened Wire
  import opened Grammar
  import opened GrammarProperties
  import opened Encoding
  import opened RoundTrip

  // ---------------------------------------------------------------------------
  // Everything decoded is decodable

  /** A decoded statement is decodable. */
  lemma {:induction false} StatementDecodable(items: seq<Item>, pos: nat)
    ensures StatementAt(items, pos).Ok? ==> Decodable(StatementAt(items, pos).value.node)
    decreases Remaining(items, pos), 2
  {
    var kind := Peek(items, pos);
    if kind.Ok? {
      if kind.value == NodeType.Block || kind.value == NodeType.ForStatement || kind.value == NodeType.LabelledStatement
         || kind.value == NodeType.TryCatchStatement || kind.value == NodeType.TryFinallyStatement {
        NestingDecodable(items, pos);
      } else {
        LeafDecodable(items, pos);
      }
    }
  }

  /** A decoded statement of a kind that contains no statement is decodable. */
  lemma LeafDecodable(items: seq<Item>, pos: nat)
    ensures SimpleStatementAt(items, pos).Ok? ==> Decodable(SimpleStatementAt(items, pos).value.node)
    ensures OtherStatementAt(items, pos).Ok? ==> Decodable(OtherStatementAt(items, pos).value.node)
  {
  }

  lemma {:induction false} NestingDecodable(items: seq<Item>, pos: nat)
    ensures NestingStatementAt(items, pos).Ok? ==> Decodable(NestingStatementAt(items, pos).value.node)
    decreases Remaining(items, pos), 1
  {
    BlockDecodable(items, pos);
    ForDecodable(items, pos);
    LabelledDecodable(items, pos);
    TryFinallyDecodable(items, pos);
  }

  lemma {:induction false} ForDecodable(items: seq<Item>, pos: nat)
    ensures ForStatementAt(items, pos).Ok? ==> Decodable(ForStatementAt(items, pos).value.node)
    decreases Remaining(items, pos), 0
  {
    var tag := ExpectKind(items, pos, NodeType.ForStatement);
    if tag.Ok? {
      var init := Optional(items, tag.value.next, ForInitDecoder(items));
      if init.Ok? {
        var test := Optional(items, init.value.next, ExpressionDecoder(items));
        if test.Ok? {
          var update := Optional(items, test.value.next, ExpressionDecoder(items));
          if update.Ok? {
            StatementDecodable(items, update.value.next);
          }
        }
      }
    }
  }

  lemma {:induction false} LabelledDecodable(items: seq<Item>, pos: nat)
    ensures LabelledStatementAt(items, pos).Ok? ==> Decodable(LabelledStatementAt(items, pos).value.node)
    decreases Remaining(items, pos), 0
  {
    if pos + 1 < |items| {
      StatementDecodable(items, pos + 2);
    }
  }

  lemma {:induction false} TryFinallyDecodable(items: seq<Item>, pos: nat)
    ensures TryFinallyStatementAt(items, pos).Ok? ==> Decodable(TryFinallyStatementAt(items, pos).value.node)
    decreases Remaining(items, pos), 0
  {
    var block := BlockAt(items, pos + 1);
    if StartsWith(items, pos, NodeType.TryFinallyStatement) && block.Ok? {
      BlockDecodable(items, pos + 1);
      var handler := Optional(items, block.value.next, CatchClauseDecoder(items));
      if handler.Ok? {
        BlockDecodable(items, handler.value.next);
      }
    }
  }

  /** A decoded block is decodable. */
  lemma {:induction false} BlockDecodable(items: seq<Item>, pos: nat)
    ensures BlockAt(items, pos).Ok? ==> DecodableBlock(BlockAt(items, pos).value.node)
    decreases Remaining(items, pos), 0
  {
    var scope := BlockScopeAt(items, pos + 1);
    if StartsWith(items, pos, NodeType.Block) && scope.Ok? {
      ScopesDeclareVarOnly(items, pos + 1);
      StatementListDecodable(items, scope.value.next);
    }
  }

  lemma {:induction false} StatementListDecodable(items: seq<Item>, pos: nat)
    ensures StatementListAt(items, pos).Ok? ==>
              forall i :: 0 <= i < |StatementListAt(items, pos).value.node| ==> Decodable(StatementListAt(items, pos).value.node[i])
    decreases Remaining(items, pos), 0
  {
    var count := ReadVarnum(items, pos);
    if count.Ok? {
      StatementLoopDecodable(items, pos + 1, count.value.node);
    }
  }

  lemma {:induction false} StatementLoopDecodable(items: seq<Item>, pos: nat, count: nat)
    ensures StatementLoopAt(items, pos, count).Ok? ==>
              forall i :: 0 <= i < |StatementLoopAt(items, pos, count).value.node| ==> Decodable(StatementLoopAt(items, pos, count).value.node[i])
    decreases Remaining(items, pos), 3
  {
    var first := StatementAt(items, pos);
    if count != 0 && first.Ok? {
      StatementDecodable(items, pos);
      StatementLoopDecodable(items, first.value.next, count - 1);
    }
  }

  /** A decoded script is decodable. */
  lemma ScriptDecodable(items: seq<Item>, pos: nat)
    ensures ScriptAt(items, pos).Ok? ==> DecodableScript(ScriptAt(items, pos).value.node)
  {
    var scope := ScriptGlobalScopeAt(items, pos + 1);
    if StartsWith(items, pos, NodeType.Script) && scope.Ok? {
      ScopesDeclareVarOnly(items, pos + 1);
      var directives := DirectiveListAt(items, scope.value.next);
      if directives.Ok? {
        StatementListDecodable(items, directives.value.next);
      }
    }
  }

  // ---------------------------------------------------------------------------
  // The image of the parser

  /** The statements the grammar can decode are exactly the decodable ones. */
  lemma StatementImage(s: Statement)
    ensures Decodable(s) <==> exists items: seq<Item> :: StatementAt(items, 0).Ok? && StatementAt(items, 0).value.node == s
  {
    if Decodable(s) {
      var items := EncodeStatement(s);
      AtSuffix(items, 0);
      assert items[0..] == items;
      StatementRoundTrip(items, 0, s, |items|);
    }
    if items: seq<Item> :| StatementAt(items, 0).Ok? && StatementAt(items, 0).value.node == s {
      StatementDecodable(items, 0);
    }
  }

  /** The files the parser accepts hold exactly the decodable scripts, and never a module. */
  lemma ProgramImage(program: Program)
    ensures (program.ScriptProgram? && DecodableScript(program.script)) <==>
              exists items: seq<Item> :: ParseAt(items, 0).Ok? && ParseAt(items, 0).value.node == program
  {
    if program.ScriptProgram? && DecodableScript(program.script) {
      ParseRoundTrip(program.script);
    }
    if items: seq<Item> :| ParseAt(items, 0).Ok? && ParseAt(items, 0).value.node == program {
      ScriptDecodable(items, 1);
    }
  }
}
