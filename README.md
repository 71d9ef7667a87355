# A verified model of the BinAST statement parser

This project models the core of a decoder for the binary AST format of
JavaScript. The core is `class Parser` in `src/io/parser.ts`, together with the
node catalogue of `src/types.ts`. The parser descends recursively. It pulls
primitives from a reader one at a time: tagged-tuple tags, varnums, booleans,
atoms and identifier names, and variants. From them it builds an immutable
tree for a script. It deliberately supports only a fail-fast subset of the
language:
- every expression, binding and method position throws;
- `let` and `const` declared names are rejected;
- function declarations are not implemented.

## Layout

| file | module | contents |
|---|---|---|
| `results.dfy` | `Results` | `Option`, and `Result` with its failure propagation (`:-`); every thrown `Error` is the one failure `Err` |
| `kinds.dfy` | `Kinds` | `VariableDeclarationKind` and `AssertedDeclaredKind` with their string values, and the `Variant` values the parser maps to them |
| `node_types.dfy` | `NodeTypes` | `enum NodeType`, `NodeTypeToNameMap` (`TypeToName`), `NodeTypeNameToTypeMap` (`NameToType`), and their round trips |
| `ast.dfy` | `Ast` | the node interfaces as datatypes, with `Type()` giving a statement's kind |
| `wire.dfy` | `Wire` | the input as a sequence of primitive items, and the reader primitives as functions |
| `reader.dfy` | `Reading` | `class Reader`: the items and a cursor, with one method per primitive |
| `grammar.dfy` | `Grammar` | one function per production. Each function decodes from a position and returns the value and the position after it |
| `parser.dfy` | `Parsing` | `class Parser`: one method per production. Each method moves the reader's cursor and is proved equal to its grammar function |
| `grammar_properties.dfy` | `GrammarProperties` | `parseList` as a chain of item decodings, the `var`-only scopes, the statement dispatch, the fail-fast kinds |
| `encoding.dfy` | `Encoding` | which trees the subset can represent (`Decodable`), and a reference encoder for them |
| `round_trip.dfy` | `RoundTrip` | decoding inverts the encoder, from declared names up to whole files |
| `reencoding.dfy` | `Reencoding` | the converse: whatever is decoded fills exactly the items of its own encoding |
| `decodability.dfy` | `Decodability` | everything decoded is decodable; with the round trip, the decodable trees are exactly the parser's image |
| `scenarios.dfy` | `Scenarios` | concrete inputs that must decode or must be rejected |

The parser is modelled in two layers.
- **Pure layer.** Every production is a function `XAt(items, pos)` in module
  `Grammar`. It returns `Ok(Decoded(node, next))` or `Err`. The properties of
  the grammar are proved about these functions.
- **Imperative layer.** Class `Parsing.Parser` holds a `Reading.Reader`, and
  the reader's cursor is the only state. Every method of the class, such as
  `ParseStatement`, is proved to return what its function decodes from the
  cursor it started at and, on success, to leave the cursor just after it:
  `Outcome(r, reader.pos) == XAt(reader.items, old(reader.pos))`. On failure
  the contract says nothing about where the cursor stops.
  - `lookAhead` saves the cursor and restores it (`Reader.Rewind`).
  - The counted `for` loop of `parseList` is a `while` loop that appends to
    `result`. Its invariant ties what is already read to the specification
    of the rest.

**Exact image.** `RoundTrip.ParseRoundTrip` proves that the encoder is
inverted by `parse` for every decodable script. `Reencoding.ParseFills` proves
the other side: the items a successful `parse` consumed are exactly the
encoding of the script it returns, so the two are inverse on both sides. `Decodability.ProgramImage`
proves the converse: `parse` accepts some input for a program exactly when it
is a decodable script. Decodable means:
- no expression, binding or method definition;
- no catch clause;
- declarations without declarators;
- scopes that declare only `var` names.

## Modelling decisions

- **`NodeType` as a newtype.** `enum NodeType` is a numeric TypeScript
  enumeration, whose i-th member has the value i. It is modelled as the
  integer newtype `NodeType` with one named constant per member, not as a
  datatype. The parser also reads five tags the enumeration does not declare:
  `Null`, `AssertedScriptGlobalScope`, `AssertedBlockScope`,
  `AssertedBoundNamesScope` and `AssertedBoundName`. They take the values -1
  to -5, and `Declared(t)` (`0 <= t`) separates them from the members. An
  integer enumeration keeps every decoding obligation small; a datatype with
  118 constructors does not.
- **Typed items.** The reader is a cursor over already-decoded items
  (`Wire.Item`). `parseOptional` peeks a tag even where an atom may follow, as
  for the label of `break`/`continue`. The model lets that peek fail on a
  non-tag item, and then runs the delegate from the same position. A string
  item therefore reads as a present label, and a `Null` tag as an absent one.
  Read literally against typed items, `peekTaggedTuple` would throw there
  instead. `GrammarProperties.StrictOptional` models that reading, and
  `GrammarProperties.StrictLabels` shows that under it no `break` or
  `continue` ever has a label. The other three optionals (the `for` init
  clause, the `return` argument and the catch clause) fail the same way under
  both readings (`GrammarProperties.TagDelegatesAgree`).
- **Callbacks.** `parseList` and `parseOptional` take callbacks. In the
  grammar they are higher-order functions (`Grammar.List`, `Grammar.Optional`)
  over a decoder `nat -> Result<Decoded<T>>`. A method cannot be passed as a
  value, so in the class each list carries its own counted loop. Each optional
  first runs `ParseAbsent`, the `Null` test of `parseOptional`, and then the
  callback's body.
- **No dead code.** After a call that always throws, a production ends with
  that failure; the statements after it in the source are unreachable.
  `parseClassElementList`, `parseVariableDeclaratorList` and
  `parseSwitchCaseList` therefore stop at their first element.
- **Twenty-four kinds.** The dispatch of `parseStatement` has 24 tags. Those
  are the 17 non-loop alternatives of the `Statement` union
  (src/types.ts:502), the two function declarations and the five iteration
  statements. The code is followed here.
- **Optional fields.** The optional fields of the node interfaces are `Option`
  fields of the datatypes:
  - the labels of `break` and `continue`;
  - `IfStatement.alternate`;
  - the `ReturnStatement` expression (`argument` here);
  - the `TryFinallyStatement` catch clause (`handler` here);
  - `VariableDeclarator.init`;
  - the three clauses of `ForStatement`.
  `ClassDeclaration.super` is also optional in src/types.ts, so it is an
  `Option` as well.
- **`Variant`.** The enumeration the parser matches variants against is
  imported from a file that is not part of this model. `Kinds.Variant` has the
  five members the parser uses.
- **Names.** Some field names change because Dafny needs one type per field
  name across the constructors of a datatype, or because the name is a
  keyword. `ForStatement.test` is `condition`, the statement labels are
  `labelName` and `labelText`, and `ClassElement.method` is
  `methodDefinition`. The field `bod` of `ForInStatement` and `ForOfStatement`
  (src/types.ts:1066, 1073) is `body`, like the bodies of the other loops.
- **Dispatch split.** The switch of `parseStatement` is one method in the
  class (`ParseStatement`). In the grammar it is split into three group
  functions (`NestingStatementAt`, `SimpleStatementAt`, `OtherStatementAt`),
  which keeps proofs about the dispatch small.

## Model

| member | source | states |
|---|---|---|
| Kinds.VariableDeclarationKindOf | src/types.ts:12-16 | a member is returned only for its own string value |
| Kinds.VariableDeclarationKindValues | src/types.ts:12-16 | the three values "var", "let", "const" are pairwise distinct: a value maps back to a member exactly when it is that member's value |
| Kinds.AssertedDeclaredKindOf | src/types.ts:76-80 | a member is returned only for its own string value |
| Kinds.AssertedDeclaredKindValues | src/types.ts:76-80 | the three values "var", "non-const lexical", "const lexical" are pairwise distinct: a value maps back to a member exactly when it is that member's value |
| NodeTypes.NamedIffDeclared | src/types.ts:142-372 | a kind has an entry in `NodeTypeToNameMap` exactly when the enumeration declares it; the five parser-only tags have none |
| NodeTypes.NameRoundTrip | src/types.ts:258-488 | for every declared kind, looking its name up in `NodeTypeNameToTypeMap` gives the kind back |
| NodeTypes.TypeRoundTrip | src/types.ts:258-488 | every key of `NodeTypeNameToTypeMap` maps to a declared kind whose entry in `NodeTypeToNameMap` is that key |
| NodeTypes.TypeToNameInjective | src/types.ts:258-372 | no two kinds share a name |
| GrammarProperties.TypeIsStatementKind | src/types.ts:500-502 | the kind of every statement shape is one of the 24 tags `parseStatement` dispatches on |
| GrammarProperties.StatementKindsAreTypes | src/types.ts:500-502 | a tag is a dispatch tag exactly when some statement shape has that kind: the `Statement` union and the dispatch agree |
| Reading.Reader.constructor | src/io/parser.ts:9-16 | a reader over the given items, with the cursor at the start |
| Reading.Reader.ReadHeader | src/io/parser.ts:18-20 | succeeds exactly on a header item; on success the cursor moves by one, on failure it stays |
| Reading.Reader.EnterTaggedTuple | src/io/parser.ts:42-44 | succeeds exactly on a tag item and returns its kind; on success the cursor moves by one, on failure it stays |
| Reading.Reader.ReadVarnum | src/io/parser.ts:22-24 | succeeds exactly on a count item and returns it; on success the cursor moves by one |
| Reading.Reader.ReadBoolean | src/io/parser.ts:26-28 | succeeds exactly on a boolean item and returns it; on success the cursor moves by one |
| Reading.Reader.ReadString | src/io/parser.ts:30-40 | `readIdentifierName` and `readAtom`: succeeds exactly on a string item and returns it; on success the cursor moves by one |
| Reading.Reader.ReadVariant | src/io/parser.ts:34-36 | succeeds exactly on a variant item and returns it; on success the cursor moves by one |
| Reading.Reader.Rewind | src/io/parser.ts:46-48 | the restore half of `lookAhead`: the cursor is set back to the saved position and nothing else changes |
| Grammar.Peek | src/io/parser.ts:72-74 | succeeds exactly when a tag is at the cursor, and returns the tag `enterTaggedTuple` would read |
| Grammar.ExpectKind | src/io/parser.ts:76-82 | `parseKind`: succeeds exactly when the tag at the cursor is `expectedKind`, returns `expectedKind` and consumes exactly that one item |
| Grammar.List | src/io/parser.ts:55-62 | a successful list has as many elements as the count it read; when every item advances the cursor, so does the list |
| Grammar.Loop | src/io/parser.ts:55-62 | the counted loop of `parseList`: a success has exactly `count` elements and does not move backwards |
| Grammar.Optional | src/io/parser.ts:64-70 | on a `Null` tag: absent, and exactly that one item consumed; on any other tag, exactly the delegate's outcome (success, value and end position), with nothing consumed before it; on an item that is not a tag, also the delegate's outcome, where the peek of src/io/parser.ts:72-74 would throw (see Left out) |
| GrammarProperties.LoopIsChain | src/io/parser.ts:55-62 | the loop succeeds with `nodes` exactly when there are `count` of them and the item parser decodes them one after the other, in reading order |
| GrammarProperties.ListIsChain | src/io/parser.ts:55-62 | `parseList` succeeds with `nodes` exactly when it reads the count `|nodes|` and then the item parser decodes the nodes in reading order |
| GrammarProperties.EmptyList | src/io/parser.ts:55-62 | a count of 0 consumes only the count and yields no elements, and an empty result can only come from a count of 0 |
| GrammarProperties.ListOfFailingItems | src/io/parser.ts:55-62 | with an item parser that always throws, a list decodes exactly when its count is 0 |
| GrammarProperties.ChainAll | src/io/parser.ts:55-62 | every element a list decodes has each property that every successful call of its item parser guarantees |
| Parsing.Parser.constructor | src/io/parser.ts:9-16 | a parser over a fresh reader of the items, at the start |
| Parsing.Parser.PeekTaggedTuple | src/io/parser.ts:72-74 | returns the tag `enterTaggedTuple` would return and leaves the cursor where it was |
| Parsing.Parser.ParseKind | src/io/parser.ts:76-82 | returns what `Grammar.ExpectKind` decodes at the starting cursor and leaves the cursor just after it |
| Parsing.Parser.ParseAbsent | src/io/parser.ts:64-70 | the test of `parseOptional`: true exactly on a `Null` tag; the cursor moves past that tag when true and stays when false; false also on an item that is not a tag, where the source's peek would throw (see Left out) |
| GrammarProperties.StrictOptional | src/io/parser.ts:64-74 | `parseOptional` with a peek that throws on a non-tag item: fails there, and agrees with `Grammar.Optional` wherever a tag is |
| GrammarProperties.OptionalReadingsDiffer | src/io/parser.ts:64-74 | the two readings of `parseOptional` differ exactly when no tag is at the cursor and the delegate succeeds there |
| GrammarProperties.TagDelegatesAgree | src/io/parser.ts:64-74 | for the `for` init clause (519), the `return` argument (583) and the catch clause (712) the two readings give the same outcome |
| GrammarProperties.StrictBreakStatementAt | src/io/parser.ts:297-305 | `parseBreakStatement` under the literal reading: whatever it decodes has no label |
| GrammarProperties.StrictContinueStatementAt | src/io/parser.ts:307-315 | `parseContinueStatement` under the literal reading: whatever it decodes has no label |
| GrammarProperties.StrictLabels | src/io/parser.ts:297-315 | a string label after the tag is rejected under the literal reading and decoded by the model; a tag after it reads the same under both |
| Grammar.ParseAt | src/io/parser.ts:50-53 | a success reads the header and then a `Script` root, consumes at least one item, and yields a script program |
| Grammar.ProgramAt | src/io/parser.ts:84-93 | succeeds exactly when `parseScript` does, only on a `Script` tag, and then yields a script program; `Module` and every other tag fail |
| Grammar.ScriptAt | src/io/parser.ts:95-108 | a success starts at a `Script` tag and consumes at least one item |
| Grammar.ScriptGlobalScopeAt | src/io/parser.ts:110-120 | a success starts at its tag and consumes at least one item |
| Grammar.DeclaredNameListAt | src/io/parser.ts:122-124 | a success consumes at least one item and stays within the input |
| Grammar.DeclaredNameAt | src/io/parser.ts:126-142 | succeeds exactly on a tag, a string, the `var` variant and a boolean, consuming exactly these four items: a `const` or `let` name and an unknown variant throw |
| Grammar.DeclaredKindAt | src/io/parser.ts:144-156 | succeeds exactly on one of the three declared-kind variants, and the result is the kind of that variant, one item consumed |
| Grammar.DirectiveListAt | src/io/parser.ts:158-160 | a success consumes at least one item and stays within the input |
| Grammar.DirectiveAt | src/io/parser.ts:162-170 | succeeds exactly on its tag followed by a string, which becomes the raw value; exactly two items |
| Grammar.StatementListAt | src/io/parser.ts:172-174 | a success has as many statements as the count it read, and consumes at least one item |
| Grammar.StatementAt | src/io/parser.ts:176-230 | a success consumes at least one item and stays within the input (the dispatch properties are `GrammarProperties.StatementTagged`, `UnknownKindFails` and `FailingKindsFail`) |
| Grammar.ExpressionAt | src/io/parser.ts:232-270 | throws for every input (no expression production exists) |
| Grammar.BlockAt | src/io/parser.ts:272-282 | a success starts at a `Block` tag and consumes at least one item |
| Grammar.BlockScopeAt | src/io/parser.ts:284-295 | a success starts at its tag and consumes at least one item |
| Grammar.BreakStatementAt | src/io/parser.ts:297-305 | succeeds exactly on its tag followed by `Null` or a string, and yields the label as absent or that string; exactly two items |
| Grammar.ContinueStatementAt | src/io/parser.ts:307-315 | succeeds exactly on its tag followed by `Null` or a string, and yields the label as absent or that string; exactly two items |
| Grammar.ClassDeclarationAt | src/io/parser.ts:317-329 | throws for every input: the superclass goes through `parseExpression` |
| Grammar.ClassElementListAt | src/io/parser.ts:331-333 | a success consumes at least one item and stays within the input |
| Grammar.ClassElementAt | src/io/parser.ts:335-345 | throws for every input: the method goes through `parseMethodDefinition` |
| Grammar.MethodDefinitionAt | src/io/parser.ts:347-359 | throws for every input |
| Grammar.BindingIdentifierAt | src/io/parser.ts:361-369 | succeeds exactly on its tag followed by a string, which becomes the name; exactly two items |
| Grammar.DebuggerStatementAt | src/io/parser.ts:371-377 | succeeds exactly on its own tag, consuming only that tag |
| Grammar.EmptyStatementAt | src/io/parser.ts:379-385 | succeeds exactly on its own tag, consuming only that tag |
| Grammar.ExpressionStatementAt | src/io/parser.ts:387-395 | throws for every input, in `parseExpression` |
| Grammar.EagerFunctionDeclarationAt | src/io/parser.ts:397-401 | throws for every input (not implemented) |
| Grammar.LazyFunctionDeclarationAt | src/io/parser.ts:403-407 | throws for every input (not implemented) |
| Grammar.IfStatementAt | src/io/parser.ts:409-421 | throws for every input, in `parseExpression` for the test |
| Grammar.DoWhileStatementAt | src/io/parser.ts:423-433 | throws for every input, in `parseExpression` for the test |
| Grammar.VariableDeclarationAt | src/io/parser.ts:435-445 | succeeds exactly on its tag, a declaration-kind variant and a count of 0, consuming exactly these three items, and yields that kind with no declarators |
| Grammar.VariableDeclarationKindAt | src/io/parser.ts:447-459 | succeeds exactly on one of the three declaration-kind variants, and the result is the kind of that variant, one item consumed |
| Grammar.DeclaratorListAt | src/io/parser.ts:461-463 | a success consumes at least one item and stays within the input |
| Grammar.DeclaratorAt | src/io/parser.ts:465-475 | throws for every input, in `parseBinding` |
| Grammar.BindingAt | src/io/parser.ts:477-486 | throws for every input |
| Grammar.ForInStatementAt | src/io/parser.ts:488-500 | throws for every input, in `parseForInOfBindingOrAssignmentTarget` |
| Grammar.ForOfStatementAt | src/io/parser.ts:502-514 | throws for every input, in `parseForInOfBindingOrAssignmentTarget` |
| Grammar.ForStatementAt | src/io/parser.ts:516-530 | a success starts at a `ForStatement` tag, consumes at least one item and yields a `for` loop whose test and update are absent |
| Grammar.VarDeclOrExpressionAt | src/io/parser.ts:532-540 | succeeds exactly when `parseVariableDeclaration` does, with that declaration; the expression alternative throws |
| Grammar.ForInOfTargetAt | src/io/parser.ts:542-554 | throws for every input |
| Grammar.WhileStatementAt | src/io/parser.ts:556-566 | throws for every input, in `parseExpression` for the test |
| Grammar.LabelledStatementAt | src/io/parser.ts:568-578 | a success starts at its tag followed by a string, consumes at least one item and yields a labelled statement with that string as its label |
| Grammar.ReturnStatementAt | src/io/parser.ts:580-588 | succeeds exactly on its tag followed by `Null`, and yields a return without argument; exactly two items |
| Grammar.SwitchStatementAt | src/io/parser.ts:590-600 | throws for every input, in `parseExpression` for the discriminant |
| Grammar.SwitchCaseListAt | src/io/parser.ts:602-604 | a success consumes at least one item and stays within the input |
| Grammar.SwitchCaseAt | src/io/parser.ts:606-616 | throws for every input, in `parseExpression` for the test |
| Grammar.SwitchStatementWithDefaultAt | src/io/parser.ts:618-632 | throws for every input, in `parseExpression` for the discriminant |
| Grammar.SwitchDefaultAt | src/io/parser.ts:634-642 | a success starts at its tag and consumes at least one item; nothing more is stated about what it decodes, because its only caller throws in the discriminant before reaching it (`Grammar.SwitchStatementWithDefaultAt`) |
| Grammar.ThrowStatementAt | src/io/parser.ts:644-652 | throws for every input, in `parseExpression` |
| Grammar.TryCatchStatementAt | src/io/parser.ts:654-664 | throws for every input: its catch clause goes through `parseBinding` |
| Grammar.CatchClauseAt | src/io/parser.ts:666-678 | throws for every input, in `parseBinding` |
| Grammar.BoundNamesScopeAt | src/io/parser.ts:680-690 | a success starts at its tag and consumes at least one item; nothing more is stated about the names it decodes, because its only caller `Grammar.CatchClauseAt` always throws afterwards, in `parseBinding` |
| Grammar.BoundNameListAt | src/io/parser.ts:692-694 | a success consumes at least one item and stays within the input |
| Grammar.BoundNameAt | src/io/parser.ts:696-706 | succeeds exactly on its tag, a string and a boolean, which become the name and the captured flag; exactly three items |
| Grammar.TryFinallyStatementAt | src/io/parser.ts:708-720 | a success starts at its tag, consumes at least one item and has no catch clause |
| Grammar.WithStatementAt | src/io/parser.ts:722-731 | throws for every input, in `parseExpression` for the object |
| Grammar.NestingStatementAt | src/io/parser.ts:176-230 | the part of the switch of `parseStatement` for block, `for`, labelled and the two `try` statements: a success consumes at least one item and stays within the input |
| Grammar.SimpleStatementAt | src/io/parser.ts:176-230 | nine of the statement kinds of the switch of `parseStatement`: a success consumes at least one item and stays within the input |
| Grammar.OtherStatementAt | src/io/parser.ts:176-230 | the other ten statement kinds of the switch of `parseStatement`: a success consumes at least one item and stays within the input |
| Grammar.StatementLoopAt | src/io/parser.ts:55-62 | the loop `parseStatementList` runs through `parseList`: a success has exactly `count` statements and does not move backwards |
| Parsing.Parser.Parse | src/io/parser.ts:50-53 | `parse` on the cursor: returns exactly what `Grammar.ParseAt` decodes from the starting cursor and leaves the cursor just after what it consumed |
| Parsing.Parser.ParseProgram | src/io/parser.ts:84-93 | `parseProgram` on the cursor: returns exactly what `Grammar.ProgramAt` decodes from the starting cursor and leaves the cursor just after what it consumed |
| Parsing.Parser.ParseScript | src/io/parser.ts:95-108 | `parseScript` on the cursor: returns exactly what `Grammar.ScriptAt` decodes from the starting cursor and leaves the cursor just after what it consumed |
| Parsing.Parser.ParseAssertedScriptGlobalScope | src/io/parser.ts:110-120 | `parseAssertedScriptGlobalScope` on the cursor: returns exactly what `Grammar.ScriptGlobalScopeAt` decodes from the starting cursor and leaves the cursor just after what it consumed |
| Parsing.Parser.ParseAssertedDeclaredNameList | src/io/parser.ts:122-124 | `parseAssertedDeclaredNameList` on the cursor: returns exactly what `Grammar.DeclaredNameListAt` decodes from the starting cursor and leaves the cursor just after what it consumed; its counted loop pushes each element in reading order |
| Parsing.Parser.ParseAssertedDeclaredName | src/io/parser.ts:126-142 | `parseAssertedDeclaredName` on the cursor: returns exactly what `Grammar.DeclaredNameAt` decodes from the starting cursor and leaves the cursor just after what it consumed |
| Parsing.Parser.ParseAssertedDeclaredKind | src/io/parser.ts:144-156 | `parseAssertedDeclaredKind` on the cursor: returns exactly what `Grammar.DeclaredKindAt` decodes from the starting cursor and leaves the cursor just after what it consumed |
| Parsing.Parser.ParseDirectiveList | src/io/parser.ts:158-160 | `parseDirectiveList` on the cursor: returns exactly what `Grammar.DirectiveListAt` decodes from the starting cursor and leaves the cursor just after what it consumed; its counted loop pushes each element in reading order |
| Parsing.Parser.ParseDirective | src/io/parser.ts:162-170 | `parseDirective` on the cursor: returns exactly what `Grammar.DirectiveAt` decodes from the starting cursor and leaves the cursor just after what it consumed |
| Parsing.Parser.ParseStatementList | src/io/parser.ts:172-174 | `parseStatementList` on the cursor: returns exactly what `Grammar.StatementListAt` decodes from the starting cursor and leaves the cursor just after what it consumed; its counted loop pushes each element in reading order |
| Parsing.Parser.ParseStatement | src/io/parser.ts:176-230 | `parseStatement` on the cursor: returns exactly what `Grammar.StatementAt` decodes from the starting cursor and leaves the cursor just after what it consumed |
| Parsing.Parser.ParseExpression | src/io/parser.ts:232-270 | `parseExpression` on the cursor: returns exactly what `Grammar.ExpressionAt` decodes from the starting cursor and leaves the cursor just after what it consumed |
| Parsing.Parser.ParseBlock | src/io/parser.ts:272-282 | `parseBlock` on the cursor: returns exactly what `Grammar.BlockAt` decodes from the starting cursor and leaves the cursor just after what it consumed |
| Parsing.Parser.ParseAssertedBlockScope | src/io/parser.ts:284-295 | `parseAssertedBlockScope` on the cursor: returns exactly what `Grammar.BlockScopeAt` decodes from the starting cursor and leaves the cursor just after what it consumed |
| Parsing.Parser.ParseBreakStatement | src/io/parser.ts:297-305 | `parseBreakStatement` on the cursor: returns exactly what `Grammar.BreakStatementAt` decodes from the starting cursor and leaves the cursor just after what it consumed |
| Parsing.Parser.ParseContinueStatement | src/io/parser.ts:307-315 | `parseContinueStatement` on the cursor: returns exactly what `Grammar.ContinueStatementAt` decodes from the starting cursor and leaves the cursor just after what it consumed |
| Parsing.Parser.ParseClassDeclaration | src/io/parser.ts:317-329 | `parseClassDeclaration` on the cursor: returns exactly what `Grammar.ClassDeclarationAt` decodes from the starting cursor and leaves the cursor just after what it consumed |
| Parsing.Parser.ParseClassElementList | src/io/parser.ts:331-333 | `parseClassElementList` on the cursor: returns exactly what `Grammar.ClassElementListAt` decodes from the starting cursor and leaves the cursor just after what it consumed; with a count above 0 it stops at the first element, which throws |
| Parsing.Parser.ParseClassElement | src/io/parser.ts:335-345 | `parseClassElement` on the cursor: returns exactly what `Grammar.ClassElementAt` decodes from the starting cursor and leaves the cursor just after what it consumed |
| Parsing.Parser.ParseMethodDefinition | src/io/parser.ts:347-359 | `parseMethodDefinition` on the cursor: returns exactly what `Grammar.MethodDefinitionAt` decodes from the starting cursor and leaves the cursor just after what it consumed |
| Parsing.Parser.ParseBindingIdentifier | src/io/parser.ts:361-369 | `parseBindingIdentifier` on the cursor: returns exactly what `Grammar.BindingIdentifierAt` decodes from the starting cursor and leaves the cursor just after what it consumed |
| Parsing.Parser.ParseDebuggerStatement | src/io/parser.ts:371-377 | `parseDebuggerStatement` on the cursor: returns exactly what `Grammar.DebuggerStatementAt` decodes from the starting cursor and leaves the cursor just after what it consumed |
| Parsing.Parser.ParseEmptyStatement | src/io/parser.ts:379-385 | `parseEmptyStatement` on the cursor: returns exactly what `Grammar.EmptyStatementAt` decodes from the starting cursor and leaves the cursor just after what it consumed |
| Parsing.Parser.ParseExpressionStatement | src/io/parser.ts:387-395 | `parseExpressionStatement` on the cursor: returns exactly what `Grammar.ExpressionStatementAt` decodes from the starting cursor and leaves the cursor just after what it consumed |
| Parsing.Parser.ParseEagerFunctionDeclaration | src/io/parser.ts:397-401 | `parseEagerFunctionDeclaration` on the cursor: returns exactly what `Grammar.EagerFunctionDeclarationAt` decodes from the starting cursor and leaves the cursor just after what it consumed |
| Parsing.Parser.ParseLazyFunctionDeclaration | src/io/parser.ts:403-407 | `parseLazyFunctionDeclaration` on the cursor: returns exactly what `Grammar.LazyFunctionDeclarationAt` decodes from the starting cursor and leaves the cursor just after what it consumed |
| Parsing.Parser.ParseIfStatement | src/io/parser.ts:409-421 | `parseIfStatement` on the cursor: returns exactly what `Grammar.IfStatementAt` decodes from the starting cursor and leaves the cursor just after what it consumed |
| Parsing.Parser.ParseDoWhileStatement | src/io/parser.ts:423-433 | `parseDoWhileStatement` on the cursor: returns exactly what `Grammar.DoWhileStatementAt` decodes from the starting cursor and leaves the cursor just after what it consumed |
| Parsing.Parser.ParseVariableDeclaration | src/io/parser.ts:435-445 | `parseVariableDeclaration` on the cursor: returns exactly what `Grammar.VariableDeclarationAt` decodes from the starting cursor and leaves the cursor just after what it consumed |
| Parsing.Parser.ParseVariableDeclarationKind | src/io/parser.ts:447-459 | `parseVariableDeclarationKind` on the cursor: returns exactly what `Grammar.VariableDeclarationKindAt` decodes from the starting cursor and leaves the cursor just after what it consumed |
| Parsing.Parser.ParseVariableDeclaratorList | src/io/parser.ts:461-463 | `parseVariableDeclaratorList` on the cursor: returns exactly what `Grammar.DeclaratorListAt` decodes from the starting cursor and leaves the cursor just after what it consumed; with a count above 0 it stops at the first element, which throws |
| Parsing.Parser.ParseVariableDeclarator | src/io/parser.ts:465-475 | `parseVariableDeclarator` on the cursor: returns exactly what `Grammar.DeclaratorAt` decodes from the starting cursor and leaves the cursor just after what it consumed |
| Parsing.Parser.ParseBinding | src/io/parser.ts:477-486 | `parseBinding` on the cursor: returns exactly what `Grammar.BindingAt` decodes from the starting cursor and leaves the cursor just after what it consumed |
| Parsing.Parser.ParseForInStatement | src/io/parser.ts:488-500 | `parseForInStatement` on the cursor: returns exactly what `Grammar.ForInStatementAt` decodes from the starting cursor and leaves the cursor just after what it consumed |
| Parsing.Parser.ParseForOfStatement | src/io/parser.ts:502-514 | `parseForOfStatement` on the cursor: returns exactly what `Grammar.ForOfStatementAt` decodes from the starting cursor and leaves the cursor just after what it consumed |
| Parsing.Parser.ParseForStatement | src/io/parser.ts:516-530 | `parseForStatement` on the cursor: returns exactly what `Grammar.ForStatementAt` decodes from the starting cursor and leaves the cursor just after what it consumed |
| Parsing.Parser.ParseVariableDeclarationOrExpression | src/io/parser.ts:532-540 | `parseVariableDeclarationOrExpression` on the cursor: returns exactly what `Grammar.VarDeclOrExpressionAt` decodes from the starting cursor and leaves the cursor just after what it consumed |
| Parsing.Parser.ParseForInOfBindingOrAssignmentTarget | src/io/parser.ts:542-554 | `parseForInOfBindingOrAssignmentTarget` on the cursor: returns exactly what `Grammar.ForInOfTargetAt` decodes from the starting cursor and leaves the cursor just after what it consumed |
| Parsing.Parser.ParseWhileStatement | src/io/parser.ts:556-566 | `parseWhileStatement` on the cursor: returns exactly what `Grammar.WhileStatementAt` decodes from the starting cursor and leaves the cursor just after what it consumed |
| Parsing.Parser.ParseLabelledStatement | src/io/parser.ts:568-578 | `parseLabelledStatement` on the cursor: returns exactly what `Grammar.LabelledStatementAt` decodes from the starting cursor and leaves the cursor just after what it consumed |
| Parsing.Parser.ParseReturnStatement | src/io/parser.ts:580-588 | `parseReturnStatement` on the cursor: returns exactly what `Grammar.ReturnStatementAt` decodes from the starting cursor and leaves the cursor just after what it consumed |
| Parsing.Parser.ParseSwitchStatement | src/io/parser.ts:590-600 | `parseSwitchStatement` on the cursor: returns exactly what `Grammar.SwitchStatementAt` decodes from the starting cursor and leaves the cursor just after what it consumed |
| Parsing.Parser.ParseSwitchCaseList | src/io/parser.ts:602-604 | `parseSwitchCaseList` on the cursor: returns exactly what `Grammar.SwitchCaseListAt` decodes from the starting cursor and leaves the cursor just after what it consumed; with a count above 0 it stops at the first element, which throws |
| Parsing.Parser.ParseSwitchCase | src/io/parser.ts:606-616 | `parseSwitchCase` on the cursor: returns exactly what `Grammar.SwitchCaseAt` decodes from the starting cursor and leaves the cursor just after what it consumed |
| Parsing.Parser.ParseSwitchStatementWithDefault | src/io/parser.ts:618-632 | `parseSwitchStatementWithDefault` on the cursor: returns exactly what `Grammar.SwitchStatementWithDefaultAt` decodes from the starting cursor and leaves the cursor just after what it consumed |
| Parsing.Parser.ParseSwitchDefault | src/io/parser.ts:634-642 | `parseSwitchDefault` on the cursor: returns exactly what `Grammar.SwitchDefaultAt` decodes from the starting cursor and leaves the cursor just after what it consumed |
| Parsing.Parser.ParseThrowStatement | src/io/parser.ts:644-652 | `parseThrowStatement` on the cursor: returns exactly what `Grammar.ThrowStatementAt` decodes from the starting cursor and leaves the cursor just after what it consumed |
| Parsing.Parser.ParseTryCatchStatement | src/io/parser.ts:654-664 | `parseTryCatchStatement` on the cursor: returns exactly what `Grammar.TryCatchStatementAt` decodes from the starting cursor and leaves the cursor just after what it consumed |
| Parsing.Parser.ParseCatchClause | src/io/parser.ts:666-678 | `parseCatchClause` on the cursor: returns exactly what `Grammar.CatchClauseAt` decodes from the starting cursor and leaves the cursor just after what it consumed |
| Parsing.Parser.ParseAssertedBoundNamesScope | src/io/parser.ts:680-690 | `parseAssertedBoundNamesScope` on the cursor: returns exactly what `Grammar.BoundNamesScopeAt` decodes from the starting cursor and leaves the cursor just after what it consumed |
| Parsing.Parser.ParseAssertedBoundNameList | src/io/parser.ts:692-694 | `parseAssertedBoundNameList` on the cursor: returns exactly what `Grammar.BoundNameListAt` decodes from the starting cursor and leaves the cursor just after what it consumed; its counted loop pushes each element in reading order |
| Parsing.Parser.ParseAssertedBoundName | src/io/parser.ts:696-706 | `parseAssertedBoundName` on the cursor: returns exactly what `Grammar.BoundNameAt` decodes from the starting cursor and leaves the cursor just after what it consumed |
| Parsing.Parser.ParseTryFinallyStatement | src/io/parser.ts:708-720 | `parseTryFinallyStatement` on the cursor: returns exactly what `Grammar.TryFinallyStatementAt` decodes from the starting cursor and leaves the cursor just after what it consumed |
| Parsing.Parser.ParseWithStatement | src/io/parser.ts:722-731 | `parseWithStatement` on the cursor: returns exactly what `Grammar.WithStatementAt` decodes from the starting cursor and leaves the cursor just after what it consumed |
| GrammarProperties.FailingElementLists | src/io/parser.ts:331-345 | the class element list decodes exactly when its count is 0; the same holds for the declarator list (461-475) and the switch case list (602-616) |
| GrammarProperties.DeclaredNameListVarOnly | src/io/parser.ts:122-156 | every name of a decoded declared-name list has kind `Var` |
| GrammarProperties.ScopesDeclareVarOnly | src/io/parser.ts:110-124 | a decoded script global scope and a decoded block scope (284-295) declare only `Var` names |
| GrammarProperties.DeclaredKindRoundTrip | src/io/parser.ts:144-156 | the variant of each declared kind is read back as that kind, one item consumed |
| GrammarProperties.DeclarationKindRoundTrip | src/io/parser.ts:447-459 | the variant of each declaration kind is read back as that kind, one item consumed |
| GrammarProperties.StatementTagged | src/io/parser.ts:176-230 | a decoded statement has the kind of the tag peeked at the cursor |
| GrammarProperties.UnknownKindFails | src/io/parser.ts:176-230 | a missing tag, or a tag outside the 24 statement kinds, makes `parseStatement` throw |
| GrammarProperties.FailingKindsFail | src/io/parser.ts:176-230 | the 14 kinds whose productions reach an expression, a binding, a method or an unimplemented function declaration always throw |
| GrammarProperties.DecodedKinds | src/io/parser.ts:176-230 | a decoded statement is of one of the ten remaining kinds: block, break, continue, debugger, empty, `for`, labelled, return, try-finally, variable declaration |
| Encoding.EncodeStatement | src/io/parser.ts:176-230 | the reference encoder of a decodable statement; its first item is the tag of the statement's kind, the tag `parseStatement` dispatches on |
| Encoding.EncodeBlock | src/io/parser.ts:272-282 | the reference encoder of a decodable block; its first item is the `Block` tag |
| RoundTrip.DeclaredNamesRoundTrip | src/io/parser.ts:122-142 | the encodings of `var` names, one after the other, are decoded back by `parseAssertedDeclaredName` in order, ending just after them |
| RoundTrip.DirectivesRoundTrip | src/io/parser.ts:158-170 | the encodings of directives, one after the other, are decoded back by `parseDirective` in order, ending just after them |
| RoundTrip.BlockScopeRoundTrip | src/io/parser.ts:284-295 | a block scope of `var` names is decoded back from its encoding, ending just after it |
| RoundTrip.ScriptGlobalScopeRoundTrip | src/io/parser.ts:110-120 | a global scope of `var` names is decoded back from its encoding, ending just after it |
| RoundTrip.DirectiveListRoundTrip | src/io/parser.ts:158-160 | a count and the encoded directives are decoded back to those directives |
| RoundTrip.VariableDeclarationRoundTrip | src/io/parser.ts:435-459 | a declaration with no declarators is decoded back from its three items, kind included |
| RoundTrip.ForInitRoundTrip | src/io/parser.ts:532-540 | an absent init clause, or a declaration with no declarators, is decoded back by the optional init clause of `for` (64-70) |
| RoundTrip.StatementRoundTrip | src/io/parser.ts:176-230 | every decodable statement is decoded back from its encoding, ending just after it |
| RoundTrip.LeafRoundTrip | src/io/parser.ts:297-315 | break, continue, debugger, empty, return and variable declaration statements are decoded back from their one to three items (also 371-385, 580-588) |
| RoundTrip.BlockStatementRoundTrip | src/io/parser.ts:176-230 | a decodable block is decoded back as a block statement by `parseStatement` |
| RoundTrip.ForRoundTrip | src/io/parser.ts:516-530 | a `for` with a decodable init clause, no test, no update and a decodable body is decoded back, ending just after it |
| RoundTrip.LabelledRoundTrip | src/io/parser.ts:568-578 | a labelled decodable statement is decoded back, label included |
| RoundTrip.TryFinallyRoundTrip | src/io/parser.ts:708-720 | a try-finally without catch clause and with decodable blocks is decoded back |
| RoundTrip.BlockRoundTrip | src/io/parser.ts:272-282 | a decodable block is decoded back from its encoding, ending just after it |
| RoundTrip.StatementsRoundTrip | src/io/parser.ts:172-174 | the encodings of decodable statements, one after the other, are decoded back in order by the loop of `parseStatementList` |
| RoundTrip.StatementListRoundTrip | src/io/parser.ts:172-174 | a count followed by the encodings of that many decodable statements is decoded back by `parseStatementList` to those statements |
| RoundTrip.ScriptRoundTrip | src/io/parser.ts:95-108 | a decodable script is decoded back from its encoding after the header, ending just after it |
| RoundTrip.ParseRoundTrip | src/io/parser.ts:50-108 | `parse` inverts the encoder: the encoding of a decodable script decodes to that script program and is consumed entirely |
| Reencoding.DeclaredNameFills | src/io/parser.ts:126-142 | a decoded declared name occupies exactly the four items of its encoding |
| Reencoding.DeclaredNamesFill | src/io/parser.ts:55-62 | the declared names of a counted loop occupy exactly their encodings, one after the other |
| Reencoding.DirectivesFill | src/io/parser.ts:158-170 | the directives of a counted loop occupy exactly their encodings, one after the other |
| Reencoding.ScriptGlobalScopeFills | src/io/parser.ts:110-120 | a decoded global scope declares only `var` names and occupies exactly its encoding |
| Reencoding.BlockScopeFills | src/io/parser.ts:284-295 | a decoded block scope declares only `var` names and occupies exactly its encoding |
| Reencoding.VariableDeclarationFills | src/io/parser.ts:435-459 | a decoded declaration has no declarators and occupies exactly its three items |
| Reencoding.ForInitFills | src/io/parser.ts:532-540 | a decoded `for` init clause is decodable and occupies exactly its encoding (64-70) |
| Reencoding.AbsentExpression | src/io/parser.ts:64-70 | an optional expression decodes only from a `Null` tag, as absent, consuming that tag |
| Reencoding.AbsentCatch | src/io/parser.ts:708-720 | an optional catch clause decodes only from a `Null` tag, as absent (64-70) |
| Reencoding.StatementFillsAt | src/io/parser.ts:176-230 | a decoded statement is decodable and occupies exactly its encoding |
| Reencoding.LeafFills | src/io/parser.ts:297-315 | the decoded statements that contain no statement occupy exactly their one to three items (also 371-385, 580-588) |
| Reencoding.NestingFills | src/io/parser.ts:176-230 | a decoded block, `for`, labelled or try statement is decodable and occupies exactly its encoding |
| Reencoding.ForFills | src/io/parser.ts:516-530 | a decoded `for` occupies exactly its encoding: tag, init clause, two `Null` tags, body |
| Reencoding.LabelledFills | src/io/parser.ts:568-578 | a decoded labelled statement occupies exactly its encoding: tag, label, body |
| Reencoding.TryFinallyFills | src/io/parser.ts:708-720 | a decoded try-finally occupies exactly its encoding: tag, block, `Null` tag, finalizer |
| Reencoding.BlockFillsAt | src/io/parser.ts:272-282 | a decoded block is decodable and occupies exactly its encoding |
| Reencoding.StatementListFills | src/io/parser.ts:172-174 | a decoded statement list is its count followed by the encodings of its statements |
| Reencoding.StatementLoopFills | src/io/parser.ts:172-174 | the statements of the counted loop are decodable and occupy exactly their encodings, in order |
| Reencoding.ScriptFills | src/io/parser.ts:95-108 | a decoded script is decodable and occupies exactly its encoding after the header |
| Reencoding.ParseFills | src/io/parser.ts:50-108 | the items a successful `parse` consumed are exactly `EncodeScript` of the decodable script it returns |
| Decodability.StatementDecodable | src/io/parser.ts:176-230 | every statement `parseStatement` decodes is decodable (in the domain of the encoder) |
| Decodability.BlockDecodable | src/io/parser.ts:272-282 | every block `parseBlock` decodes is decodable |
| Decodability.StatementListDecodable | src/io/parser.ts:172-174 | every statement of a decoded statement list is decodable |
| Decodability.ScriptDecodable | src/io/parser.ts:95-108 | every script `parseScript` decodes is decodable |
| Decodability.StatementImage | src/io/parser.ts:176-230 | a statement is decodable exactly when `parseStatement` decodes it from some input: both directions |
| Decodability.ProgramImage | src/io/parser.ts:50-108 | a program is a decodable script exactly when `parse` decodes it from some input; a module never is |
| Scenarios.EmptyScript | src/io/parser.ts:50-120 | a file holding only an empty script decodes, consuming all seven items |
| Scenarios.BreakAndContinue | src/io/parser.ts:297-315 | `break outer` with its label and `continue` with `Null` decode, two items each |
| Scenarios.EmptyFor | src/io/parser.ts:516-530 | a `for` with three `Null` clauses and an empty body decodes |
| Scenarios.ForWithTest | src/io/parser.ts:516-530 | a `for` whose test clause is present throws, whatever follows |
| Scenarios.ModuleRoot | src/io/parser.ts:84-93 | a `Module` root is rejected, whatever follows |
| Scenarios.ConstDeclaredName | src/io/parser.ts:126-142 | a global scope declaring a `const` name is rejected |
| Scenarios.ReturnAndDeclaration | src/io/parser.ts:580-588 | `return` without argument decodes in two items, and a `let` declaration with no declarators in three (435-459) |

## Left out

- The reader internals (`./reader`) and the context (`./context`) are not part of this model. The header magic and version, the byte encoding of varnums, and the string, grammar and variant tables are left out: the input is already a sequence of primitive items.
- Whether `lookAhead` rolls back insertions into the reader's tables is unknown, so the model restores only the cursor.
- Error messages: every thrown `Error` is the single failure `Err`, and the message text is dropped.
- `NodeTypeLimit` (src/types.ts:490) counts the keys of a numeric enumeration object, reverse mappings included. It is a JavaScript runtime artefact and is not modelled.
- Expression, module, import/export, method, getter/setter and arrow node shapes have no productions. They are placeholders (`Expression`, `MethodDefinition`, `AssignmentTarget`, `ModuleProgram`), and their fields are not modelled. That includes the floating-point value of `LiteralNumericExpression`.
- The declaration of `EmptyStatement` in src/types.ts:1048-1049 is malformed. It is the nullary constructor `EmptyStatement`.
- `FunctionDeclaration`: `length` and `contents` are dropped from the two function declaration shapes, which are never decoded.
- `Grammar.StatementAt`: the dispatch facts (the decoded kind matches the peeked tag; unknown tags throw) are the lemmas `GrammarProperties.StatementTagged` and `GrammarProperties.UnknownKindFails`, not clauses of the function's own contract.
- `Encoding.EncodeStatement`: the encoder covers only the decodable subset, because no other tree has an encoding the parser reads back. `Decodability.ProgramImage` shows that this subset is the whole image of `parse`.
- `Grammar.Optional`: on an item that is not a tag (a string label of `break` or `continue`), the model runs the delegate where `peekTaggedTuple` at src/io/parser.ts:72-74 throws under the typed-item reader. The model therefore decodes labelled `break`/`continue`, and `Scenarios.BreakAndContinue` relies on this. `GrammarProperties.StrictOptional` and `GrammarProperties.StrictLabels` model the literal reading, under which no label is ever decoded. The byte-level reader, which would settle this, is not part of this model.
- `Parsing.Parser.ParseAbsent`: returns false on an item that is not a tag, where the source's `peekTaggedTuple` throws; the callback then runs, as in `Grammar.Optional`.
- `Reading.Reader.ReadString`: `readIdentifierName` and `readAtom` both read one string item. The model does not tell identifier names from atoms.
