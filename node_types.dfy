/**
 * The closed catalogue of node kinds (`enum NodeType` of src/types.ts) and the
 * two lookup tables between a kind and its spelling.
 */
module NodeTypes {
  import opened Results

  /**
   * `enum NodeType` is a numeric enumeration: its i-th member (from 0) has the
   * value i. The parser also reads five tags that the enumeration does not
   * declare; they take the values -1 to -5, outside the enumeration.
   */
  newtype NodeType = x: int | -5 <= x < 113 {
    static const Null: NodeType := -1  // the absent-value marker read by parseOptional
    static const AssertedScriptGlobalScope: NodeType := -2  // read by parseAssertedScriptGlobalScope
    static const AssertedBlockScope: NodeType := -3  // read by parseAssertedBlockScope
    static const AssertedBoundNamesScope: NodeType := -4  // read by parseAssertedBoundNamesScope
    static const AssertedBoundName: NodeType := -5  // read by parseAssertedBoundName
    static const AssertedDeclaredName: NodeType := 0
    static const AssertedPositionalParameterName: NodeType := 1
    static const AssertedRestParameterName: NodeType := 2
    static const AssertedParameterName: NodeType := 3
    static const BindingIdentifier: NodeType := 4
    static const BindingWithInitializer: NodeType := 5
    static const AssignmentTargetIdentifier: NodeType := 6
    static const ComputedMemberAssignmentTarget: NodeType := 7
    static const StaticMemberAssignmentTarget: NodeType := 8
    static const ArrayBinding: NodeType := 9
    static const BindingPropertyIdentifier: NodeType := 10
    static const BindingPropertyProperty: NodeType := 11
    static const ObjectBinding: NodeType := 12
    static const AssignmentTargetWithInitializer: NodeType := 13
    static const ArrayAssignmentTarget: NodeType := 14
    static const AssignmentTargetPropertyIdentifier: NodeType := 15
    static const AssignmentTargetPropertyProperty: NodeType := 16
    static const ObjectAssignmentTarget: NodeType := 17
    static const ClassExpression: NodeType := 18
    static const ClassDeclaration: NodeType := 19
    static const ClassElement: NodeType := 20
    static const Module: NodeType := 21
    static const Import: NodeType := 22
    static const ImportNamespace: NodeType := 23
    static const ImportSpecifier: NodeType := 24
    static const ExportAllFrom: NodeType := 25
    static const ExportFrom: NodeType := 26
    static const ExportLocals: NodeType := 27
    static const Export: NodeType := 28
    static const ExportDefault: NodeType := 29
    static const ExportFromSpecifier: NodeType := 30
    static const ExportLocalSpecifier: NodeType := 31
    static const EagerMethod: NodeType := 32
    static const LazyMethod: NodeType := 33
    static const EagerGetter: NodeType := 34
    static const LazyGetter: NodeType := 35
    static const GetterContents: NodeType := 36
    static const EagerSetter: NodeType := 37
    static const LazySetter: NodeType := 38
    static const SetterContents: NodeType := 39
    static const DataProperty: NodeType := 40
    static const ShorthandProperty: NodeType := 41
    static const ComputedPropertyName: NodeType := 42
    static const LiteralPropertyName: NodeType := 43
    static const LiteralBooleanExpression: NodeType := 44
    static const LiteralInfinityExpression: NodeType := 45
    static const LiteralNullExpression: NodeType := 46
    static const LiteralNumericExpression: NodeType := 47
    static const LiteralRegExpExpression: NodeType := 48
    static const LiteralStringExpression: NodeType := 49
    static const ArrayExpression: NodeType := 50
    static const EagerArrowExpressionWithFunctionBody: NodeType := 51
    static const LazyArrowExpressionWithFunctionBody: NodeType := 52
    static const EagerArrowExpressionWithExpression: NodeType := 53
    static const LazyArrowExpressionWithExpression: NodeType := 54
    static const ArrowExpressionContentsWithFunctionBody: NodeType := 55
    static const ArrowExpressionContentsWithExpression: NodeType := 56
    static const AssignmentExpression: NodeType := 57
    static const BinaryExpression: NodeType := 58
    static const CallExpression: NodeType := 59
    static const CompoundAssignmentExpression: NodeType := 60
    static const ComputedMemberExpression: NodeType := 61
    static const ConditionalExpression: NodeType := 62
    static const EagerFunctionExpression: NodeType := 63
    static const LazyFunctionExpression: NodeType := 64
    static const FunctionExpressionContents: NodeType := 65
    static const IdentifierExpression: NodeType := 66
    static const NewExpression: NodeType := 67
    static const NewTargetExpression: NodeType := 68
    static const ObjectExpression: NodeType := 69
    static const UnaryExpression: NodeType := 70
    static const StaticMemberExpression: NodeType := 71
    static const TemplateExpression: NodeType := 72
    static const ThisExpression: NodeType := 73
    static const UpdateExpression: NodeType := 74
    static const YieldExpression: NodeType := 75
    static const YieldStarExpression: NodeType := 76
    static const AwaitExpression: NodeType := 77
    static const BreakStatement: NodeType := 78
    static const ContinueStatement: NodeType := 79
    static const DebuggerStatement: NodeType := 80
    static const DoWhileStatement: NodeType := 81
    static const EmptyStatement: NodeType := 82
    static const ExpressionStatement: NodeType := 83
    static const ForInOfBinding: NodeType := 84
    static const ForInStatement: NodeType := 85
    static const ForOfStatement: NodeType := 86
    static const ForStatement: NodeType := 87
    static const IfStatement: NodeType := 88
    static const LabelledStatement: NodeType := 89
    static const ReturnStatement: NodeType := 90
    static const SwitchStatement: NodeType := 91
    static const SwitchStatementWithDefault: NodeType := 92
    static const ThrowStatement: NodeType := 93
    static const TryCatchStatement: NodeType := 94
    static const TryFinallyStatement: NodeType := 95
    static const WhileStatement: NodeType := 96
    static const WithStatement: NodeType := 97
    static const Block: NodeType := 98
    static const CatchClause: NodeType := 99
    static const Directive: NodeType := 100
    static const FormalParameters: NodeType := 101
    static const EagerFunctionDeclaration: NodeType := 102
    static const LazyFunctionDeclaration: NodeType := 103
    static const FunctionOrMethodContents: NodeType := 104
    static const Script: NodeType := 105
    static const SpreadElement: NodeType := 106
    static const Super: NodeType := 107
    static const SwitchCase: NodeType := 108
    static const SwitchDefault: NodeType := 109
    static const TemplateElement: NodeType := 110
    static const VariableDeclaration: NodeType := 111
    static const VariableDeclarator: NodeType := 112
  }

  /** A member the enumeration declares, as opposed to a parser-only tag. */
  predicate Declared(t: NodeType) {
    0 <= t
  }

  /**
   * `NodeTypeToNameMap`: every declared member is spelled as its own member
   * name; the parser-only tags have no entry.
   */
  function TypeToName(t: NodeType): Option<string> {
    match t
    case 0 => Some("AssertedDeclaredName")
    case 1 => Some("AssertedPositionalParameterName")
    case 2 => Some("AssertedRestParameterName")
    case 3 => Some("AssertedParameterName")
    case 4 => Some("BindingIdentifier")
    case 5 => Some("BindingWithInitializer")
    case 6 => Some("AssignmentTargetIdentifier")
    case 7 => Some("ComputedMemberAssignmentTarget")
    case 8 => Some("StaticMemberAssignmentTarget")
    case 9 => Some("ArrayBinding")
    case 10 => Some("BindingPropertyIdentifier")
    case 11 => Some("BindingPropertyProperty")
    case 12 => Some("ObjectBinding")
    case 13 => Some("AssignmentTargetWithInitializer")
    case 14 => Some("ArrayAssignmentTarget")
    case 15 => Some("AssignmentTargetPropertyIdentifier")
    case 16 => Some("AssignmentTargetPropertyProperty")
    case 17 => Some("ObjectAssignmentTarget")
    case 18 => Some("ClassExpression")
    case 19 => Some("ClassDeclaration")
    case 20 => Some("ClassElement")
    case 21 => Some("Module")
    case 22 => Some("Import")
    case 23 => Some("ImportNamespace")
    case 24 => Some("ImportSpecifier")
    case 25 => Some("ExportAllFrom")
    case 26 => Some("ExportFrom")
    case 27 => Some("ExportLocals")
    case 28 => Some("Export")
    case 29 => Some("ExportDefault")
    case 30 => Some("ExportFromSpecifier")
    case 31 => Some("ExportLocalSpecifier")
    case 32 => Some("EagerMethod")
    case 33 => Some("LazyMethod")
    case 34 => Some("EagerGetter")
    case 35 => Some("LazyGetter")
    case 36 => Some("GetterContents")
    case 37 => Some("EagerSetter")
    case 38 => Some("LazySetter")
    case 39 => Some("SetterContents")
    case 40 => Some("DataProperty")
    case 41 => Some("ShorthandProperty")
    case 42 => Some("ComputedPropertyName")
    case 43 => Some("LiteralPropertyName")
    case 44 => Some("LiteralBooleanExpression")
    case 45 => Some("LiteralInfinityExpression")
    case 46 => Some("LiteralNullExpression")
    case 47 => Some("LiteralNumericExpression")
    case 48 => Some("LiteralRegExpExpression")
    case 49 => Some("LiteralStringExpression")
    case 50 => Some("ArrayExpression")
    case 51 => Some("EagerArrowExpressionWithFunctionBody")
    case 52 => Some("LazyArrowExpressionWithFunctionBody")
    case 53 => Some("EagerArrowExpressionWithExpression")
    case 54 => Some("LazyArrowExpressionWithExpression")
    case 55 => Some("ArrowExpressionContentsWithFunctionBody")
    case 56 => Some("ArrowExpressionContentsWithExpression")
    case 57 => Some("AssignmentExpression")
    case 58 => Some("BinaryExpression")
    case 59 => Some("CallExpression")
    case 60 => Some("CompoundAssignmentExpression")
    case 61 => Some("ComputedMemberExpression")
    case 62 => Some("ConditionalExpression")
    case 63 => Some("EagerFunctionExpression")
    case 64 => Some("LazyFunctionExpression")
    case 65 => Some("FunctionExpressionContents")
    case 66 => Some("IdentifierExpression")
    case 67 => Some("NewExpression")
    case 68 => Some("NewTargetExpression")
    case 69 => Some("ObjectExpression")
    case 70 => Some("UnaryExpression")
    case 71 => Some("StaticMemberExpression")
    case 72 => Some("TemplateExpression")
    case 73 => Some("ThisExpression")
    case 74 => Some("UpdateExpression")
    case 75 => Some("YieldExpression")
    case 76 => Some("YieldStarExpression")
    case 77 => Some("AwaitExpression")
    case 78 => Some("BreakStatement")
    case 79 => Some("ContinueStatement")
    case 80 => Some("DebuggerStatement")
    case 81 => Some("DoWhileStatement")
    case 82 => Some("EmptyStatement")
    case 83 => Some("ExpressionStatement")
    case 84 => Some("ForInOfBinding")
    case 85 => Some("ForInStatement")
    case 86 => Some("ForOfStatement")
    case 87 => Some("ForStatement")
    case 88 => Some("IfStatement")
    case 89 => Some("LabelledStatement")
    case 90 => Some("ReturnStatement")
    case 91 => Some("SwitchStatement")
    case 92 => Some("SwitchStatementWithDefault")
    case 93 => Some("ThrowStatement")
    case 94 => Some("TryCatchStatement")
    case 95 => Some("TryFinallyStatement")
    case 96 => Some("WhileStatement")
    case 97 => Some("WithStatement")
    case 98 => Some("Block")
    case 99 => Some("CatchClause")
    case 100 => Some("Directive")
    case 101 => Some("FormalParameters")
    case 102 => Some("EagerFunctionDeclaration")
    case 103 => Some("LazyFunctionDeclaration")
    case 104 => Some("FunctionOrMethodContents")
    case 105 => Some("Script")
    case 106 => Some("SpreadElement")
    case 107 => Some("Super")
    case 108 => Some("SwitchCase")
    case 109 => Some("SwitchDefault")
    case 110 => Some("TemplateElement")
    case 111 => Some("VariableDeclaration")
    case 112 => Some("VariableDeclarator")
    case _ => None
  }

  /**
   * `NodeTypeNameToTypeMap`, written as a decision on the length and then on
   * distinguishing characters of the key; `None` for a string that is not a key.
   */
  function NameToType(s: string): Option<NodeType> {
    if |s| == 5 then
      if s[0] == 'B' then
        if s == "Block" then Some(NodeType.Block) else None
      else if s[0] == 'S' then
        if s == "Super" then Some(NodeType.Super) else None
      else None
    else if |s| == 6 then
      if s[0] == 'E' then
        if s == "Export" then Some(NodeType.Export) else None
      else if s[0] == 'I' then
        if s == "Import" then Some(NodeType.Import) else None
      else if s[0] == 'M' then
        if s == "Module" then Some(NodeType.Module) else None
      else if s[0] == 'S' then
        if s == "Script" then Some(NodeType.Script) else None
      else None
    else if |s| == 9 then
      if s == "Directive" then Some(NodeType.Directive) else None
    else if |s| == 10 then
      if s[4] == 'G' then
        if s == "LazyGetter" then Some(NodeType.LazyGetter) else None
      else if s[4] == 'M' then
        if s == "LazyMethod" then Some(NodeType.LazyMethod) else None
      else if s[4] == 'S' then
        if s == "LazySetter" then Some(NodeType.LazySetter) else None
      else if s[4] == 'c' then
        if s == "SwitchCase" then Some(NodeType.SwitchCase) else None
      else if s[4] == 'r' then
        if s == "ExportFrom" then Some(NodeType.ExportFrom) else None
      else None
    else if |s| == 11 then
      if s[5] == 'C' then
        if s == "CatchClause" then Some(NodeType.CatchClause) else None
      else if s[5] == 'G' then
        if s == "EagerGetter" then Some(NodeType.EagerGetter) else None
      else if s[5] == 'M' then
        if s == "EagerMethod" then Some(NodeType.EagerMethod) else None
      else if s[5] == 'S' then
        if s == "EagerSetter" then Some(NodeType.EagerSetter) else None
      else if s[5] == 't' then
        if s == "IfStatement" then Some(NodeType.IfStatement) else None
      else None
    else if |s| == 12 then
      if s[0] == 'A' then
        if s == "ArrayBinding" then Some(NodeType.ArrayBinding) else None
      else if s[0] == 'C' then
        if s == "ClassElement" then Some(NodeType.ClassElement) else None
      else if s[0] == 'D' then
        if s == "DataProperty" then Some(NodeType.DataProperty) else None
      else if s[0] == 'E' then
        if s == "ExportLocals" then Some(NodeType.ExportLocals) else None
      else if s[0] == 'F' then
        if s == "ForStatement" then Some(NodeType.ForStatement) else None
      else None
    else if |s| == 13 then
      if s[1] == 'b' then
        if s == "ObjectBinding" then Some(NodeType.ObjectBinding) else None
      else if s[1] == 'e' then
        if s == "NewExpression" then Some(NodeType.NewExpression) else None
      else if s[1] == 'i' then
        if s == "WithStatement" then Some(NodeType.WithStatement) else None
      else if s[1] == 'p' then
        if s == "SpreadElement" then Some(NodeType.SpreadElement) else None
      else if s[1] == 'w' then
        if s == "SwitchDefault" then Some(NodeType.SwitchDefault) else None
      else if s[1] == 'x' then
        if s[6] == 'A' then
          if s == "ExportAllFrom" then Some(NodeType.ExportAllFrom) else None
        else if s[6] == 'D' then
          if s == "ExportDefault" then Some(NodeType.ExportDefault) else None
        else None
      else None
    else if |s| == 14 then
      if s[0] == 'B' then
        if s == "BreakStatement" then Some(NodeType.BreakStatement) else None
      else if s[0] == 'C' then
        if s == "CallExpression" then Some(NodeType.CallExpression) else None
      else if s[0] == 'E' then
        if s == "EmptyStatement" then Some(NodeType.EmptyStatement) else None
      else if s[0] == 'F' then
        if s[3] == 'I' then
          if s[5] == 'O' then
            if s == "ForInOfBinding" then Some(NodeType.ForInOfBinding) else None
          else if s[5] == 'S' then
            if s == "ForInStatement" then Some(NodeType.ForInStatement) else None
          else None
        else if s[3] == 'O' then
          if s == "ForOfStatement" then Some(NodeType.ForOfStatement) else None
        else None
      else if s[0] == 'G' then
        if s == "GetterContents" then Some(NodeType.GetterContents) else None
      else if s[0] == 'S' then
        if s == "SetterContents" then Some(NodeType.SetterContents) else None
      else if s[0] == 'T' then
        if s[2] == 'i' then
          if s == "ThisExpression" then Some(NodeType.ThisExpression) else None
        else if s[2] == 'r' then
          if s == "ThrowStatement" then Some(NodeType.ThrowStatement) else None
        else None
      else if s[0] == 'W' then
        if s == "WhileStatement" then Some(NodeType.WhileStatement) else None
      else None
    else if |s| == 15 then
      if s[3] == 'a' then
        if s == "ArrayExpression" then Some(NodeType.ArrayExpression) else None
      else if s[3] == 'i' then
        if s == "AwaitExpression" then Some(NodeType.AwaitExpression) else None
      else if s[3] == 'l' then
        if s == "YieldExpression" then Some(NodeType.YieldExpression) else None
      else if s[3] == 'o' then
        if s[6] == 'N' then
          if s == "ImportNamespace" then Some(NodeType.ImportNamespace) else None
        else if s[6] == 'S' then
          if s == "ImportSpecifier" then Some(NodeType.ImportSpecifier) else None
        else None
      else if s[3] == 'p' then
        if s == "TemplateElement" then Some(NodeType.TemplateElement) else None
      else if s[3] == 'r' then
        if s == "UnaryExpression" then Some(NodeType.UnaryExpression) else None
      else if s[3] == 's' then
        if s == "ClassExpression" then Some(NodeType.ClassExpression) else None
      else if s[3] == 't' then
        if s == "SwitchStatement" then Some(NodeType.SwitchStatement) else None
      else if s[3] == 'u' then
        if s == "ReturnStatement" then Some(NodeType.ReturnStatement) else None
      else None
    else if |s| == 16 then
      if s[0] == 'B' then
        if s == "BinaryExpression" then Some(NodeType.BinaryExpression) else None
      else if s[0] == 'C' then
        if s == "ClassDeclaration" then Some(NodeType.ClassDeclaration) else None
      else if s[0] == 'D' then
        if s == "DoWhileStatement" then Some(NodeType.DoWhileStatement) else None
      else if s[0] == 'F' then
        if s == "FormalParameters" then Some(NodeType.FormalParameters) else None
      else if s[0] == 'O' then
        if s == "ObjectExpression" then Some(NodeType.ObjectExpression) else None
      else if s[0] == 'U' then
        if s == "UpdateExpression" then Some(NodeType.UpdateExpression) else None
      else None
    else if |s| == 17 then
      if s[0] == 'B' then
        if s == "BindingIdentifier" then Some(NodeType.BindingIdentifier) else None
      else if s[0] == 'C' then
        if s == "ContinueStatement" then Some(NodeType.ContinueStatement) else None
      else if s[0] == 'D' then
        if s == "DebuggerStatement" then Some(NodeType.DebuggerStatement) else None
      else if s[0] == 'L' then
        if s == "LabelledStatement" then Some(NodeType.LabelledStatement) else None
      else if s[0] == 'S' then
        if s == "ShorthandProperty" then Some(NodeType.ShorthandProperty) else None
      else if s[0] == 'T' then
        if s == "TryCatchStatement" then Some(NodeType.TryCatchStatement) else None
      else None
    else if |s| == 18 then
      if s[0] == 'T' then
        if s == "TemplateExpression" then Some(NodeType.TemplateExpression) else None
      else if s[0] == 'V' then
        if s == "VariableDeclarator" then Some(NodeType.VariableDeclarator) else None
      else None
    else if |s| == 19 then
      if s[3] == 'F' then
        if s == "TryFinallyStatement" then Some(NodeType.TryFinallyStatement) else None
      else if s[3] == 'T' then
        if s == "NewTargetExpression" then Some(NodeType.NewTargetExpression) else None
      else if s[3] == 'e' then
        if s == "LiteralPropertyName" then Some(NodeType.LiteralPropertyName) else None
      else if s[3] == 'i' then
        if s == "VariableDeclaration" then Some(NodeType.VariableDeclaration) else None
      else if s[3] == 'l' then
        if s == "YieldStarExpression" then Some(NodeType.YieldStarExpression) else None
      else if s[3] == 'o' then
        if s == "ExportFromSpecifier" then Some(NodeType.ExportFromSpecifier) else None
      else if s[3] == 'r' then
        if s == "ExpressionStatement" then Some(NodeType.ExpressionStatement) else None
      else None
    else if |s| == 20 then
      if s[3] == 'e' then
        if s == "AssertedDeclaredName" then Some(NodeType.AssertedDeclaredName) else None
      else if s[3] == 'i' then
        if s == "AssignmentExpression" then Some(NodeType.AssignmentExpression) else None
      else if s[3] == 'n' then
        if s == "IdentifierExpression" then Some(NodeType.IdentifierExpression) else None
      else if s[3] == 'o' then
        if s == "ExportLocalSpecifier" then Some(NodeType.ExportLocalSpecifier) else None
      else if s[3] == 'p' then
        if s == "ComputedPropertyName" then Some(NodeType.ComputedPropertyName) else None
      else None
    else if |s| == 21 then
      if s[1] == 'i' then
        if s == "LiteralNullExpression" then Some(NodeType.LiteralNullExpression) else None
      else if s[1] == 'o' then
        if s == "ConditionalExpression" then Some(NodeType.ConditionalExpression) else None
      else if s[1] == 'r' then
        if s == "ArrayAssignmentTarget" then Some(NodeType.ArrayAssignmentTarget) else None
      else if s[1] == 's' then
        if s == "AssertedParameterName" then Some(NodeType.AssertedParameterName) else None
      else None
    else if |s| == 22 then
      if s[0] == 'B' then
        if s == "BindingWithInitializer" then Some(NodeType.BindingWithInitializer) else None
      else if s[0] == 'L' then
        if s == "LazyFunctionExpression" then Some(NodeType.LazyFunctionExpression) else None
      else if s[0] == 'O' then
        if s == "ObjectAssignmentTarget" then Some(NodeType.ObjectAssignmentTarget) else None
      else if s[0] == 'S' then
        if s == "StaticMemberExpression" then Some(NodeType.StaticMemberExpression) else None
      else None
    else if |s| == 23 then
      if s[7] == 'P' then
        if s == "BindingPropertyProperty" then Some(NodeType.BindingPropertyProperty) else None
      else if s[7] == 'R' then
        if s == "LiteralRegExpExpression" then Some(NodeType.LiteralRegExpExpression) else None
      else if s[7] == 'S' then
        if s == "LiteralStringExpression" then Some(NodeType.LiteralStringExpression) else None
      else if s[7] == 'c' then
        if s == "LazyFunctionDeclaration" then Some(NodeType.LazyFunctionDeclaration) else None
      else if s[7] == 'n' then
        if s == "EagerFunctionExpression" then Some(NodeType.EagerFunctionExpression) else None
      else None
    else if |s| == 24 then
      if s[8] == 'M' then
        if s == "ComputedMemberExpression" then Some(NodeType.ComputedMemberExpression) else None
      else if s[8] == 'O' then
        if s == "FunctionOrMethodContents" then Some(NodeType.FunctionOrMethodContents) else None
      else if s[8] == 'c' then
        if s == "EagerFunctionDeclaration" then Some(NodeType.EagerFunctionDeclaration) else None
      else if s[8] == 'o' then
        if s == "LiteralBooleanExpression" then Some(NodeType.LiteralBooleanExpression) else None
      else if s[8] == 'u' then
        if s == "LiteralNumericExpression" then Some(NodeType.LiteralNumericExpression) else None
      else None
    else if |s| == 25 then
      if s[0] == 'A' then
        if s == "AssertedRestParameterName" then Some(NodeType.AssertedRestParameterName) else None
      else if s[0] == 'B' then
        if s == "BindingPropertyIdentifier" then Some(NodeType.BindingPropertyIdentifier) else None
      else if s[0] == 'L' then
        if s == "LiteralInfinityExpression" then Some(NodeType.LiteralInfinityExpression) else None
      else None
    else if |s| == 26 then
      if s[0] == 'A' then
        if s == "AssignmentTargetIdentifier" then Some(NodeType.AssignmentTargetIdentifier) else None
      else if s[0] == 'F' then
        if s == "FunctionExpressionContents" then Some(NodeType.FunctionExpressionContents) else None
      else if s[0] == 'S' then
        if s == "SwitchStatementWithDefault" then Some(NodeType.SwitchStatementWithDefault) else None
      else None
    else if |s| == 28 then
      if s[0] == 'C' then
        if s == "CompoundAssignmentExpression" then Some(NodeType.CompoundAssignmentExpression) else None
      else if s[0] == 'S' then
        if s == "StaticMemberAssignmentTarget" then Some(NodeType.StaticMemberAssignmentTarget) else None
      else None
    else if |s| == 30 then
      if s == "ComputedMemberAssignmentTarget" then Some(NodeType.ComputedMemberAssignmentTarget) else None
    else if |s| == 31 then
      if s[3] == 'e' then
        if s == "AssertedPositionalParameterName" then Some(NodeType.AssertedPositionalParameterName) else None
      else if s[3] == 'i' then
        if s == "AssignmentTargetWithInitializer" then Some(NodeType.AssignmentTargetWithInitializer) else None
      else None
    else if |s| == 32 then
      if s == "AssignmentTargetPropertyProperty" then Some(NodeType.AssignmentTargetPropertyProperty) else None
    else if |s| == 33 then
      if s == "LazyArrowExpressionWithExpression" then Some(NodeType.LazyArrowExpressionWithExpression) else None
    else if |s| == 34 then
      if s[0] == 'A' then
        if s == "AssignmentTargetPropertyIdentifier" then Some(NodeType.AssignmentTargetPropertyIdentifier) else None
      else if s[0] == 'E' then
        if s == "EagerArrowExpressionWithExpression" then Some(NodeType.EagerArrowExpressionWithExpression) else None
      else None
    else if |s| == 35 then
      if s == "LazyArrowExpressionWithFunctionBody" then Some(NodeType.LazyArrowExpressionWithFunctionBody) else None
    else if |s| == 36 then
      if s == "EagerArrowExpressionWithFunctionBody" then Some(NodeType.EagerArrowExpressionWithFunctionBody) else None
    else if |s| == 37 then
      if s == "ArrowExpressionContentsWithExpression" then Some(NodeType.ArrowExpressionContentsWithExpression) else None
    else if |s| == 39 then
      if s == "ArrowExpressionContentsWithFunctionBody" then Some(NodeType.ArrowExpressionContentsWithFunctionBody) else None
    else None
  }

  /** Exactly the declared members have a name. */
  lemma NamedIffDeclared(t: NodeType)
    ensures TypeToName(t).Some? <==> Declared(t)
  {
    if Declared(t) {
      NameRoundTrip(t);
    }
  }

  /** Looking up the name of a declared member gives back that member. */
  lemma NameRoundTrip(t: NodeType)
    requires Declared(t)
    ensures TypeToName(t).Some? && NameToType(TypeToName(t).value) == Some(t)
  {
    if t <= 9 {
      NameRoundTripFrom0(t);
    } else if t <= 19 {
      NameRoundTripFrom10(t);
    } else if t <= 29 {
      NameRoundTripFrom20(t);
    } else if t <= 39 {
      NameRoundTripFrom30(t);
    } else if t <= 49 {
      NameRoundTripFrom40(t);
    } else if t <= 59 {
      NameRoundTripFrom50(t);
    } else if t <= 69 {
      NameRoundTripFrom60(t);
    } else if t <= 79 {
      NameRoundTripFrom70(t);
    } else if t <= 89 {
      NameRoundTripFrom80(t);
    } else if t <= 99 {
      NameRoundTripFrom90(t);
    } else if t <= 109 {
      NameRoundTripFrom100(t);
    } else if t <= 112 {
      NameRoundTripFrom110(t);
    }
  }

  /** Every key of the reverse table names the member it maps to. */
  lemma TypeRoundTrip(s: string)
    requires NameToType(s).Some?
    ensures Declared(NameToType(s).value) && TypeToName(NameToType(s).value) == Some(s)
  {
    if |s| == 5 {
      TypeRoundTripLength5(s);
    } else if |s| == 6 {
      TypeRoundTripLength6(s);
    } else if |s| == 9 {
      TypeRoundTripLength9(s);
    } else if |s| == 10 {
      TypeRoundTripLength10(s);
    } else if |s| == 11 {
      TypeRoundTripLength11(s);
    } else if |s| == 12 {
      TypeRoundTripLength12(s);
    } else if |s| == 13 {
      TypeRoundTripLength13(s);
    } else if |s| == 14 {
      TypeRoundTripLength14(s);
    } else if |s| == 15 {
      TypeRoundTripLength15(s);
    } else if |s| == 16 {
      TypeRoundTripLength16(s);
    } else if |s| == 17 {
      TypeRoundTripLength17(s);
    } else if |s| == 18 {
      TypeRoundTripLength18(s);
    } else if |s| == 19 {
      TypeRoundTripLength19(s);
    } else if |s| == 20 {
      TypeRoundTripLength20(s);
    } else if |s| == 21 {
      TypeRoundTripLength21(s);
    } else if |s| == 22 {
      TypeRoundTripLength22(s);
    } else if |s| == 23 {
      TypeRoundTripLength23(s);
    } else if |s| == 24 {
      TypeRoundTripLength24(s);
    } else if |s| == 25 {
      TypeRoundTripLength25(s);
    } else if |s| == 26 {
      TypeRoundTripLength26(s);
    } else if |s| == 28 {
      TypeRoundTripLength28(s);
    } else if |s| == 30 {
      TypeRoundTripLength30(s);
    } else if |s| == 31 {
      TypeRoundTripLength31(s);
    } else if |s| == 32 {
      TypeRoundTripLength32(s);
    } else if |s| == 33 {
      TypeRoundTripLength33(s);
    } else if |s| == 34 {
      TypeRoundTripLength34(s);
    } else if |s| == 35 {
      TypeRoundTripLength35(s);
    } else if |s| == 36 {
      TypeRoundTripLength36(s);
    } else if |s| == 37 {
      TypeRoundTripLength37(s);
    } else if |s| == 39 {
      TypeRoundTripLength39(s);
    }
  }

  /** No two members share a name. */
  lemma TypeToNameInjective(a: NodeType, b: NodeType)
    requires TypeToName(a).Some? && TypeToName(a) == TypeToName(b)
    ensures a == b
  {
    NamedIffDeclared(a);
    NamedIffDeclared(b);
    NameRoundTrip(a);
    NameRoundTrip(b);
  }

  // The round trips are assembled from one fact per member, grouped so that
  // each proof obligation stays small.

  lemma NameRoundTripFrom0(t: NodeType)
    requires 0 <= t <= 9
    ensures TypeToName(t).Some? && NameToType(TypeToName(t).value) == Some(t)
  {
    if t == NodeType.AssertedDeclaredName {
      EntryAssertedDeclaredName();
    } else if t == NodeType.AssertedPositionalParameterName {
      EntryAssertedPositionalParameterName();
    } else if t == NodeType.AssertedRestParameterName {
      EntryAssertedRestParameterName();
    } else if t == NodeType.AssertedParameterName {
      EntryAssertedParameterName();
    } else if t == NodeType.BindingIdentifier {
      EntryBindingIdentifier();
    } else if t == NodeType.BindingWithInitializer {
      EntryBindingWithInitializer();
    } else if t == NodeType.AssignmentTargetIdentifier {
      EntryAssignmentTargetIdentifier();
    } else if t == NodeType.ComputedMemberAssignmentTarget {
      EntryComputedMemberAssignmentTarget();
    } else if t == NodeType.StaticMemberAssignmentTarget {
      EntryStaticMemberAssignmentTarget();
    } else if t == NodeType.ArrayBinding {
      EntryArrayBinding();
    }
  }

  lemma NameRoundTripFrom10(t: NodeType)
    requires 10 <= t <= 19
    ensures TypeToName(t).Some? && NameToType(TypeToName(t).value) == Some(t)
  {
    if t == NodeType.BindingPropertyIdentifier {
      EntryBindingPropertyIdentifier();
    } else if t == NodeType.BindingPropertyProperty {
      EntryBindingPropertyProperty();
    } else if t == NodeType.ObjectBinding {
      EntryObjectBinding();
    } else if t == NodeType.AssignmentTargetWithInitializer {
      EntryAssignmentTargetWithInitializer();
    } else if t == NodeType.ArrayAssignmentTarget {
      EntryArrayAssignmentTarget();
    } else if t == NodeType.AssignmentTargetPropertyIdentifier {
      EntryAssignmentTargetPropertyIdentifier();
    } else if t == NodeType.AssignmentTargetPropertyProperty {
      EntryAssignmentTargetPropertyProperty();
    } else if t == NodeType.ObjectAssignmentTarget {
      EntryObjectAssignmentTarget();
    } else if t == NodeType.ClassExpression {
      EntryClassExpression();
    } else if t == NodeType.ClassDeclaration {
      EntryClassDeclaration();
    }
  }

  lemma NameRoundTripFrom20(t: NodeType)
    requires 20 <= t <= 29
    ensures TypeToName(t).Some? && NameToType(TypeToName(t).value) == Some(t)
  {
    if t == NodeType.ClassElement {
      EntryClassElement();
    } else if t == NodeType.Module {
      EntryModule();
    } else if t == NodeType.Import {
      EntryImport();
    } else if t == NodeType.ImportNamespace {
      EntryImportNamespace();
    } else if t == NodeType.ImportSpecifier {
      EntryImportSpecifier();
    } else if t == NodeType.ExportAllFrom {
      EntryExportAllFrom();
    } else if t == NodeType.ExportFrom {
      EntryExportFrom();
    } else if t == NodeType.ExportLocals {
      EntryExportLocals();
    } else if t == NodeType.Export {
      EntryExport();
    } else if t == NodeType.ExportDefault {
      EntryExportDefault();
    }
  }

  lemma NameRoundTripFrom30(t: NodeType)
    requires 30 <= t <= 39
    ensures TypeToName(t).Some? && NameToType(TypeToName(t).value) == Some(t)
  {
    if t == NodeType.ExportFromSpecifier {
      EntryExportFromSpecifier();
    } else if t == NodeType.ExportLocalSpecifier {
      EntryExportLocalSpecifier();
    } else if t == NodeType.EagerMethod {
      EntryEagerMethod();
    } else if t == NodeType.LazyMethod {
      EntryLazyMethod();
    } else if t == NodeType.EagerGetter {
      EntryEagerGetter();
    } else if t == NodeType.LazyGetter {
      EntryLazyGetter();
    } else if t == NodeType.GetterContents {
      EntryGetterContents();
    } else if t == NodeType.EagerSetter {
      EntryEagerSetter();
    } else if t == NodeType.LazySetter {
      EntryLazySetter();
    } else if t == NodeType.SetterContents {
      EntrySetterContents();
    }
  }

  lemma NameRoundTripFrom40(t: NodeType)
    requires 40 <= t <= 49
    ensures TypeToName(t).Some? && NameToType(TypeToName(t).value) == Some(t)
  {
    if t == NodeType.DataProperty {
      EntryDataProperty();
    } else if t == NodeType.ShorthandProperty {
      EntryShorthandProperty();
    } else if t == NodeType.ComputedPropertyName {
      EntryComputedPropertyName();
    } else if t == NodeType.LiteralPropertyName {
      EntryLiteralPropertyName();
    } else if t == NodeType.LiteralBooleanExpression {
      EntryLiteralBooleanExpression();
    } else if t == NodeType.LiteralInfinityExpression {
      EntryLiteralInfinityExpression();
    } else if t == NodeType.LiteralNullExpression {
      EntryLiteralNullExpression();
    } else if t == NodeType.LiteralNumericExpression {
      EntryLiteralNumericExpression();
    } else if t == NodeType.LiteralRegExpExpression {
      EntryLiteralRegExpExpression();
    } else if t == NodeType.LiteralStringExpression {
      EntryLiteralStringExpression();
    }
  }

  lemma NameRoundTripFrom50(t: NodeType)
    requires 50 <= t <= 59
    ensures TypeToName(t).Some? && NameToType(TypeToName(t).value) == Some(t)
  {
    if t == NodeType.ArrayExpression {
      EntryArrayExpression();
    } else if t == NodeType.EagerArrowExpressionWithFunctionBody {
      EntryEagerArrowExpressionWithFunctionBody();
    } else if t == NodeType.LazyArrowExpressionWithFunctionBody {
      EntryLazyArrowExpressionWithFunctionBody();
    } else if t == NodeType.EagerArrowExpressionWithExpression {
      EntryEagerArrowExpressionWithExpression();
    } else if t == NodeType.LazyArrowExpressionWithExpression {
      EntryLazyArrowExpressionWithExpression();
    } else if t == NodeType.ArrowExpressionContentsWithFunctionBody {
      EntryArrowExpressionContentsWithFunctionBody();
    } else if t == NodeType.ArrowExpressionContentsWithExpression {
      EntryArrowExpressionContentsWithExpression();
    } else if t == NodeType.AssignmentExpression {
      EntryAssignmentExpression();
    } else if t == NodeType.BinaryExpression {
      EntryBinaryExpression();
    } else if t == NodeType.CallExpression {
      EntryCallExpression();
    }
  }

  lemma NameRoundTripFrom60(t: NodeType)
    requires 60 <= t <= 69
    ensures TypeToName(t).Some? && NameToType(TypeToName(t).value) == Some(t)
  {
    if t == NodeType.CompoundAssignmentExpression {
      EntryCompoundAssignmentExpression();
    } else if t == NodeType.ComputedMemberExpression {
      EntryComputedMemberExpression();
    } else if t == NodeType.ConditionalExpression {
      EntryConditionalExpression();
    } else if t == NodeType.EagerFunctionExpression {
      EntryEagerFunctionExpression();
    } else if t == NodeType.LazyFunctionExpression {
      EntryLazyFunctionExpression();
    } else if t == NodeType.FunctionExpressionContents {
      EntryFunctionExpressionContents();
    } else if t == NodeType.IdentifierExpression {
      EntryIdentifierExpression();
    } else if t == NodeType.NewExpression {
      EntryNewExpression();
    } else if t == NodeType.NewTargetExpression {
      EntryNewTargetExpression();
    } else if t == NodeType.ObjectExpression {
      EntryObjectExpression();
    }
  }

  lemma NameRoundTripFrom70(t: NodeType)
    requires 70 <= t <= 79
    ensures TypeToName(t).Some? && NameToType(TypeToName(t).value) == Some(t)
  {
    if t == NodeType.UnaryExpression {
      EntryUnaryExpression();
    } else if t == NodeType.StaticMemberExpression {
      EntryStaticMemberExpression();
    } else if t == NodeType.TemplateExpression {
      EntryTemplateExpression();
    } else if t == NodeType.ThisExpression {
      EntryThisExpression();
    } else if t == NodeType.UpdateExpression {
      EntryUpdateExpression();
    } else if t == NodeType.YieldExpression {
      EntryYieldExpression();
    } else if t == NodeType.YieldStarExpression {
      EntryYieldStarExpression();
    } else if t == NodeType.AwaitExpression {
      EntryAwaitExpression();
    } else if t == NodeType.BreakStatement {
      EntryBreakStatement();
    } else if t == NodeType.ContinueStatement {
      EntryContinueStatement();
    }
  }

  lemma NameRoundTripFrom80(t: NodeType)
    requires 80 <= t <= 89
    ensures TypeToName(t).Some? && NameToType(TypeToName(t).value) == Some(t)
  {
    if t == NodeType.DebuggerStatement {
      EntryDebuggerStatement();
    } else if t == NodeType.DoWhileStatement {
      EntryDoWhileStatement();
    } else if t == NodeType.EmptyStatement {
      EntryEmptyStatement();
    } else if t == NodeType.ExpressionStatement {
      EntryExpressionStatement();
    } else if t == NodeType.ForInOfBinding {
      EntryForInOfBinding();
    } else if t == NodeType.ForInStatement {
      EntryForInStatement();
    } else if t == NodeType.ForOfStatement {
      EntryForOfStatement();
    } else if t == NodeType.ForStatement {
      EntryForStatement();
    } else if t == NodeType.IfStatement {
      EntryIfStatement();
    } else if t == NodeType.LabelledStatement {
      EntryLabelledStatement();
    }
  }

  lemma NameRoundTripFrom90(t: NodeType)
    requires 90 <= t <= 99
    ensures TypeToName(t).Some? && NameToType(TypeToName(t).value) == Some(t)
  {
    if t == NodeType.ReturnStatement {
      EntryReturnStatement();
    } else if t == NodeType.SwitchStatement {
      EntrySwitchStatement();
    } else if t == NodeType.SwitchStatementWithDefault {
      EntrySwitchStatementWithDefault();
    } else if t == NodeType.ThrowStatement {
      EntryThrowStatement();
    } else if t == NodeType.TryCatchStatement {
      EntryTryCatchStatement();
    } else if t == NodeType.TryFinallyStatement {
      EntryTryFinallyStatement();
    } else if t == NodeType.WhileStatement {
      EntryWhileStatement();
    } else if t == NodeType.WithStatement {
      EntryWithStatement();
    } else if t == NodeType.Block {
      EntryBlock();
    } else if t == NodeType.CatchClause {
      EntryCatchClause();
    }
  }

  lemma NameRoundTripFrom100(t: NodeType)
    requires 100 <= t <= 109
    ensures TypeToName(t).Some? && NameToType(TypeToName(t).value) == Some(t)
  {
    if t == NodeType.Directive {
      EntryDirective();
    } else if t == NodeType.FormalParameters {
      EntryFormalParameters();
    } else if t == NodeType.EagerFunctionDeclaration {
      EntryEagerFunctionDeclaration();
    } else if t == NodeType.LazyFunctionDeclaration {
      EntryLazyFunctionDeclaration();
    } else if t == NodeType.FunctionOrMethodContents {
      EntryFunctionOrMethodContents();
    } else if t == NodeType.Script {
      EntryScript();
    } else if t == NodeType.SpreadElement {
      EntrySpreadElement();
    } else if t == NodeType.Super {
      EntrySuper();
    } else if t == NodeType.SwitchCase {
      EntrySwitchCase();
    } else if t == NodeType.SwitchDefault {
      EntrySwitchDefault();
    }
  }

  lemma NameRoundTripFrom110(t: NodeType)
    requires 110 <= t <= 112
    ensures TypeToName(t).Some? && NameToType(TypeToName(t).value) == Some(t)
  {
    if t == NodeType.TemplateElement {
      EntryTemplateElement();
    } else if t == NodeType.VariableDeclaration {
      EntryVariableDeclaration();
    } else if t == NodeType.VariableDeclarator {
      EntryVariableDeclarator();
    }
  }

  lemma TypeRoundTripLength5(s: string)
    requires |s| == 5 && NameToType(s).Some?
    ensures Declared(NameToType(s).value) && TypeToName(NameToType(s).value) == Some(s)
  {
    EntryBlock();
    EntrySuper();
  }

  lemma TypeRoundTripLength6(s: string)
    requires |s| == 6 && NameToType(s).Some?
    ensures Declared(NameToType(s).value) && TypeToName(NameToType(s).value) == Some(s)
  {
    EntryModule();
    EntryImport();
    EntryExport();
    EntryScript();
  }

  lemma TypeRoundTripLength9(s: string)
    requires |s| == 9 && NameToType(s).Some?
    ensures Declared(NameToType(s).value) && TypeToName(NameToType(s).value) == Some(s)
  {
    EntryDirective();
  }

  lemma TypeRoundTripLength10(s: string)
    requires |s| == 10 && NameToType(s).Some?
    ensures Declared(NameToType(s).value) && TypeToName(NameToType(s).value) == Some(s)
  {
    EntryExportFrom();
    EntryLazyMethod();
    EntryLazyGetter();
    EntryLazySetter();
    EntrySwitchCase();
  }

  lemma TypeRoundTripLength11(s: string)
    requires |s| == 11 && NameToType(s).Some?
    ensures Declared(NameToType(s).value) && TypeToName(NameToType(s).value) == Some(s)
  {
    EntryEagerMethod();
    EntryEagerGetter();
    EntryEagerSetter();
    EntryIfStatement();
    EntryCatchClause();
  }

  lemma TypeRoundTripLength12(s: string)
    requires |s| == 12 && NameToType(s).Some?
    ensures Declared(NameToType(s).value) && TypeToName(NameToType(s).value) == Some(s)
  {
    EntryArrayBinding();
    EntryClassElement();
    EntryExportLocals();
    EntryDataProperty();
    EntryForStatement();
  }

  lemma TypeRoundTripLength13(s: string)
    requires |s| == 13 && NameToType(s).Some?
    ensures Declared(NameToType(s).value) && TypeToName(NameToType(s).value) == Some(s)
  {
    EntryObjectBinding();
    EntryExportAllFrom();
    EntryExportDefault();
    EntryNewExpression();
    EntryWithStatement();
    EntrySpreadElement();
    EntrySwitchDefault();
  }

  lemma TypeRoundTripLength14(s: string)
    requires |s| == 14 && NameToType(s).Some?
    ensures Declared(NameToType(s).value) && TypeToName(NameToType(s).value) == Some(s)
  {
    EntryGetterContents();
    EntrySetterContents();
    EntryCallExpression();
    EntryThisExpression();
    EntryBreakStatement();
    EntryEmptyStatement();
    EntryForInOfBinding();
    EntryForInStatement();
    EntryForOfStatement();
    EntryThrowStatement();
    EntryWhileStatement();
  }

  lemma TypeRoundTripLength15(s: string)
    requires |s| == 15 && NameToType(s).Some?
    ensures Declared(NameToType(s).value) && TypeToName(NameToType(s).value) == Some(s)
  {
    EntryClassExpression();
    EntryImportNamespace();
    EntryImportSpecifier();
    EntryArrayExpression();
    EntryUnaryExpression();
    EntryYieldExpression();
    EntryAwaitExpression();
    EntryReturnStatement();
    EntrySwitchStatement();
    EntryTemplateElement();
  }

  lemma TypeRoundTripLength16(s: string)
    requires |s| == 16 && NameToType(s).Some?
    ensures Declared(NameToType(s).value) && TypeToName(NameToType(s).value) == Some(s)
  {
    EntryClassDeclaration();
    EntryBinaryExpression();
    EntryObjectExpression();
    EntryUpdateExpression();
    EntryDoWhileStatement();
    EntryFormalParameters();
  }

  lemma TypeRoundTripLength17(s: string)
    requires |s| == 17 && NameToType(s).Some?
    ensures Declared(NameToType(s).value) && TypeToName(NameToType(s).value) == Some(s)
  {
    EntryBindingIdentifier();
    EntryShorthandProperty();
    EntryContinueStatement();
    EntryDebuggerStatement();
    EntryLabelledStatement();
    EntryTryCatchStatement();
  }

  lemma TypeRoundTripLength18(s: string)
    requires |s| == 18 && NameToType(s).Some?
    ensures Declared(NameToType(s).value) && TypeToName(NameToType(s).value) == Some(s)
  {
    EntryTemplateExpression();
    EntryVariableDeclarator();
  }

  lemma TypeRoundTripLength19(s: string)
    requires |s| == 19 && NameToType(s).Some?
    ensures Declared(NameToType(s).value) && TypeToName(NameToType(s).value) == Some(s)
  {
    EntryExportFromSpecifier();
    EntryLiteralPropertyName();
    EntryNewTargetExpression();
    EntryYieldStarExpression();
    EntryExpressionStatement();
    EntryTryFinallyStatement();
    EntryVariableDeclaration();
  }

  lemma TypeRoundTripLength20(s: string)
    requires |s| == 20 && NameToType(s).Some?
    ensures Declared(NameToType(s).value) && TypeToName(NameToType(s).value) == Some(s)
  {
    EntryAssertedDeclaredName();
    EntryExportLocalSpecifier();
    EntryComputedPropertyName();
    EntryAssignmentExpression();
    EntryIdentifierExpression();
  }

  lemma TypeRoundTripLength21(s: string)
    requires |s| == 21 && NameToType(s).Some?
    ensures Declared(NameToType(s).value) && TypeToName(NameToType(s).value) == Some(s)
  {
    EntryAssertedParameterName();
    EntryArrayAssignmentTarget();
    EntryLiteralNullExpression();
    EntryConditionalExpression();
  }

  lemma TypeRoundTripLength22(s: string)
    requires |s| == 22 && NameToType(s).Some?
    ensures Declared(NameToType(s).value) && TypeToName(NameToType(s).value) == Some(s)
  {
    EntryBindingWithInitializer();
    EntryObjectAssignmentTarget();
    EntryLazyFunctionExpression();
    EntryStaticMemberExpression();
  }

  lemma TypeRoundTripLength23(s: string)
    requires |s| == 23 && NameToType(s).Some?
    ensures Declared(NameToType(s).value) && TypeToName(NameToType(s).value) == Some(s)
  {
    EntryBindingPropertyProperty();
    EntryLiteralRegExpExpression();
    EntryLiteralStringExpression();
    EntryEagerFunctionExpression();
    EntryLazyFunctionDeclaration();
  }

  lemma TypeRoundTripLength24(s: string)
    requires |s| == 24 && NameToType(s).Some?
    ensures Declared(NameToType(s).value) && TypeToName(NameToType(s).value) == Some(s)
  {
    EntryLiteralBooleanExpression();
    EntryLiteralNumericExpression();
    EntryComputedMemberExpression();
    EntryEagerFunctionDeclaration();
    EntryFunctionOrMethodContents();
  }

  lemma TypeRoundTripLength25(s: string)
    requires |s| == 25 && NameToType(s).Some?
    ensures Declared(NameToType(s).value) && TypeToName(NameToType(s).value) == Some(s)
  {
    EntryAssertedRestParameterName();
    EntryBindingPropertyIdentifier();
    EntryLiteralInfinityExpression();
  }

  lemma TypeRoundTripLength26(s: string)
    requires |s| == 26 && NameToType(s).Some?
    ensures Declared(NameToType(s).value) && TypeToName(NameToType(s).value) == Some(s)
  {
    EntryAssignmentTargetIdentifier();
    EntryFunctionExpressionContents();
    EntrySwitchStatementWithDefault();
  }

  lemma TypeRoundTripLength28(s: string)
    requires |s| == 28 && NameToType(s).Some?
    ensures Declared(NameToType(s).value) && TypeToName(NameToType(s).value) == Some(s)
  {
    EntryStaticMemberAssignmentTarget();
    EntryCompoundAssignmentExpression();
  }

  lemma TypeRoundTripLength30(s: string)
    requires |s| == 30 && NameToType(s).Some?
    ensures Declared(NameToType(s).value) && TypeToName(NameToType(s).value) == Some(s)
  {
    EntryComputedMemberAssignmentTarget();
  }

  lemma TypeRoundTripLength31(s: string)
    requires |s| == 31 && NameToType(s).Some?
    ensures Declared(NameToType(s).value) && TypeToName(NameToType(s).value) == Some(s)
  {
    EntryAssertedPositionalParameterName();
    EntryAssignmentTargetWithInitializer();
  }

  lemma TypeRoundTripLength32(s: string)
    requires |s| == 32 && NameToType(s).Some?
    ensures Declared(NameToType(s).value) && TypeToName(NameToType(s).value) == Some(s)
  {
    EntryAssignmentTargetPropertyProperty();
  }

  lemma TypeRoundTripLength33(s: string)
    requires |s| == 33 && NameToType(s).Some?
    ensures Declared(NameToType(s).value) && TypeToName(NameToType(s).value) == Some(s)
  {
    EntryLazyArrowExpressionWithExpression();
  }

  lemma TypeRoundTripLength34(s: string)
    requires |s| == 34 && NameToType(s).Some?
    ensures Declared(NameToType(s).value) && TypeToName(NameToType(s).value) == Some(s)
  {
    EntryAssignmentTargetPropertyIdentifier();
    EntryEagerArrowExpressionWithExpression();
  }

  lemma TypeRoundTripLength35(s: string)
    requires |s| == 35 && NameToType(s).Some?
    ensures Declared(NameToType(s).value) && TypeToName(NameToType(s).value) == Some(s)
  {
    EntryLazyArrowExpressionWithFunctionBody();
  }

  lemma TypeRoundTripLength36(s: string)
    requires |s| == 36 && NameToType(s).Some?
    ensures Declared(NameToType(s).value) && TypeToName(NameToType(s).value) == Some(s)
  {
    EntryEagerArrowExpressionWithFunctionBody();
  }

  lemma TypeRoundTripLength37(s: string)
    requires |s| == 37 && NameToType(s).Some?
    ensures Declared(NameToType(s).value) && TypeToName(NameToType(s).value) == Some(s)
  {
    EntryArrowExpressionContentsWithExpression();
  }

  lemma TypeRoundTripLength39(s: string)
    requires |s| == 39 && NameToType(s).Some?
    ensures Declared(NameToType(s).value) && TypeToName(NameToType(s).value) == Some(s)
  {
    EntryArrowExpressionContentsWithFunctionBody();
  }

  lemma EntryAssertedDeclaredName()
    ensures TypeToName(NodeType.AssertedDeclaredName) == Some("AssertedDeclaredName") && NameToType("AssertedDeclaredName") == Some(NodeType.AssertedDeclaredName)
  {
  }

  lemma EntryAssertedPositionalParameterName()
    ensures TypeToName(NodeType.AssertedPositionalParameterName) == Some("AssertedPositionalParameterName") && NameToType("AssertedPositionalParameterName") == Some(NodeType.AssertedPositionalParameterName)
  {
  }

  lemma EntryAssertedRestParameterName()
    ensures TypeToName(NodeType.AssertedRestParameterName) == Some("AssertedRestParameterName") && NameToType("AssertedRestParameterName") == Some(NodeType.AssertedRestParameterName)
  {
  }

  lemma EntryAssertedParameterName()
    ensures TypeToName(NodeType.AssertedParameterName) == Some("AssertedParameterName") && NameToType("AssertedParameterName") == Some(NodeType.AssertedParameterName)
  {
  }

  lemma EntryBindingIdentifier()
    ensures TypeToName(NodeType.BindingIdentifier) == Some("BindingIdentifier") && NameToType("BindingIdentifier") == Some(NodeType.BindingIdentifier)
  {
  }

  lemma EntryBindingWithInitializer()
    ensures TypeToName(NodeType.BindingWithInitializer) == Some("BindingWithInitializer") && NameToType("BindingWithInitializer") == Some(NodeType.BindingWithInitializer)
  {
  }

  lemma EntryAssignmentTargetIdentifier()
    ensures TypeToName(NodeType.AssignmentTargetIdentifier) == Some("AssignmentTargetIdentifier") && NameToType("AssignmentTargetIdentifier") == Some(NodeType.AssignmentTargetIdentifier)
  {
  }

  lemma EntryComputedMemberAssignmentTarget()
    ensures TypeToName(NodeType.ComputedMemberAssignmentTarget) == Some("ComputedMemberAssignmentTarget") && NameToType("ComputedMemberAssignmentTarget") == Some(NodeType.ComputedMemberAssignmentTarget)
  {
  }

  lemma EntryStaticMemberAssignmentTarget()
    ensures TypeToName(NodeType.StaticMemberAssignmentTarget) == Some("StaticMemberAssignmentTarget") && NameToType("StaticMemberAssignmentTarget") == Some(NodeType.StaticMemberAssignmentTarget)
  {
  }

  lemma EntryArrayBinding()
    ensures TypeToName(NodeType.ArrayBinding) == Some("ArrayBinding") && NameToType("ArrayBinding") == Some(NodeType.ArrayBinding)
  {
  }

  lemma EntryBindingPropertyIdentifier()
    ensures TypeToName(NodeType.BindingPropertyIdentifier) == Some("BindingPropertyIdentifier") && NameToType("BindingPropertyIdentifier") == Some(NodeType.BindingPropertyIdentifier)
  {
  }

  lemma EntryBindingPropertyProperty()
    ensures TypeToName(NodeType.BindingPropertyProperty) == Some("BindingPropertyProperty") && NameToType("BindingPropertyProperty") == Some(NodeType.BindingPropertyProperty)
  {
  }

  lemma EntryObjectBinding()
    ensures TypeToName(NodeType.ObjectBinding) == Some("ObjectBinding") && NameToType("ObjectBinding") == Some(NodeType.ObjectBinding)
  {
  }

  lemma EntryAssignmentTargetWithInitializer()
    ensures TypeToName(NodeType.AssignmentTargetWithInitializer) == Some("AssignmentTargetWithInitializer") && NameToType("AssignmentTargetWithInitializer") == Some(NodeType.AssignmentTargetWithInitializer)
  {
  }

  lemma EntryArrayAssignmentTarget()
    ensures TypeToName(NodeType.ArrayAssignmentTarget) == Some("ArrayAssignmentTarget") && NameToType("ArrayAssignmentTarget") == Some(NodeType.ArrayAssignmentTarget)
  {
  }

  lemma EntryAssignmentTargetPropertyIdentifier()
    ensures TypeToName(NodeType.AssignmentTargetPropertyIdentifier) == Some("AssignmentTargetPropertyIdentifier") && NameToType("AssignmentTargetPropertyIdentifier") == Some(NodeType.AssignmentTargetPropertyIdentifier)
  {
  }

  lemma EntryAssignmentTargetPropertyProperty()
    ensures TypeToName(NodeType.AssignmentTargetPropertyProperty) == Some("AssignmentTargetPropertyProperty") && NameToType("AssignmentTargetPropertyProperty") == Some(NodeType.AssignmentTargetPropertyProperty)
  {
  }

  lemma EntryObjectAssignmentTarget()
    ensures TypeToName(NodeType.ObjectAssignmentTarget) == Some("ObjectAssignmentTarget") && NameToType("ObjectAssignmentTarget") == Some(NodeType.ObjectAssignmentTarget)
  {
  }

  lemma EntryClassExpression()
    ensures TypeToName(NodeType.ClassExpression) == Some("ClassExpression") && NameToType("ClassExpression") == Some(NodeType.ClassExpression)
  {
  }

  lemma EntryClassDeclaration()
    ensures TypeToName(NodeType.ClassDeclaration) == Some("ClassDeclaration") && NameToType("ClassDeclaration") == Some(NodeType.ClassDeclaration)
  {
  }

  lemma EntryClassElement()
    ensures TypeToName(NodeType.ClassElement) == Some("ClassElement") && NameToType("ClassElement") == Some(NodeType.ClassElement)
  {
  }

  lemma EntryModule()
    ensures TypeToName(NodeType.Module) == Some("Module") && NameToType("Module") == Some(NodeType.Module)
  {
  }

  lemma EntryImport()
    ensures TypeToName(NodeType.Import) == Some("Import") && NameToType("Import") == Some(NodeType.Import)
  {
  }

  lemma EntryImportNamespace()
    ensures TypeToName(NodeType.ImportNamespace) == Some("ImportNamespace") && NameToType("ImportNamespace") == Some(NodeType.ImportNamespace)
  {
  }

  lemma EntryImportSpecifier()
    ensures TypeToName(NodeType.ImportSpecifier) == Some("ImportSpecifier") && NameToType("ImportSpecifier") == Some(NodeType.ImportSpecifier)
  {
  }

  lemma EntryExportAllFrom()
    ensures TypeToName(NodeType.ExportAllFrom) == Some("ExportAllFrom") && NameToType("ExportAllFrom") == Some(NodeType.ExportAllFrom)
  {
  }

  lemma EntryExportFrom()
    ensures TypeToName(NodeType.ExportFrom) == Some("ExportFrom") && NameToType("ExportFrom") == Some(NodeType.ExportFrom)
  {
  }

  lemma EntryExportLocals()
    ensures TypeToName(NodeType.ExportLocals) == Some("ExportLocals") && NameToType("ExportLocals") == Some(NodeType.ExportLocals)
  {
  }

  lemma EntryExport()
    ensures TypeToName(NodeType.Export) == Some("Export") && NameToType("Export") == Some(NodeType.Export)
  {
  }

  lemma EntryExportDefault()
    ensures TypeToName(NodeType.ExportDefault) == Some("ExportDefault") && NameToType("ExportDefault") == Some(NodeType.ExportDefault)
  {
  }

  lemma EntryExportFromSpecifier()
    ensures TypeToName(NodeType.ExportFromSpecifier) == Some("ExportFromSpecifier") && NameToType("ExportFromSpecifier") == Some(NodeType.ExportFromSpecifier)
  {
  }

  lemma EntryExportLocalSpecifier()
    ensures TypeToName(NodeType.ExportLocalSpecifier) == Some("ExportLocalSpecifier") && NameToType("ExportLocalSpecifier") == Some(NodeType.ExportLocalSpecifier)
  {
  }

  lemma EntryEagerMethod()
    ensures TypeToName(NodeType.EagerMethod) == Some("EagerMethod") && NameToType("EagerMethod") == Some(NodeType.EagerMethod)
  {
  }

  lemma EntryLazyMethod()
    ensures TypeToName(NodeType.LazyMethod) == Some("LazyMethod") && NameToType("LazyMethod") == Some(NodeType.LazyMethod)
  {
  }

  lemma EntryEagerGetter()
    ensures TypeToName(NodeType.EagerGetter) == Some("EagerGetter") && NameToType("EagerGetter") == Some(NodeType.EagerGetter)
  {
  }

  lemma EntryLazyGetter()
    ensures TypeToName(NodeType.LazyGetter) == Some("LazyGetter") && NameToType("LazyGetter") == Some(NodeType.LazyGetter)
  {
  }

  lemma EntryGetterContents()
    ensures TypeToName(NodeType.GetterContents) == Some("GetterContents") && NameToType("GetterContents") == Some(NodeType.GetterContents)
  {
  }

  lemma EntryEagerSetter()
    ensures TypeToName(NodeType.EagerSetter) == Some("EagerSetter") && NameToType("EagerSetter") == Some(NodeType.EagerSetter)
  {
  }

  lemma EntryLazySetter()
    ensures TypeToName(NodeType.LazySetter) == Some("LazySetter") && NameToType("LazySetter") == Some(NodeType.LazySetter)
  {
  }

  lemma EntrySetterContents()
    ensures TypeToName(NodeType.SetterContents) == Some("SetterContents") && NameToType("SetterContents") == Some(NodeType.SetterContents)
  {
  }

  lemma EntryDataProperty()
    ensures TypeToName(NodeType.DataProperty) == Some("DataProperty") && NameToType("DataProperty") == Some(NodeType.DataProperty)
  {
  }

  lemma EntryShorthandProperty()
    ensures TypeToName(NodeType.ShorthandProperty) == Some("ShorthandProperty") && NameToType("ShorthandProperty") == Some(NodeType.ShorthandProperty)
  {
  }

  lemma EntryComputedPropertyName()
    ensures TypeToName(NodeType.ComputedPropertyName) == Some("ComputedPropertyName") && NameToType("ComputedPropertyName") == Some(NodeType.ComputedPropertyName)
  {
  }

  lemma EntryLiteralPropertyName()
    ensures TypeToName(NodeType.LiteralPropertyName) == Some("LiteralPropertyName") && NameToType("LiteralPropertyName") == Some(NodeType.LiteralPropertyName)
  {
  }

  lemma EntryLiteralBooleanExpression()
    ensures TypeToName(NodeType.LiteralBooleanExpression) == Some("LiteralBooleanExpression") && NameToType("LiteralBooleanExpression") == Some(NodeType.LiteralBooleanExpression)
  {
  }

  lemma EntryLiteralInfinityExpression()
    ensures TypeToName(NodeType.LiteralInfinityExpression) == Some("LiteralInfinityExpression") && NameToType("LiteralInfinityExpression") == Some(NodeType.LiteralInfinityExpression)
  {
  }

  lemma EntryLiteralNullExpression()
    ensures TypeToName(NodeType.LiteralNullExpression) == Some("LiteralNullExpression") && NameToType("LiteralNullExpression") == Some(NodeType.LiteralNullExpression)
  {
  }

  lemma EntryLiteralNumericExpression()
    ensures TypeToName(NodeType.LiteralNumericExpression) == Some("LiteralNumericExpression") && NameToType("LiteralNumericExpression") == Some(NodeType.LiteralNumericExpression)
  {
  }

  lemma EntryLiteralRegExpExpression()
    ensures TypeToName(NodeType.LiteralRegExpExpression) == Some("LiteralRegExpExpression") && NameToType("LiteralRegExpExpression") == Some(NodeType.LiteralRegExpExpression)
  {
  }

  lemma EntryLiteralStringExpression()
    ensures TypeToName(NodeType.LiteralStringExpression) == Some("LiteralStringExpression") && NameToType("LiteralStringExpression") == Some(NodeType.LiteralStringExpression)
  {
  }

  lemma EntryArrayExpression()
    ensures TypeToName(NodeType.ArrayExpression) == Some("ArrayExpression") && NameToType("ArrayExpression") == Some(NodeType.ArrayExpression)
  {
  }

  lemma EntryEagerArrowExpressionWithFunctionBody()
    ensures TypeToName(NodeType.EagerArrowExpressionWithFunctionBody) == Some("EagerArrowExpressionWithFunctionBody") && NameToType("EagerArrowExpressionWithFunctionBody") == Some(NodeType.EagerArrowExpressionWithFunctionBody)
  {
  }

  lemma EntryLazyArrowExpressionWithFunctionBody()
    ensures TypeToName(NodeType.LazyArrowExpressionWithFunctionBody) == Some("LazyArrowExpressionWithFunctionBody") && NameToType("LazyArrowExpressionWithFunctionBody") == Some(NodeType.LazyArrowExpressionWithFunctionBody)
  {
  }

  lemma EntryEagerArrowExpressionWithExpression()
    ensures TypeToName(NodeType.EagerArrowExpressionWithExpression) == Some("EagerArrowExpressionWithExpression") && NameToType("EagerArrowExpressionWithExpression") == Some(NodeType.EagerArrowExpressionWithExpression)
  {
  }

  lemma EntryLazyArrowExpressionWithExpression()
    ensures TypeToName(NodeType.LazyArrowExpressionWithExpression) == Some("LazyArrowExpressionWithExpression") && NameToType("LazyArrowExpressionWithExpression") == Some(NodeType.LazyArrowExpressionWithExpression)
  {
  }

  lemma EntryArrowExpressionContentsWithFunctionBody()
    ensures TypeToName(NodeType.ArrowExpressionContentsWithFunctionBody) == Some("ArrowExpressionContentsWithFunctionBody") && NameToType("ArrowExpressionContentsWithFunctionBody") == Some(NodeType.ArrowExpressionContentsWithFunctionBody)
  {
  }

  lemma EntryArrowExpressionContentsWithExpression()
    ensures TypeToName(NodeType.ArrowExpressionContentsWithExpression) == Some("ArrowExpressionContentsWithExpression") && NameToType("ArrowExpressionContentsWithExpression") == Some(NodeType.ArrowExpressionContentsWithExpression)
  {
  }

  lemma EntryAssignmentExpression()
    ensures TypeToName(NodeType.AssignmentExpression) == Some("AssignmentExpression") && NameToType("AssignmentExpression") == Some(NodeType.AssignmentExpression)
  {
  }

  lemma EntryBinaryExpression()
    ensures TypeToName(NodeType.BinaryExpression) == Some("BinaryExpression") && NameToType("BinaryExpression") == Some(NodeType.BinaryExpression)
  {
  }

  lemma EntryCallExpression()
    ensures TypeToName(NodeType.CallExpression) == Some("CallExpression") && NameToType("CallExpression") == Some(NodeType.CallExpression)
  {
  }

  lemma EntryCompoundAssignmentExpression()
    ensures TypeToName(NodeType.CompoundAssignmentExpression) == Some("CompoundAssignmentExpression") && NameToType("CompoundAssignmentExpression") == Some(NodeType.CompoundAssignmentExpression)
  {
  }

  lemma EntryComputedMemberExpression()
    ensures TypeToName(NodeType.ComputedMemberExpression) == Some("ComputedMemberExpression") && NameToType("ComputedMemberExpression") == Some(NodeType.ComputedMemberExpression)
  {
  }

  lemma EntryConditionalExpression()
    ensures TypeToName(NodeType.ConditionalExpression) == Some("ConditionalExpression") && NameToType("ConditionalExpression") == Some(NodeType.ConditionalExpression)
  {
  }

  lemma EntryEagerFunctionExpression()
    ensures TypeToName(NodeType.EagerFunctionExpression) == Some("EagerFunctionExpression") && NameToType("EagerFunctionExpression") == Some(NodeType.EagerFunctionExpression)
  {
  }

  lemma EntryLazyFunctionExpression()
    ensures TypeToName(NodeType.LazyFunctionExpression) == Some("LazyFunctionExpression") && NameToType("LazyFunctionExpression") == Some(NodeType.LazyFunctionExpression)
  {
  }

  lemma EntryFunctionExpressionContents()
    ensures TypeToName(NodeType.FunctionExpressionContents) == Some("FunctionExpressionContents") && NameToType("FunctionExpressionContents") == Some(NodeType.FunctionExpressionContents)
  {
  }

  lemma EntryIdentifierExpression()
    ensures TypeToName(NodeType.IdentifierExpression) == Some("IdentifierExpression") && NameToType("IdentifierExpression") == Some(NodeType.IdentifierExpression)
  {
  }

  lemma EntryNewExpression()
    ensures TypeToName(NodeType.NewExpression) == Some("NewExpression") && NameToType("NewExpression") == Some(NodeType.NewExpression)
  {
  }

  lemma EntryNewTargetExpression()
    ensures TypeToName(NodeType.NewTargetExpression) == Some("NewTargetExpression") && NameToType("NewTargetExpression") == Some(NodeType.NewTargetExpression)
  {
  }

  lemma EntryObjectExpression()
    ensures TypeToName(NodeType.ObjectExpression) == Some("ObjectExpression") && NameToType("ObjectExpression") == Some(NodeType.ObjectExpression)
  {
  }

  lemma EntryUnaryExpression()
    ensures TypeToName(NodeType.UnaryExpression) == Some("UnaryExpression") && NameToType("UnaryExpression") == Some(NodeType.UnaryExpression)
  {
  }

  lemma EntryStaticMemberExpression()
    ensures TypeToName(NodeType.StaticMemberExpression) == Some("StaticMemberExpression") && NameToType("StaticMemberExpression") == Some(NodeType.StaticMemberExpression)
  {
  }

  lemma EntryTemplateExpression()
    ensures TypeToName(NodeType.TemplateExpression) == Some("TemplateExpression") && NameToType("TemplateExpression") == Some(NodeType.TemplateExpression)
  {
  }

  lemma EntryThisExpression()
    ensures TypeToName(NodeType.ThisExpression) == Some("ThisExpression") && NameToType("ThisExpression") == Some(NodeType.ThisExpression)
  {
  }

  lemma EntryUpdateExpression()
    ensures TypeToName(NodeType.UpdateExpression) == Some("UpdateExpression") && NameToType("UpdateExpression") == Some(NodeType.UpdateExpression)
  {
  }

  lemma EntryYieldExpression()
    ensures TypeToName(NodeType.YieldExpression) == Some("YieldExpression") && NameToType("YieldExpression") == Some(NodeType.YieldExpression)
  {
  }

  lemma EntryYieldStarExpression()
    ensures TypeToName(NodeType.YieldStarExpression) == Some("YieldStarExpression") && NameToType("YieldStarExpression") == Some(NodeType.YieldStarExpression)
  {
  }

  lemma EntryAwaitExpression()
    ensures TypeToName(NodeType.AwaitExpression) == Some("AwaitExpression") && NameToType("AwaitExpression") == Some(NodeType.AwaitExpression)
  {
  }

  lemma EntryBreakStatement()
    ensures TypeToName(NodeType.BreakStatement) == Some("BreakStatement") && NameToType("BreakStatement") == Some(NodeType.BreakStatement)
  {
  }

  lemma EntryContinueStatement()
    ensures TypeToName(NodeType.ContinueStatement) == Some("ContinueStatement") && NameToType("ContinueStatement") == Some(NodeType.ContinueStatement)
  {
  }

  lemma EntryDebuggerStatement()
    ensures TypeToName(NodeType.DebuggerStatement) == Some("DebuggerStatement") && NameToType("DebuggerStatement") == Some(NodeType.DebuggerStatement)
  {
  }

  lemma EntryDoWhileStatement()
    ensures TypeToName(NodeType.DoWhileStatement) == Some("DoWhileStatement") && NameToType("DoWhileStatement") == Some(NodeType.DoWhileStatement)
  {
  }

  lemma EntryEmptyStatement()
    ensures TypeToName(NodeType.EmptyStatement) == Some("EmptyStatement") && NameToType("EmptyStatement") == Some(NodeType.EmptyStatement)
  {
  }

  lemma EntryExpressionStatement()
    ensures TypeToName(NodeType.ExpressionStatement) == Some("ExpressionStatement") && NameToType("ExpressionStatement") == Some(NodeType.ExpressionStatement)
  {
  }

  lemma EntryForInOfBinding()
    ensures TypeToName(NodeType.ForInOfBinding) == Some("ForInOfBinding") && NameToType("ForInOfBinding") == Some(NodeType.ForInOfBinding)
  {
  }

  lemma EntryForInStatement()
    ensures TypeToName(NodeType.ForInStatement) == Some("ForInStatement") && NameToType("ForInStatement") == Some(NodeType.ForInStatement)
  {
  }

  lemma EntryForOfStatement()
    ensures TypeToName(NodeType.ForOfStatement) == Some("ForOfStatement") && NameToType("ForOfStatement") == Some(NodeType.ForOfStatement)
  {
  }

  lemma EntryForStatement()
    ensures TypeToName(NodeType.ForStatement) == Some("ForStatement") && NameToType("ForStatement") == Some(NodeType.ForStatement)
  {
  }

  lemma EntryIfStatement()
    ensures TypeToName(NodeType.IfStatement) == Some("IfStatement") && NameToType("IfStatement") == Some(NodeType.IfStatement)
  {
  }

  lemma EntryLabelledStatement()
    ensures TypeToName(NodeType.LabelledStatement) == Some("LabelledStatement") && NameToType("LabelledStatement") == Some(NodeType.LabelledStatement)
  {
  }

  lemma EntryReturnStatement()
    ensures TypeToName(NodeType.ReturnStatement) == Some("ReturnStatement") && NameToType("ReturnStatement") == Some(NodeType.ReturnStatement)
  {
  }

  lemma EntrySwitchStatement()
    ensures TypeToName(NodeType.SwitchStatement) == Some("SwitchStatement") && NameToType("SwitchStatement") == Some(NodeType.SwitchStatement)
  {
  }

  lemma EntrySwitchStatementWithDefault()
    ensures TypeToName(NodeType.SwitchStatementWithDefault) == Some("SwitchStatementWithDefault") && NameToType("SwitchStatementWithDefault") == Some(NodeType.SwitchStatementWithDefault)
  {
  }

  lemma EntryThrowStatement()
    ensures TypeToName(NodeType.ThrowStatement) == Some("ThrowStatement") && NameToType("ThrowStatement") == Some(NodeType.ThrowStatement)
  {
  }

  lemma EntryTryCatchStatement()
    ensures TypeToName(NodeType.TryCatchStatement) == Some("TryCatchStatement") && NameToType("TryCatchStatement") == Some(NodeType.TryCatchStatement)
  {
  }

  lemma EntryTryFinallyStatement()
    ensures TypeToName(NodeType.TryFinallyStatement) == Some("TryFinallyStatement") && NameToType("TryFinallyStatement") == Some(NodeType.TryFinallyStatement)
  {
  }

  lemma EntryWhileStatement()
    ensures TypeToName(NodeType.WhileStatement) == Some("WhileStatement") && NameToType("WhileStatement") == Some(NodeType.WhileStatement)
  {
  }

  lemma EntryWithStatement()
    ensures TypeToName(NodeType.WithStatement) == Some("WithStatement") && NameToType("WithStatement") == Some(NodeType.WithStatement)
  {
  }

  lemma EntryBlock()
    ensures TypeToName(NodeType.Block) == Some("Block") && NameToType("Block") == Some(NodeType.Block)
  {
  }

  lemma EntryCatchClause()
    ensures TypeToName(NodeType.CatchClause) == Some("CatchClause") && NameToType("CatchClause") == Some(NodeType.CatchClause)
  {
  }

  lemma EntryDirective()
    ensures TypeToName(NodeType.Directive) == Some("Directive") && NameToType("Directive") == Some(NodeType.Directive)
  {
  }

  lemma EntryFormalParameters()
    ensures TypeToName(NodeType.FormalParameters) == Some("FormalParameters") && NameToType("FormalParameters") == Some(NodeType.FormalParameters)
  {
  }

  lemma EntryEagerFunctionDeclaration()
    ensures TypeToName(NodeType.EagerFunctionDeclaration) == Some("EagerFunctionDeclaration") && NameToType("EagerFunctionDeclaration") == Some(NodeType.EagerFunctionDeclaration)
  {
  }

  lemma EntryLazyFunctionDeclaration()
    ensures TypeToName(NodeType.LazyFunctionDeclaration) == Some("LazyFunctionDeclaration") && NameToType("LazyFunctionDeclaration") == Some(NodeType.LazyFunctionDeclaration)
  {
  }

  lemma EntryFunctionOrMethodContents()
    ensures TypeToName(NodeType.FunctionOrMethodContents) == Some("FunctionOrMethodContents") && NameToType("FunctionOrMethodContents") == Some(NodeType.FunctionOrMethodContents)
  {
  }

  lemma EntryScript()
    ensures TypeToName(NodeType.Script) == Some("Script") && NameToType("Script") == Some(NodeType.Script)
  {
  }

  lemma EntrySpreadElement()
    ensures TypeToName(NodeType.SpreadElement) == Some("SpreadElement") && NameToType("SpreadElement") == Some(NodeType.SpreadElement)
  {
  }

  lemma EntrySuper()
    ensures TypeToName(NodeType.Super) == Some("Super") && NameToType("Super") == Some(NodeType.Super)
  {
  }

  lemma EntrySwitchCase()
    ensures TypeToName(NodeType.SwitchCase) == Some("SwitchCase") && NameToType("SwitchCase") == Some(NodeType.SwitchCase)
  {
  }

  lemma EntrySwitchDefault()
    ensures TypeToName(NodeType.SwitchDefault) == Some("SwitchDefault") && NameToType("SwitchDefault") == Some(NodeType.SwitchDefault)
  {
  }

  lemma EntryTemplateElement()
    ensures TypeToName(NodeType.TemplateElement) == Some("TemplateElement") && NameToType("TemplateElement") == Some(NodeType.TemplateElement)
  {
  }

  lemma EntryVariableDeclaration()
    ensures TypeToName(NodeType.VariableDeclaration) == Some("VariableDeclaration") && NameToType("VariableDeclaration") == Some(NodeType.VariableDeclaration)
  {
  }

  lemma EntryVariableDeclarator()
    ensures TypeToName(NodeType.VariableDeclarator) == Some("VariableDeclarator") && NameToType("VariableDeclarator") == Some(NodeType.VariableDeclarator)
  {
  }
}
