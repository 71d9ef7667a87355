/**
 * The small enumerations of the node catalogue (src/types.ts) and the
 * `Variant` values the parser reads for them.
 */
module Kinds {
  import opened Results

  /** `enum VariableDeclarationKind`: a string enumeration. */
  datatype VariableDeclarationKind = Var | Let | Const {
    /** The string value the enumeration assigns to this member. */
    function Value(): string {
      match this
      case Var => "var"
      case Let => "let"
      case Const => "const"
    }
  }

  /** The member whose value is `s`, if there is one. */
  function VariableDeclarationKindOf(s: string): (r: Option<VariableDeclarationKind>)
    ensures r.Some? ==> r.value.Value() == s
  {
    if s == "var" then Some(VariableDeclarationKind.Var)
    else if s == "let" then Some(VariableDeclarationKind.Let)
    else if s == "const" then Some(VariableDeclarationKind.Const)
    else None
  }

  /** The three values are pairwise distinct, so each member is recovered from its value. */
  lemma VariableDeclarationKindValues(k: VariableDeclarationKind, s: string)
    ensures VariableDeclarationKindOf(s) == Some(k) <==> k.Value() == s
  {
  }

  /** `enum AssertedDeclaredKind`: a string enumeration. */
  datatype AssertedDeclaredKind = Var | NonConstLexical | ConstLexical {
    /** The string value the enumeration assigns to this member. */
    function Value(): string {
      match this
      case Var => "var"
      case NonConstLexical => "non-const lexical"
      case ConstLexical => "const lexical"
    }

    /** A lexical (`let`-like or `const`-like) declaration. */
    predicate IsLexical() {
      NonConstLexical? || ConstLexical?
    }
  }

  /** The member whose value is `s`, if there is one. */
  function AssertedDeclaredKindOf(s: string): (r: Option<AssertedDeclaredKind>)
    ensures r.Some? ==> r.value.Value() == s
  {
    if s == "var" then Some(AssertedDeclaredKind.Var)
    else if s == "non-const lexical" then Some(AssertedDeclaredKind.NonConstLexical)
    else if s == "const lexical" then Some(AssertedDeclaredKind.ConstLexical)
    else None
  }

  /** The three values are pairwise distinct, so each member is recovered from its value. */
  lemma AssertedDeclaredKindValues(k: AssertedDeclaredKind, s: string)
    ensures AssertedDeclaredKindOf(s) == Some(k) <==> k.Value() == s
  {
  }

  /**
   * The interned variant names the parser compares against. One variant,
   * `AssertedDeclaredKindOrVariableDeclarationKindVar`, stands for `var` in
   * both enumerations above.
   */
  datatype Variant =
      AssertedDeclaredKindOrVariableDeclarationKindVar
    | ConstLexical
    | NonConstLexical
    | Let
    | Const

  /** The variant that `parseAssertedDeclaredKind` maps to `k`. */
  function DeclaredKindVariant(k: AssertedDeclaredKind): Variant {
    match k
    case Var => Variant.AssertedDeclaredKindOrVariableDeclarationKindVar
    case NonConstLexical => Variant.NonConstLexical
    case ConstLexical => Variant.ConstLexical
  }

  /** The variant that `parseVariableDeclarationKind` maps to `k`. */
  function DeclarationKindVariant(k: VariableDeclarationKind): Variant {
    match k
    case Var => Variant.AssertedDeclaredKindOrVariableDeclarationKindVar
    case Let => Variant.Let
    case Const => Variant.Const
  }
}
