/**
 * The decoded input as the parser sees it. The multipart reader and its tables
 * are not part of this model: the input is taken to be already split into
 * primitive items, and each reader primitive consumes exactly one item of its
 * own kind or fails.
 */
module Wire {
  import opened Results
  import opened Kinds
  import opened NodeTypes

  /** One primitive of the input. */
  datatype Item =
      HeaderItem                  // the file header (magic and version)
    | TagItem(kind: NodeType)     // a tagged tuple, entered by its tag
    | NumItem(n: nat)             // a varnum
    | BoolItem(b: bool)           // a boolean
    | StringItem(s: string)       // an atom or an identifier name
    | VariantItem(v: Variant)     // an interned variant

  /** A decoded value together with the cursor position just after it. */
  datatype Decoded<T> = Decoded(node: T, next: nat)

  /** How many items are left from `pos`; the termination measure of decoding. */
  function Remaining(items: seq<Item>, pos: nat): nat {
    if pos <= |items| then |items| - pos else 0
  }

  /** A value `r` left the cursor at `pos`: the shape a decoding method reports. */
  function Outcome<T>(r: Result<T>, pos: nat): Result<Decoded<T>> {
    if r.Ok? then Ok(Decoded(r.value, pos)) else Err
  }

  /** `readHeader`. */
  function ReadHeader(items: seq<Item>, pos: nat): Result<Decoded<()>> {
    if pos < |items| && items[pos].HeaderItem? then Ok(Decoded((), pos + 1)) else Err
  }

  /** `enterTaggedTuple`: the tag of the tuple that starts at `pos`. */
  function EnterTaggedTuple(items: seq<Item>, pos: nat): Result<Decoded<NodeType>> {
    if pos < |items| && items[pos].TagItem? then Ok(Decoded(items[pos].kind, pos + 1)) else Err
  }

  /** `readVarnum`. */
  function ReadVarnum(items: seq<Item>, pos: nat): Result<Decoded<nat>> {
    if pos < |items| && items[pos].NumItem? then Ok(Decoded(items[pos].n, pos + 1)) else Err
  }

  /** `readBoolean`. */
  function ReadBoolean(items: seq<Item>, pos: nat): Result<Decoded<bool>> {
    if pos < |items| && items[pos].BoolItem? then Ok(Decoded(items[pos].b, pos + 1)) else Err
  }

  /** `readAtom` and `readIdentifierName`: both read an interned string. */
  function ReadString(items: seq<Item>, pos: nat): Result<Decoded<string>> {
    if pos < |items| && items[pos].StringItem? then Ok(Decoded(items[pos].s, pos + 1)) else Err
  }

  /** `readVariant`. */
  function ReadVariant(items: seq<Item>, pos: nat): Result<Decoded<Variant>> {
    if pos < |items| && items[pos].VariantItem? then Ok(Decoded(items[pos].v, pos + 1)) else Err
  }
}
