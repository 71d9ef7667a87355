/**
 * The reader the parser pulls primitives from (`./reader` in the source), as a
 * cursor over already decoded items. Each method consumes exactly the one item
 * it reads, or fails and leaves the cursor where it was.
 */
module Reading {
  import opened Results
  import opened Kinds
  import opened NodeTypes
  import Wire

  class Reader {
    /** The primitives of the input, in order. */
    const items: seq<Wire.Item>
    /** The cursor: the index of the next item to read. */
    var pos: nat

    constructor (items: seq<Wire.Item>)
      ensures this.items == items && pos == 0
    {
      this.items := items;
      pos := 0;
    }

    /** `readHeader`. */
    method ReadHeader() returns (r: Result<()>)
      modifies this
      ensures Wire.Outcome(r, pos) == Wire.ReadHeader(items, old(pos))
      ensures r.Ok? <==> old(pos) < |items| && items[old(pos)].HeaderItem?
      ensures pos == if r.Ok? then old(pos) + 1 else old(pos)
    {
      if pos < |items| && items[pos].HeaderItem? {
        pos := pos + 1;
        return Ok(());
      }
      return Err;
    }

    /** `enterTaggedTuple`: the tag of the tuple at the cursor. */
    method EnterTaggedTuple() returns (r: Result<NodeType>)
      modifies this
      ensures Wire.Outcome(r, pos) == Wire.EnterTaggedTuple(items, old(pos))
      ensures r.Ok? <==> old(pos) < |items| && items[old(pos)].TagItem?
      ensures r.Ok? ==> r.value == items[old(pos)].kind
      ensures pos == if r.Ok? then old(pos) + 1 else old(pos)
    {
      if pos < |items| && items[pos].TagItem? {
        var kind := items[pos].kind;
        pos := pos + 1;
        return Ok(kind);
      }
      return Err;
    }

    /** `readVarnum`. */
    method ReadVarnum() returns (r: Result<nat>)
      modifies this
      ensures Wire.Outcome(r, pos) == Wire.ReadVarnum(items, old(pos))
      ensures r.Ok? <==> old(pos) < |items| && items[old(pos)].NumItem?
      ensures r.Ok? ==> r.value == items[old(pos)].n
      ensures pos == if r.Ok? then old(pos) + 1 else old(pos)
    {
      if pos < |items| && items[pos].NumItem? {
        var n := items[pos].n;
        pos := pos + 1;
        return Ok(n);
      }
      return Err;
    }

    /** `readBoolean`. */
    method ReadBoolean() returns (r: Result<bool>)
      modifies this
      ensures Wire.Outcome(r, pos) == Wire.ReadBoolean(items, old(pos))
      ensures r.Ok? <==> old(pos) < |items| && items[old(pos)].BoolItem?
      ensures r.Ok? ==> r.value == items[old(pos)].b
      ensures pos == if r.Ok? then old(pos) + 1 else old(pos)
    {
      if pos < |items| && items[pos].BoolItem? {
        var b := items[pos].b;
        pos := pos + 1;
        return Ok(b);
      }
      return Err;
    }

    /** `readAtom` and `readIdentifierName`: an interned string. */
    method ReadString() returns (r: Result<string>)
      modifies this
      ensures Wire.Outcome(r, pos) == Wire.ReadString(items, old(pos))
      ensures r.Ok? <==> old(pos) < |items| && items[old(pos)].StringItem?
      ensures r.Ok? ==> r.value == items[old(pos)].s
      ensures pos == if r.Ok? then old(pos) + 1 else old(pos)
    {
      if pos < |items| && items[pos].StringItem? {
        var s := items[pos].s;
        pos := pos + 1;
        return Ok(s);
      }
      return Err;
    }

    /** `readVariant`. */
    method ReadVariant() returns (r: Result<Variant>)
      modifies this
      ensures Wire.Outcome(r, pos) == Wire.ReadVariant(items, old(pos))
      ensures r.Ok? <==> old(pos) < |items| && items[old(pos)].VariantItem?
      ensures r.Ok? ==> r.value == items[old(pos)].v
      ensures pos == if r.Ok? then old(pos) + 1 else old(pos)
    {
      if pos < |items| && items[pos].VariantItem? {
        var v := items[pos].v;
        pos := pos + 1;
        return Ok(v);
      }
      return Err;
    }

    /** The cursor restore at the end of `lookAhead`. */
    method Rewind(saved: nat)
      modifies this
      ensures pos == saved
    {
      pos := saved;
    }
  }
}
