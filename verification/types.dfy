/** The classification of head bytes that every parser of the package rests on. */
module Types {
  import opened Bytes

  datatype Type = Invalid | Nil | Bool | Int | Uint | Float | Str | Bin | Ext | Array | Map

  /** What the lookup tables say of one head byte. When isValueLength is false, length counts the
      bytes that follow the head and spell the value's length. */
  datatype Head = Head(typ: Type, length: nat, isValueLength: bool)

  function Get(c: byte): Head {
    if c <= 0x7f then Head(Uint, 0, true)
    else if c <= 0x8f then Head(Map, c - 0x80, true)
    else if c <= 0x9f then Head(Array, c - 0x90, true)
    else if c <= 0xbf then Head(Str, c - 0xa0, true)
    else if c >= 0xe0 then Head(Int, 0, true)
    else
      match c
      case 0xc0 => Head(Nil, 0, true)
      case 0xc1 => Head(Invalid, 0, false)
      case 0xc2 => Head(Bool, 0, true)
      case 0xc3 => Head(Bool, 0, true)
      case 0xc4 => Head(Bin, 1, false)
      case 0xc5 => Head(Bin, 2, false)
      case 0xc6 => Head(Bin, 4, false)
      case 0xc7 => Head(Ext, 1, false)
      case 0xc8 => Head(Ext, 2, false)
      case 0xc9 => Head(Ext, 4, false)
      case 0xca => Head(Float, 4, true)
      case 0xcb => Head(Float, 8, true)
      case 0xcc => Head(Uint, 1, true)
      case 0xcd => Head(Uint, 2, true)
      case 0xce => Head(Uint, 4, true)
      case 0xcf => Head(Uint, 8, true)
      case 0xd0 => Head(Int, 1, true)
      case 0xd1 => Head(Int, 2, true)
      case 0xd2 => Head(Int, 4, true)
      case 0xd3 => Head(Int, 8, true)
      case 0xd4 => Head(Ext, 2, true)
      case 0xd5 => Head(Ext, 3, true)
      case 0xd6 => Head(Ext, 5, true)
      case 0xd7 => Head(Ext, 9, true)
      case 0xd8 => Head(Ext, 17, true)
      case 0xd9 => Head(Str, 1, false)
      case 0xda => Head(Str, 2, false)
      case 0xdb => Head(Str, 4, false)
      case 0xdc => Head(Array, 2, false)
      case 0xdd => Head(Array, 4, false)
      case 0xde => Head(Map, 2, false)
      case _ => Head(Map, 4, false)
  }

  /** The lookup tables as the package's init fills them; row c joins entry c of the three tables. */
  class Lookup {
    const rows: array<Head>

    constructor ()
      ensures rows.Length == 256 && fresh(rows)
      ensures forall c: byte :: rows[c] == Get(c)
    {
      rows := new Head[256](_ => Head(Invalid, 0, false));
      new;
      FillRange(0x00, 0x7f, Uint, false);
      FillRange(0xe0, 0xff, Int, false);
      FillRange(0xa0, 0xbf, Str, true);
      FillRange(0x80, 0x8f, Map, true);
      FillRange(0x90, 0x9f, Array, true);
      FillRaw();
      FillNumbers();
      FillStrings();
      FillContainers();
    }

    /** One of the five loops: the heads first..last, each holding its own length when counted. */
    method FillRange(first: byte, last: byte, typ: Type, counted: bool)
      requires rows.Length == 256 && first <= last
      modifies rows
      ensures forall c: byte | first <= c <= last :: rows[c] == Head(typ, if counted then c - first else 0, true)
      ensures forall c: byte | !(first <= c <= last) :: rows[c] == old(rows[c])
    {
      for i := first to last + 1
        invariant forall c: byte | first <= c < i :: rows[c] == Head(typ, if counted then c - first else 0, true)
        invariant forall c: byte | !(first <= c < i) :: rows[c] == old(rows[c])
      {
        rows[i] := Head(typ, if counted then i - first else 0, true);
      }
    }

    /** Nil, the booleans, binary and extension heads; 0xc1 keeps its initial entry. */
    method FillRaw()
      requires rows.Length == 256 && rows[0xc1] == Get(0xc1)
      modifies rows
      ensures forall c: byte | 0xc0 <= c <= 0xc9 :: rows[c] == Get(c)
      ensures forall d: byte | d < 0xc0 || d > 0xc9 :: rows[d] == old(rows[d])
    {
      rows[0xc0] := Head(Nil, 0, true);
      rows[0xc2] := Head(Bool, 0, true);
      rows[0xc3] := Head(Bool, 0, true);
      rows[0xc4] := Head(Bin, 1, false);
      rows[0xc5] := Head(Bin, 2, false);
      rows[0xc6] := Head(Bin, 4, false);
      rows[0xc7] := Head(Ext, 1, false);
      rows[0xc8] := Head(Ext, 2, false);
      rows[0xc9] := Head(Ext, 4, false);
    }

    /** Floats and integers. */
    method FillNumbers()
      requires rows.Length == 256
      modifies rows
      ensures forall c: byte | 0xca <= c <= 0xd3 :: rows[c] == Get(c)
      ensures forall d: byte | d < 0xca || d > 0xd3 :: rows[d] == old(rows[d])
    {
      rows[0xca] := Head(Float, 4, true);
      rows[0xcb] := Head(Float, 8, true);
      rows[0xcc] := Head(Uint, 1, true);
      rows[0xcd] := Head(Uint, 2, true);
      rows[0xce] := Head(Uint, 4, true);
      rows[0xcf] := Head(Uint, 8, true);
      rows[0xd0] := Head(Int, 1, true);
      rows[0xd1] := Head(Int, 2, true);
      rows[0xd2] := Head(Int, 4, true);
      rows[0xd3] := Head(Int, 8, true);
    }

    /** Fixext and counted string heads. */
    method FillStrings()
      requires rows.Length == 256
      modifies rows
      ensures forall c: byte | 0xd4 <= c <= 0xdb :: rows[c] == Get(c)
      ensures forall d: byte | d < 0xd4 || d > 0xdb :: rows[d] == old(rows[d])
    {
      rows[0xd9] := Head(Str, 1, false);
      rows[0xda] := Head(Str, 2, false);
      rows[0xdb] := Head(Str, 4, false);
      rows[0xd4] := Head(Ext, 2, true);
      rows[0xd5] := Head(Ext, 3, true);
      rows[0xd6] := Head(Ext, 5, true);
      rows[0xd7] := Head(Ext, 9, true);
      rows[0xd8] := Head(Ext, 17, true);
    }

    /** Counted arrays and maps. */
    method FillContainers()
      requires rows.Length == 256
      modifies rows
      ensures forall c: byte | 0xdc <= c <= 0xdf :: rows[c] == Get(c)
      ensures forall d: byte | d < 0xdc || d > 0xdf :: rows[d] == old(rows[d])
    {
      rows[0xdc] := Head(Array, 2, false);
      rows[0xdd] := Head(Array, 4, false);
      rows[0xde] := Head(Map, 2, false);
      rows[0xdf] := Head(Map, 4, false);
    }
  }
}
