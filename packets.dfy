/**
 * The network buffer as a stream of typed primitives (the encoding primitives
 * the volume-box code uses: bool, int, double, string, block position, unique
 * id and enum ordinal), plus one opaque primitive for an addon's payload.
 * Writing appends; reading consumes from the reader index. A read fails when
 * the stream is exhausted or the next primitive is of another kind.
 */
module Packets {
  import opened Wrappers
  import opened Values
  import opened Nbt

  datatype Prim =
    | PInt(i: int)
    | PBool(b: bool)
    | PDouble(d: real)
    | PString(s: string)
    | PPos(p: Pos)
    | PUuid(u: Uuid)
    | PEnum(ordinal: int)
    | PData(data: Compound)

  /** The value read and the stream left after it, or a failed read. */
  type Parsed<T> = Option<(T, seq<Prim>)>

  function ParseInt(s: seq<Prim>): Parsed<int> {
    if |s| > 0 && s[0].PInt? then Some((s[0].i, s[1..])) else None
  }

  function ParseBool(s: seq<Prim>): Parsed<bool> {
    if |s| > 0 && s[0].PBool? then Some((s[0].b, s[1..])) else None
  }

  function ParseDouble(s: seq<Prim>): Parsed<real> {
    if |s| > 0 && s[0].PDouble? then Some((s[0].d, s[1..])) else None
  }

  /** readString(maxLength): a longer string is refused. */
  function ParseString(s: seq<Prim>, maxLength: nat): Parsed<string> {
    if |s| > 0 && s[0].PString? && |s[0].s| <= maxLength then Some((s[0].s, s[1..])) else None
  }

  function ParsePos(s: seq<Prim>): Parsed<Pos> {
    if |s| > 0 && s[0].PPos? then Some((s[0].p, s[1..])) else None
  }

  function ParseUuid(s: seq<Prim>): Parsed<Uuid> {
    if |s| > 0 && s[0].PUuid? then Some((s[0].u, s[1..])) else None
  }

  /** readEnumValue: the ordinal must name one of the `count` constants. */
  function ParseEnum(s: seq<Prim>, count: nat): Parsed<nat> {
    if |s| > 0 && s[0].PEnum? && 0 <= s[0].ordinal < count then Some((s[0].ordinal as nat, s[1..])) else None
  }

  function ParseData(s: seq<Prim>): Parsed<Compound> {
    if |s| > 0 && s[0].PData? then Some((s[0].data, s[1..])) else None
  }

  /** A read method's outcome agrees with its parser: same value, same stream left. */
  predicate Consumed<T(==)>(r: Option<T>, p: Parsed<T>, now: seq<Prim>) {
    match p
    case None => r.None?
    case Some((v, rest)) => r == Some(v) && now == rest
  }

  class PacketBuffer {
    var data: seq<Prim>
    var readerIndex: nat

    ghost predicate Valid()
      reads this
    {
      readerIndex <= |data|
    }

    /** What is still to be read. */
    function Remaining(): seq<Prim>
      reads this
      requires Valid()
    {
      data[readerIndex..]
    }

    /** An empty buffer (Unpooled.buffer()). */
    constructor Empty()
      ensures Valid() && data == [] && readerIndex == 0
    {
      data := [];
      readerIndex := 0;
    }

    method Write(p: Prim)
      requires Valid()
      modifies this
      ensures Valid() && data == old(data) + [p] && readerIndex == old(readerIndex)
      ensures Remaining() == old(Remaining()) + [p]
    {
      data := data + [p];
    }

    /** Consumes the next primitive, if there is one. */
    method Read() returns (p: Option<Prim>)
      requires Valid()
      modifies this
      ensures Valid() && data == old(data)
      ensures |old(Remaining())| == 0 ==> p.None? && Remaining() == old(Remaining())
      ensures |old(Remaining())| > 0 ==> p == Some(old(Remaining())[0]) && Remaining() == old(Remaining())[1..]
    {
      if readerIndex < |data| {
        p := Some(data[readerIndex]);
        readerIndex := readerIndex + 1;
      } else {
        p := None;
      }
    }

    method ReadInt() returns (r: Option<int>)
      requires Valid()
      modifies this
      ensures Valid() && data == old(data)
      ensures Consumed(r, ParseInt(old(Remaining())), Remaining())
    {
      var p := Read();
      r := if p.Some? && p.value.PInt? then Some(p.value.i) else None;
    }

    method ReadBool() returns (r: Option<bool>)
      requires Valid()
      modifies this
      ensures Valid() && data == old(data)
      ensures Consumed(r, ParseBool(old(Remaining())), Remaining())
    {
      var p := Read();
      r := if p.Some? && p.value.PBool? then Some(p.value.b) else None;
    }

    method ReadDouble() returns (r: Option<real>)
      requires Valid()
      modifies this
      ensures Valid() && data == old(data)
      ensures Consumed(r, ParseDouble(old(Remaining())), Remaining())
    {
      var p := Read();
      r := if p.Some? && p.value.PDouble? then Some(p.value.d) else None;
    }

    method ReadString(maxLength: nat) returns (r: Option<string>)
      requires Valid()
      modifies this
      ensures Valid() && data == old(data)
      ensures Consumed(r, ParseString(old(Remaining()), maxLength), Remaining())
    {
      var p := Read();
      r := if p.Some? && p.value.PString? && |p.value.s| <= maxLength then Some(p.value.s) else None;
    }

    method ReadPos() returns (r: Option<Pos>)
      requires Valid()
      modifies this
      ensures Valid() && data == old(data)
      ensures Consumed(r, ParsePos(old(Remaining())), Remaining())
    {
      var p := Read();
      r := if p.Some? && p.value.PPos? then Some(p.value.p) else None;
    }

    method ReadUuid() returns (r: Option<Uuid>)
      requires Valid()
      modifies this
      ensures Valid() && data == old(data)
      ensures Consumed(r, ParseUuid(old(Remaining())), Remaining())
    {
      var p := Read();
      r := if p.Some? && p.value.PUuid? then Some(p.value.u) else None;
    }

    method ReadEnum(count: nat) returns (r: Option<nat>)
      requires Valid()
      modifies this
      ensures Valid() && data == old(data)
      ensures Consumed(r, ParseEnum(old(Remaining()), count), Remaining())
    {
      var p := Read();
      r := if p.Some? && p.value.PEnum? && 0 <= p.value.ordinal < count then Some(p.value.ordinal as nat) else None;
    }

    method ReadData() returns (r: Option<Compound>)
      requires Valid()
      modifies this
      ensures Valid() && data == old(data)
      ensures Consumed(r, ParseData(old(Remaining())), Remaining())
    {
      var p := Read();
      r := if p.Some? && p.value.PData? then Some(p.value.data) else None;
    }
  }
}
