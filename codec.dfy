/**
 * The binary codec of an identifier: three fields in a fixed order (the
 * kind as an `int`, `longID` as a `long`, the string key as a string),
 * written to and read from a stream. Streams are modelled field by field.
 */
module Codec {
  import opened Wrappers
  import opened DotNet
  import opened Identifiers

  /** One primitive value as `BinaryWriter` writes it and `BinaryReader` reads it back. */
  datatype Field = Int32Field(i: int32) | Int64Field(l: int64) | StringField(s: string)

  /** A `BinaryWriter`: the fields written so far. */
  class BinaryWriter {
    var written: seq<Field>

    constructor ()
      ensures written == []
    {
      written := [];
    }

    /** `Write(int)` */
    method WriteInt32(v: int32)
      modifies this
      ensures written == old(written) + [Int32Field(v)]
    {
      written := written + [Int32Field(v)];
    }

    /** `Write(long)` */
    method WriteInt64(v: int64)
      modifies this
      ensures written == old(written) + [Int64Field(v)]
    {
      written := written + [Int64Field(v)];
    }

    /** `Write(string)`, which only takes a non-null string. */
    method WriteString(v: string)
      modifies this
      ensures written == old(written) + [StringField(v)]
    {
      written := written + [StringField(v)];
    }
  }

  /** A `BinaryReader`: a stream of fields and a read position. */
  class BinaryReader {
    const data: seq<Field>
    var position: nat

    ghost predicate Valid()
      reads this
    {
      position <= |data|
    }

    /** The fields not yet read. */
    ghost function Remaining(): seq<Field>
      reads this
      requires Valid()
    {
      data[position..]
    }

    constructor (data: seq<Field>)
      ensures Valid() && this.data == data && position == 0
    {
      this.data := data;
      position := 0;
    }

    /** `ReadInt32()`: fails when the stream is exhausted or holds another kind of field. */
    method ReadInt32() returns (r: Result<int32, Exception>)
      requires Valid()
      modifies this`position
      ensures Valid()
      ensures old(position) < |data| && data[old(position)].Int32Field? ==>
        r == Success(data[old(position)].i) && position == old(position) + 1
      ensures !(old(position) < |data| && data[old(position)].Int32Field?) ==>
        r == Failure(MalformedStream) && position == old(position)
    {
      if position < |data| && data[position].Int32Field? {
        r := Success(data[position].i);
        position := position + 1;
      } else {
        r := Failure(MalformedStream);
      }
    }

    /** `ReadInt64()` */
    method ReadInt64() returns (r: Result<int64, Exception>)
      requires Valid()
      modifies this`position
      ensures Valid()
      ensures old(position) < |data| && data[old(position)].Int64Field? ==>
        r == Success(data[old(position)].l) && position == old(position) + 1
      ensures !(old(position) < |data| && data[old(position)].Int64Field?) ==>
        r == Failure(MalformedStream) && position == old(position)
    {
      if position < |data| && data[position].Int64Field? {
        r := Success(data[position].l);
        position := position + 1;
      } else {
        r := Failure(MalformedStream);
      }
    }

    /** `ReadString()`, which never yields null. */
    method ReadString() returns (r: Result<string, Exception>)
      requires Valid()
      modifies this`position
      ensures Valid()
      ensures old(position) < |data| && data[old(position)].StringField? ==>
        r == Success(data[old(position)].s) && position == old(position) + 1
      ensures !(old(position) < |data| && data[old(position)].StringField?) ==>
        r == Failure(MalformedStream) && position == old(position)
    {
      if position < |data| && data[position].StringField? {
        r := Success(data[position].s);
        position := position + 1;
      } else {
        r := Failure(MalformedStream);
      }
    }
  }

  /** The fields `Write` emits for `id`. */
  function Encode(id: DataIdentifier): (r: seq<Field>)
    ensures |r| == 3 && FieldsAvailable(r) == 3
  {
    [Int32Field(id.Type), Int64Field(id.longID), StringField(OrEmpty(id.stringID))]
  }

  /** Whether `f` is of the kind `Read` expects as its `i`th field: an `int`, a `long`, then a string. */
  predicate FitsSlot(i: nat, f: Field) {
    if i == 0 then f.Int32Field? else if i == 1 then f.Int64Field? else f.StringField?
  }

  /**
   * How many of the three fields `Read` expects stand, in order and of the
   * right kind, at the front of `fields`: below three, the count is the
   * position of the first field that is missing or of the wrong kind.
   */
  function FieldsAvailable(fields: seq<Field>): (n: nat)
    ensures n <= 3 && n <= |fields|
    ensures forall i :: 0 <= i < n ==> FitsSlot(i, fields[i])
    ensures n < 3 ==> n == |fields| || !FitsSlot(n, fields[n])
    ensures n == 3 <==> |fields| >= 3 && fields[0].Int32Field? && fields[1].Int64Field? && fields[2].StringField?
  {
    if |fields| == 0 || !fields[0].Int32Field? then 0
    else if |fields| == 1 || !fields[1].Int64Field? then 1
    else if |fields| == 2 || !fields[2].StringField? then 2
    else 3
  }

  /**
   * What `Read` returns on a stream whose unread fields are `fields`: an
   * identifier built from the first three, with an empty string key read
   * back as null, or a failure when they are missing or of the wrong kind.
   * A decoded identifier never carries an empty string key.
   */
  function Decode(fields: seq<Field>): (r: Result<DataIdentifier, Exception>)
    ensures r.Success? <==> FieldsAvailable(fields) == 3
    ensures r.Success? ==> r.value.stringID != Some("")
    ensures r.Failure? ==> r.error == MalformedStream
  {
    if FieldsAvailable(fields) < 3 then Failure(MalformedStream)
    else
      var s := fields[2].s;
      Success(DataIdentifier(fields[0].i, fields[1].l, if s == "" then None else Some(s)))
  }

  /** `Write(writer, id)`: appends the kind, the numeric key and the string key (never null) to the stream. */
  method Write(writer: BinaryWriter, id: DataIdentifier)
    modifies writer
    ensures writer.written == old(writer.written) + Encode(id)
  {
    writer.WriteInt32(id.Type);
    writer.WriteInt64(id.longID);
    writer.WriteString(OrEmpty(id.stringID));
  }

  /**
   * `Read(reader)`: reads the three fields in order; the first read that
   * fails ends it, after the reads before it have consumed their fields.
   */
  method Read(reader: BinaryReader) returns (r: Result<DataIdentifier, Exception>)
    requires reader.Valid()
    modifies reader`position
    ensures reader.Valid()
    ensures r == Decode(old(reader.Remaining()))
    ensures reader.position == old(reader.position) + FieldsAvailable(old(reader.Remaining()))
  {
    var kind := reader.ReadInt32();
    if kind.Failure? {
      return Failure(kind.error);
    }
    var longID := reader.ReadInt64();
    if longID.Failure? {
      return Failure(longID.error);
    }
    var stringID := reader.ReadString();
    if stringID.Failure? {
      return Failure(stringID.error);
    }
    var key: NullableString := Some(stringID.value);
    if stringID.value == "" {
      key := None;
    }
    r := Success(DataIdentifier(kind.value, longID.value, key));
  }

  /**
   * The round trip: reading back what `Write` emitted consumes exactly its
   * three fields and gives an identifier equal to the original, namely its
   * canonical form.
   */
  lemma ReadWriteRoundTrip(id: DataIdentifier, rest: seq<Field>)
    ensures FieldsAvailable(Encode(id) + rest) == 3
    ensures Decode(Encode(id) + rest) == Success(Canonical(id))
    ensures Equals(Decode(Encode(id) + rest).value, Some(id))
  {
  }

  /** The other direction: a stream `Read` accepts is written back field for field. */
  lemma WriteReadRoundTrip(fields: seq<Field>)
    requires FieldsAvailable(fields) == 3
    ensures Encode(Decode(fields).value) == fields[..3]
  {
  }

  /** Two identifiers are written identically exactly when they are equal. */
  lemma EncodeIffEquals(a: DataIdentifier, b: DataIdentifier)
    ensures Encode(a) == Encode(b) <==> Equals(a, Some(b))
  {
    if Encode(a) == Encode(b) {
      assert Encode(a)[0] == Encode(b)[0];
      assert Encode(a)[1] == Encode(b)[1];
      assert Encode(a)[2] == Encode(b)[2];
    }
  }

  /** The ACTOR 42 scenario: its three fields, and reading them back gives an equal identifier. */
  lemma ActorFortyTwoOnTheWire()
    ensures Encode(GetActorIdentifier(42)) == [Int32Field(1), Int64Field(42), StringField("")]
    ensures Decode(Encode(GetActorIdentifier(42))) == Success(GetActorIdentifier(42))
  {
  }
}
