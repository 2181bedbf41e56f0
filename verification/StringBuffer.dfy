/** The bounded string buffer of `m2mstringbufferbase.cpp` and the paths `m2mbase.cpp` builds with it. */
module StringBuffers {
  import opened Bytes
  import opened M2MString

  /** Capacity of the buffer in `create_path_base`: four names of 64 characters, four slashes, a zero. */
  const PATH_BUFFER_SIZE: nat := 64 * 4 + (4 + 1)

  /** Appending is all or nothing: text that does not fit together with the terminator is dropped. */
  function Appended(contents: Text, max: nat, data: Text): (t: Text) {
    if |contents| + |data| + 1 <= max then contents + data else contents
  }

  class StringBuffer {
    const buff: array<byte>
    var size: nat

    ghost predicate Valid()
      reads this, buff
    {
      size < buff.Length && buff[size] == NUL
    }

    function Contents(): (t: Text)
      requires Valid()
      reads this, buff
    {
      buff[..size]
    }

    constructor (max: nat)
      requires max > 0
      ensures Valid() && fresh(buff) && buff.Length == max
      ensures Contents() == []
    {
      var b := new byte[max](_ => 0);
      buff := b;
      size := 0;
    }

    predicate EnsureSpace(required: nat)
      requires Valid()
      reads this, buff
      ensures EnsureSpace(required) <==> |Contents()| + required <= buff.Length
    {
      var spaceLeft := buff.Length - size;
      required <= spaceLeft
    }

    method AppendChar(data: byte) returns (ok: bool)
      requires Valid()
      modifies this`size, buff
      ensures Valid()
      ensures ok <==> |old(Contents())| + 2 <= buff.Length
      ensures Contents() == Appended(old(Contents()), buff.Length, [data])
    {
      ok := EnsureSpace(1 + 1);
      if ok {
        buff[size] := data;
        size := size + 1;
        buff[size] := NUL;
      }
    }

    /** Both block forms of `append`; the one given a length accepts an empty block without a check. */
    method Append(data: Text) returns (ok: bool)
      requires Valid()
      modifies this`size, buff
      ensures Valid()
      ensures ok <==> |data| == 0 || |old(Contents())| + |data| + 1 <= buff.Length
      ensures Contents() == Appended(old(Contents()), buff.Length, data)
    {
      ok := true;
      if |data| > 0 {
        ok := EnsureSpace(|data| + 1);
        if ok {
          ghost var before := Contents();
          forall i | 0 <= i < |data| {
            buff[size + i] := data[i];
          }
          assert buff[..size] == before;
          size := size + |data|;
          buff[size] := NUL;
          assert Contents() == before + data;
        }
      }
    }

    method AppendInt(data: nat) returns (ok: bool)
      requires Valid()
      requires data < 0x1_0000
      modifies this`size, buff
      ensures Valid()
      ensures ok <==> |old(Contents())| + |Decimal(data)| + 1 <= buff.Length
      ensures Contents() == Appended(old(Contents()), buff.Length, Decimal(data))
    {
      var conv := new byte[21];
      var len := ItoaC(data, conv);
      ok := Append(conv[..len]);
    }

    method FindLastOf(c: byte) returns (index: int)
      requires Valid()
      ensures -1 <= index <= size
      ensures index >= 0 ==> buff[index] == c
      ensures forall k :: index < k <= size ==> buff[k] != c
    {
      index := size;
      while index >= 0 && buff[index] != c
        invariant -1 <= index <= size
        invariant forall k :: index < k <= size ==> buff[k] != c
      {
        index := index - 1;
      }
    }
  }

  /** The path `create_path_base` leaves in its buffer. */
  function BoundedPath(parent: Text, name: Text): (t: Text) {
    var p := Appended([], PATH_BUFFER_SIZE, parent);
    var q := Appended(p, PATH_BUFFER_SIZE, [SLASH]);
    Appended(q, PATH_BUFFER_SIZE, name)
  }

  method CreatePathBase(parent: Text, name: Text) returns (path: Text)
    ensures path == BoundedPath(parent, name)
  {
    var buffer := new StringBuffer(PATH_BUFFER_SIZE);
    var _ := buffer.Append(parent);
    var _ := buffer.AppendChar(SLASH);
    var _ := buffer.Append(name);
    path := buffer.Contents();
  }

  method CreatePathWithId(parent: Text, id: nat) returns (path: Text)
    requires id < 0x1_0000
    ensures path == BoundedPath(parent, Decimal(id))
  {
    var digits := new StringBuffer(6);
    var _ := digits.AppendInt(id);
    IdLength(id);
    path := CreatePathBase(parent, digits.Contents());
  }

  lemma IdLength(id: nat)
    requires id < 0x1_0000
    ensures |Decimal(id)| <= 5
  {
    assert Pow10(5) == 100_000;
    DigitsLength(id, 5);
  }

  /** A path is the plain join exactly when the join and its terminator fit the buffer. */
  lemma PathUntruncated(parent: Text, name: Text)
    ensures BoundedPath(parent, name) == parent + [SLASH] + name <==>
            |parent| + |name| + 2 <= PATH_BUFFER_SIZE
  {
    if |parent| + |name| + 2 > PATH_BUFFER_SIZE {
      assert |BoundedPath(parent, name)| < PATH_BUFFER_SIZE;
      assert |parent + [SLASH] + name| >= PATH_BUFFER_SIZE;
    }
  }
}
