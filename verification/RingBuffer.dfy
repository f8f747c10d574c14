/** The bounded queue behind a buffered channel, in a circular array. */
module RingBuffer {

  class Buffer {
    var size: nat
    var first: nat              // `next` in buffer.c: where the oldest element is
    const data: array<int>      // data.Length is the capacity

    ghost predicate Valid()
      reads this
    {
      size <= data.Length && (if data.Length == 0 then first == 0 else first < data.Length)
    }

    /** The elements, oldest first. */
    ghost function Contents(): (s: seq<int>)
      requires Valid()
      reads this, data
      ensures |s| == size
    {
      if first + size <= data.Length then data[first..first + size]
      else data[first..] + data[..first + size - data.Length]
    }

    constructor (capacity: nat)
      ensures Valid() && Contents() == [] && data.Length == capacity && fresh(data)
    {
      data := new int[capacity](i => 0);
      size, first := 0, 0;
    }

    method Add(x: int) returns (ok: bool)
      requires Valid()
      modifies `size, data
      ensures Valid() && ok == (|old(Contents())| < data.Length)
      ensures Contents() == if ok then old(Contents()) + [x] else old(Contents())
    {
      if size >= data.Length { return false; }
      ghost var before := Contents();
      var pos := first + size;
      if pos >= data.Length { pos := pos - data.Length; }
      data[pos] := x;
      size := size + 1;
      ok := true;
      assert Contents() == before + [x];
    }

    method Remove() returns (ok: bool, x: int)
      requires Valid()
      modifies `size, `first
      ensures Valid() && ok == (old(Contents()) != [])
      ensures if ok then old(Contents()) == [x] + Contents() else Contents() == old(Contents())
    {
      if size == 0 { return false, 0; }
      ghost var before := Contents();
      x := data[first];
      size := size - 1;
      first := first + 1;
      if first >= data.Length { first := first - data.Length; }
      ok := true;
      assert before == [x] + Contents();
    }
  }
}
