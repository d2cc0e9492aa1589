/** The growable line buffer of printFile: `line`, `line_len` and `line_cap`
    (cat.c:141-142), grown by doubling through line_alloc (cat.c:130-137,
    182-186). */
module LineBuffers {
  import opened Bytes

  class LineBuffer {
    /** Backing storage; its length is line_cap. */
    var line: array<byte>
    /** Number of bytes buffered: line_len. */
    var len: nat
    ghost var Repr: set<object>

    ghost predicate Valid()
      reads this, Repr
    {
      Repr == {this, line} && len <= line.Length && line.Length > 0
    }

    /** The bytes buffered since the last written line. */
    ghost function Contents(): seq<byte>
      reads this, line
      requires len <= line.Length
    {
      line[..len]
    }

    /** line_alloc(NULL, cap): an empty buffer of capacity `cap`. */
    constructor (cap: nat)
      requires cap > 0
      ensures Valid() && fresh(Repr)
      ensures Contents() == [] && line.Length == cap
    {
      line := new byte[cap];
      len := 0;
      Repr := {this, line};
    }

    /** `line[line_len++] = c`, doubling line_cap first when the buffer is full
        (cat.c:182-186). The old contents survive the move, as realloc keeps them. */
    method Push(c: byte)
      requires Valid()
      modifies Repr
      ensures Valid() && fresh(Repr - old(Repr))
      ensures Contents() == old(Contents()) + [c]
      ensures line.Length == if old(len) >= old(line.Length) then 2 * old(line.Length) else old(line.Length)
    {
      if len >= line.Length {
        var grown := new byte[2 * line.Length];
        forall k | 0 <= k < len {
          grown[k] := line[k];
        }
        line := grown;
        Repr := {this, line};
      }
      line[len] := c;
      len := len + 1;
    }

    /** `line_len = 0` (cat.c:169): the capacity is kept. */
    method Clear()
      requires Valid()
      modifies Repr
      ensures Valid() && Repr == old(Repr) && line == old(line)
      ensures Contents() == []
    {
      len := 0;
    }
  }
}
