/** The part of a C `FILE *` that the player depends on: a read position in a
    fixed sequence of bytes, the end-of-file and error indicators that
    `feof` and `ferror` report, and whether `fclose` has been called.
 */
module Stdio {

  type byte = x: int | 0 <= x < 256

  class CFile {
    /** The bytes the stream delivers, from where it was opened. */
    const data: seq<byte>
    /** A stream whose every read fails (a device or media error). */
    const faulty: bool
    var pos: nat
    var eof: bool
    var err: bool
    var closed: bool

    ghost predicate Valid()
      reads this
    {
      pos <= |data|
    }

    /** Bytes still to be read. */
    function Remaining(): (r: nat)
      reads this
      requires Valid()
      ensures r + pos == |data|
    {
      |data| - pos
    }

    constructor Open(data: seq<byte>, faulty: bool)
      ensures Valid()
      ensures this.data == data && this.faulty == faulty
      ensures pos == 0 && !eof && !err && !closed
    {
      this.data := data;
      this.faulty := faulty;
      pos, eof, err, closed := 0, false, false, false;
    }

    /** `fread(buf, count, 1, fp)`: moves up to `count` bytes; a short read
        sets the end-of-file indicator, a faulty stream sets the error
        indicator and moves nothing. */
    method Read(count: nat) returns (got: nat)
      requires Valid()
      modifies this
      ensures Valid() && closed == old(closed)
      ensures faulty ==> got == 0 && pos == old(pos) && err && eof == old(eof)
      ensures !faulty ==> got == (if count <= old(Remaining()) then count else old(Remaining()))
      ensures !faulty ==> pos == old(pos) + got && err == old(err)
      ensures !faulty ==> eof == (old(eof) || got < count)
    {
      if faulty {
        got := 0;
        err := true;
      } else {
        got := if count <= |data| - pos then count else |data| - pos;
        pos := pos + got;
        if got < count {
          eof := true;
        }
      }
    }

    /** `fclose(fp)`. */
    method Close()
      modifies this
      ensures closed
      ensures pos == old(pos) && eof == old(eof) && err == old(err)
    {
      closed := true;
    }
  }
}
