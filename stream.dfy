/** The serial port the driver talks through, as a byte stream: the bytes
    the device will send (with a read cursor) and a log of the bytes
    written to it. */
module Stream {
  import opened Bytes

  datatype Option<T> = None | Some(value: T)

  class Uart {
    /** Every byte the device sends, in order. */
    var input: seq<byte>
    /** How many of them have been read so far. */
    var cursor: nat
    /** Every byte written to the port, in order. */
    var output: seq<byte>

    ghost predicate Valid()
      reads this
    {
      cursor <= |input|
    }

    /** The bytes not yet read. */
    function Pending(): (rest: seq<byte>)
      reads this
      requires Valid()
      ensures |rest| == |input| - cursor
    {
      input[cursor..]
    }

    constructor (incoming: seq<byte>)
      ensures Valid() && input == incoming && cursor == 0 && output == []
    {
      input := incoming;
      cursor := 0;
      output := [];
    }

    /** Reads exactly `n` bytes. When fewer are left, it takes what is left
        and reports failure. */
    method Read(n: nat) returns (data: Option<seq<byte>>)
      requires Valid()
      modifies this
      ensures Valid() && input == old(input) && output == old(output)
      ensures n <= |old(Pending())| ==>
                data == Some(old(Pending())[..n]) && cursor == old(cursor) + n
      ensures n > |old(Pending())| ==> data == None && cursor == |input|
    {
      if cursor + n <= |input| {
        assert input[cursor..cursor + n] == Pending()[..n];
        data := Some(input[cursor..cursor + n]);
        cursor := cursor + n;
      } else {
        data := None;
        cursor := |input|;
      }
    }

    /** Writes `data` to the port. */
    method Write(data: seq<byte>)
      requires Valid()
      modifies this
      ensures Valid() && input == old(input) && cursor == old(cursor)
      ensures output == old(output) + data
    {
      output := output + data;
    }
  }
}
