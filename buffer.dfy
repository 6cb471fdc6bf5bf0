/**
 * `Queue` (elementflow.py:249-266): an in-memory byte buffer a generator can write into,
 * drained in batches by the caller.
 */
module Buffer {

  class Queue {
    /** `self.data`, a `bytearray`. */
    var data: seq<bv8>

    /** `__init__` (elementflow.py:254-255): an empty buffer. */
    constructor ()
      ensures data == []
    {
      data := [];
    }

    /** `__len__` (elementflow.py:257-258): the number of bytes buffered. */
    function Length(): (n: nat)
      reads this
      ensures n == 0 <==> data == []
    {
      |data|
    }

    /** `write` (elementflow.py:260-261): the bytes go after everything buffered so far. */
    method Write(value: seq<bv8>)
      modifies this
      ensures data == old(data) + value
      ensures Length() == old(Length()) + |value|
    {
      data := data + value;
    }

    /** `pop` (elementflow.py:263-266): the buffer starts over empty. */
    method Pop()
      modifies this
      ensures data == [] && Length() == 0
    {
      data := [];
    }
  }
}
