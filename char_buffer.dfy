/**
 * The mutable text buffer the completion provider edits in place: the
 * pruned source is held in a character array with spare capacity, and
 * the synthetic `';'` is inserted into it by shifting the tail right.
 */
module CharBuffers {
  import opened Scanning

  class CharBuffer {
    var data: array<char>
    var len: nat

    /** The first `len` cells of `data` hold the text. */
    predicate Valid()
      reads this
    {
      len <= data.Length
    }

    /** The text currently held (`toString()`). */
    function Contents(): seq<char>
      reads this, data
      requires Valid()
    {
      data[..len]
    }

    /** A buffer holding exactly `s`, with no spare capacity. */
    constructor (s: seq<char>)
      ensures Valid() && fresh(data)
      ensures Contents() == s
    {
      data := new char[|s|](i requires 0 <= i < |s| => s[i]);
      len := |s|;
    }

    /** Replaces a full array by one of twice its capacity plus two,
        holding the same text. */
    method Grow()
      requires Valid()
      modifies this
      ensures Valid() && fresh(data)
      ensures len == old(len) < data.Length
      ensures Contents() == old(Contents())
    {
      var bigger := new char[2 * data.Length + 2];
      forall k | 0 <= k < len {
        bigger[k] := data[k];
      }
      data := bigger;
    }

    /** `insert(at, c)`: put `c` at index `at`, shifting the rest right by
        one, after growing a full array. */
    method Insert(at: nat, c: char)
      requires Valid()
      requires at <= len
      modifies this, data
      ensures Valid()
      ensures data == old(data) || fresh(data)
      ensures Contents() == Inserted(old(Contents()), at, c)
    {
      ghost var s := Contents();
      if len == data.Length {
        Grow();
      }
      var i := len;
      while i > at
        invariant at <= i <= len < data.Length
        invariant forall k :: 0 <= k < i ==> data[k] == s[k]
        invariant forall k :: i < k <= len ==> data[k] == s[k - 1]
        modifies data
      {
        data[i] := data[i - 1];
        i := i - 1;
      }
      data[at] := c;
      len := len + 1;
      ghost var r := Inserted(s, at, c);
      assert forall k :: 0 <= k < len ==> data[k] == r[k];
      assert Contents() == r;
    }
  }
}
