/** A buffer of fixed capacity, whose last byte always stays zero: what does not fit is cut
    off. */
module LogBuffers {

  const NUL: char := 0 as char

  /** At most the first n characters. */
  function Cut(n: nat, s: string): (r: string)
    ensures r <= s && |r| == if |s| <= n then |s| else n
  {
    if |s| <= n then s else s[..n]
  }

  /** Cutting early or late is the same. */
  lemma CutCut(n: nat, s: string, t: string)
    ensures Cut(n, Cut(n, s) + t) == Cut(n, s + t)
  {
  }

  /** What is full stays as it is. */
  lemma CutFull(n: nat, s: string, t: string)
    requires |Cut(n, s)| == n
    ensures Cut(n, s + t) == Cut(n, s)
  {
  }

  class LogBuffer {
    const capacity: nat
    const data: array<char>
    var current: nat

    /** The last byte is reserved, and all bytes that are not used are zero. */
    ghost predicate Valid()
      reads this, data
    {
      && data.Length == capacity && current < capacity
      && forall i | current <= i < capacity :: data[i] == NUL
    }

    ghost function Contents(): string
      requires Valid()
      reads this, data
    {
      data[..current]
    }

    constructor (capacity: nat)
      requires capacity > 0
      ensures Valid() && fresh(data) && this.capacity == capacity && Contents() == ""
    {
      this.capacity := capacity;
      data := new char[capacity](_ => NUL);
      current := 0;
    }

    /** The position of the last byte. */
    function End(): (e: nat)
      requires capacity > 0
      ensures e == capacity - 1
    {
      capacity - 1
    }

    predicate Available()
      requires Valid()
      reads this, data
    {
      End() > current
    }

    /** Appends what fits. */
    method Append(buf: string)
      requires Valid()
      modifies this`current, data
      ensures Valid() && Contents() == Cut(capacity - 1, old(Contents()) + buf)
    {
      var cpLen := if current + |buf| < End() then |buf| else End() - current;
      forall i | current <= i < current + cpLen {
        data[i] := buf[i - current];
      }
      current := current + cpLen;
    }

    /** Appends a character if it fits. */
    method AppendChar(ch: char)
      requires Valid()
      modifies this`current, data
      ensures Valid() && Contents() == Cut(capacity - 1, old(Contents()) + [ch])
    {
      if Available() {
        data[current] := ch;
        current := current + 1;
      }
    }
  }
}
