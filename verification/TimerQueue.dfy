/** The two kinds of key that the timer queue is indexed by, and std::set over the
    first kind, kept as a strictly increasing sequence (tools/timer/TimerScheduler.h). */
module TimerQueue {

  /** A memory address; UINTPTR_MAX is no timer's address. */
  type Addr = nat
  const ADDR_MAX: nat := 0xFFFF_FFFF_FFFF_FFFF

  datatype Entry = Entry(when: int, timer: Addr)
  datatype Id = Id(timer: Addr, sequence: int)

  /** The order of std::pair: first by time, then by address. */
  predicate Before(a: Entry, b: Entry) {
    a.when < b.when || (a.when == b.when && a.timer < b.timer)
  }

  ghost predicate Sorted(s: seq<Entry>) {
    forall i, j | 0 <= i < j < |s| :: Before(s[i], s[j])
  }

  /** std::set::lower_bound: the position of the first element not before e. */
  function LowerBound(s: seq<Entry>, e: Entry): (k: nat)
    requires Sorted(s)
    ensures k <= |s|
    ensures forall i | 0 <= i < k :: Before(s[i], e)
    ensures forall i | k <= i < |s| :: !Before(s[i], e)
  {
    if s == [] || !Before(s[0], e) then 0
    else 1 + LowerBound(s[1..], e)
  }

  predicate Contains(s: seq<Entry>, e: Entry)
    requires Sorted(s)
  {
    var k := LowerBound(s, e);
    k < |s| && s[k] == e
  }

  /** std::set::insert: no effect when e is present already. */
  function Insert(s: seq<Entry>, e: Entry): (r: seq<Entry>)
    requires Sorted(s)
    ensures Sorted(r)
    ensures forall x :: x in r <==> x in s || x == e
    ensures |r| == |s| + if e in s then 0 else 1
    ensures r[0] == if s == [] || Before(e, s[0]) then e else s[0]
  {
    var k := LowerBound(s, e);
    if k < |s| && s[k] == e then s else
      assert e !in s;
      s[..k] + [e] + s[k..]
  }

  /** std::set::erase of a key: no effect when e is absent. */
  function Erase(s: seq<Entry>, e: Entry): (r: seq<Entry>)
    requires Sorted(s)
    ensures Sorted(r)
    ensures forall x :: x in r <==> x in s && x != e
    ensures |r| == |s| - if e in s then 1 else 0
  {
    var k := LowerBound(s, e);
    if k < |s| && s[k] == e then
      assert forall x | x in s && x != e :: x in s[..k] || x in s[k + 1..];
      s[..k] + s[k + 1..]
    else
      assert e !in s;
      s
  }

  /** The first element of what is left after an erase is no earlier. */
  lemma EraseFirst(s: seq<Entry>, e: Entry)
    requires Sorted(s)
    ensures Erase(s, e) != [] ==> s != [] && s[0].when <= Erase(s, e)[0].when
  {
    var r := Erase(s, e);
    if r != [] {
      assert r[0] in s;
      var i :| 0 <= i < |s| && s[i] == r[0];
      assert i == 0 || Before(s[0], s[i]);
    }
  }

  /** The sentinel (now, UINTPTR_MAX) cuts exactly at the time now. */
  lemma SentinelSplit(s: seq<Entry>, now: int)
    requires Sorted(s)
    requires forall e | e in s :: e.timer < ADDR_MAX
    ensures forall i | 0 <= i < |s| :: i < LowerBound(s, Entry(now, ADDR_MAX)) <==> s[i].when <= now
  {
    var k := LowerBound(s, Entry(now, ADDR_MAX));
    forall i | 0 <= i < |s|
      ensures i < k <==> s[i].when <= now
    {
      assert s[i] in s;
    }
  }
}
