/** Ring arithmetic: pointers count modulo the length; one slot always stays free. */
module Ring {

  function Wrap(n: nat, i: nat): (r: nat)
    requires i < 2 * n
    ensures r < n
  {
    if i < n then i else i - n
  }

  function Occupancy(n: nat, front: nat, back: nat): (occ: nat)
    requires front < n && back < n
    ensures occ < n
  {
    if front <= back then back - front else back + n - front
  }

  /** The occupied slots, oldest first. */
  function Contents<T>(slots: seq<T>, front: nat, back: nat): (q: seq<T>)
    requires front < |slots| && back < |slots|
    ensures |q| == Occupancy(|slots|, front, back)
    ensures forall i :: 0 <= i < |q| ==> q[i] == slots[Wrap(|slots|, front + i)]
  {
    seq(Occupancy(|slots|, front, back), i requires 0 <= i < Occupancy(|slots|, front, back) =>
      slots[Wrap(|slots|, front + i)])
  }

  /** The hardware's full and empty tests. */
  lemma Flags(n: nat, front: nat, back: nat)
    requires front < n && back < n
    ensures front == back <==> Occupancy(n, front, back) == 0
    ensures Wrap(n, back + 1) == front <==> Occupancy(n, front, back) >= n - 1
  {
  }

  lemma PushContents<T>(slots: seq<T>, front: nat, back: nat, x: T)
    requires front < |slots| && back < |slots| && Occupancy(|slots|, front, back) < |slots| - 1
    ensures Contents(slots[back := x], front, Wrap(|slots|, back + 1)) == Contents(slots, front, back) + [x]
  {
  }

  lemma PopContents<T>(slots: seq<T>, front: nat, back: nat)
    requires front < |slots| && back < |slots| && front != back
    ensures Contents(slots, front, back)[0] == slots[front]
    ensures Contents(slots, Wrap(|slots|, front + 1), back) == Contents(slots, front, back)[1..]
  {
  }

  /** Writing the free slot without moving the pointer changes nothing. */
  lemma ScratchContents<T>(slots: seq<T>, front: nat, back: nat, x: T)
    requires front < |slots| && back < |slots|
    ensures Contents(slots[back := x], front, back) == Contents(slots, front, back)
  {
  }
}
