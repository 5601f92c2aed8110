/** The image queues of the animated sprites and the weapon
    (Wolfenstein_Doom_Raycasting/sprite_object.py, Backup/weapon.py): a
    `deque` turned with `rotate(-1)`, whose head is the frame on show. */
module WolfQueue {

  /** `rotate(-1)`: the head moves to the back; an empty queue stays empty. */
  function RotateLeft<T>(q: seq<T>): (r: seq<T>)
    ensures |r| == |q|
  {
    if q == [] then [] else q[1..] + [q[0]]
  }

  /** A turn loses and gains no frame. */
  lemma RotateLeftPermutes<T>(q: seq<T>)
    ensures multiset(RotateLeft(q)) == multiset(q)
  {
    if q != [] {
      assert q == [q[0]] + q[1..];
    }
  }

  /** `n` turns of `rotate(-1)`. */
  function RotateN<T>(q: seq<T>, n: nat): (r: seq<T>)
    ensures |r| == |q|
  {
    if n == 0 then q else RotateLeft(RotateN(q, n - 1))
  }

  /** Up to a full turn, `n` rotations bring element `n` to the head: the
      queue is its suffix from `n` followed by the prefix before `n`. */
  lemma {:induction false} RotateNSplit<T>(q: seq<T>, n: nat)
    requires n <= |q|
    ensures RotateN(q, n) == q[n..] + q[..n]
  {
    if n > 0 {
      RotateNSplit(q, n - 1);
      var p := q[n - 1..] + q[..n - 1];
      assert p[0] == q[n - 1];
      assert p[1..] == q[n..] + q[..n - 1];
      assert q[..n - 1] + [q[n - 1]] == q[..n];
    } else {
      assert q[..0] == [];
      assert q[0..] + [] == q;
    }
  }

  /** As many rotations as the queue is long bring it back to its original
      order. */
  lemma RotateFull<T>(q: seq<T>)
    ensures RotateN(q, |q|) == q
  {
    RotateNSplit(q, |q|);
    assert q[|q|..] == [] && q[..|q|] == q;
  }
}
