/** Facts about sequences shared by the scanning loops. */
module SeqUtil {
  /** Concatenation regroups; the loops use it to move what one step adds
      onto the rows already collected. */
  lemma AppendAssoc<T>(a: seq<T>, b: seq<T>, c: seq<T>)
    ensures a + (b + c) == (a + b) + c
  {
  }

  /** The pieces `f(x)` for the elements of `xs`, concatenated in order:
      what a loop appending `f(x)` for each `x` builds. */
  function Concat<A, B>(xs: seq<A>, f: A -> seq<B>): seq<B> {
    if xs == [] then []
    else Concat(xs[..|xs| - 1], f) + f(xs[|xs| - 1])
  }

  /** An element of the concatenation comes from the piece of some input
      element, and every piece is in it. */
  lemma {:induction false} ConcatMembers<A, B>(xs: seq<A>, f: A -> seq<B>, y: B)
    ensures y in Concat(xs, f) <==> exists k :: 0 <= k < |xs| && y in f(xs[k])
  {
    if xs != [] {
      var p := xs[..|xs| - 1];
      ConcatMembers(p, f, y);
      assert forall k :: 0 <= k < |p| ==> p[k] == xs[k];
    }
  }

  /** The input element whose piece an element of the concatenation lies in. */
  lemma ConcatPick<A, B>(xs: seq<A>, f: A -> seq<B>, y: B) returns (k: nat)
    requires y in Concat(xs, f)
    ensures k < |xs| && y in f(xs[k])
  {
    ConcatMembers(xs, f, y);
    k :| 0 <= k < |xs| && y in f(xs[k]);
  }

  /** `Concat` over `f`, as a function of the list. */
  function ConcatOf<A, B>(f: A -> seq<B>): seq<A> -> seq<B> {
    xs => Concat(xs, f)
  }

  /** The list, and the element in it, whose piece an element of a
      concatenation of concatenations lies in. */
  lemma ConcatConcatPick<A, B>(xss: seq<seq<A>>, f: A -> seq<B>, y: B) returns (n: nat, q: nat)
    requires y in Concat(xss, ConcatOf(f))
    ensures n < |xss| && q < |xss[n]| && y in f(xss[n][q])
  {
    n := ConcatPick(xss, ConcatOf(f), y);
    q := ConcatPick(xss[n], f, y);
  }

  /** One more element adds its piece at the end. */
  lemma ConcatStep<A, B>(xs: seq<A>, f: A -> seq<B>, k: nat)
    requires k < |xs|
    ensures Concat(xs[..k + 1], f) == Concat(xs[..k], f) + f(xs[k])
  {
    assert xs[..k + 1][..k] == xs[..k];
  }
}
