/** The object renderer (Wolfenstein_Doom_Raycasting/object_renderer.py): the
    scrolling sky and the painter's-algorithm order in which walls and
    sprites are blitted, farthest first. */
module WolfRenderer {
  import opened PyNum
  import opened WolfSettings
  import opened WolfDrawable
  import WolfRaycastBackup

  /** The order is farthest first. */
  predicate NonIncreasing(s: seq<Drawable>) {
    forall i, j :: 0 <= i < j < |s| ==> s[i].depth >= s[j].depth
  }

  /** Inserts `x` into a farthest-first list ahead of every entry no
      farther than it, so it stays ahead of the entries of equal depth that
      came after it in the input. */
  function InsertDesc(x: Drawable, t: seq<Drawable>): (r: seq<Drawable>)
    ensures multiset(r) == multiset(t) + multiset{x}
  {
    if t == [] || x.depth >= t[0].depth then [x] + t
    else
      assert t == [t[0]] + t[1..];
      [t[0]] + InsertDesc(x, t[1..])
  }

  /** `sorted(objects_to_render, key=lambda t: t[0], reverse=True)`: a new
      list, by depth, farthest first; Python's sort is stable, also when
      reversed, so entries of equal depth keep their order. */
  function SortByDepthDesc(s: seq<Drawable>): seq<Drawable> {
    if s == [] then [] else InsertDesc(s[0], SortByDepthDesc(s[1..]))
  }

  /** The entries of one depth, in order. */
  function WithDepth(s: seq<Drawable>, d: real): seq<Drawable> {
    if s == [] then []
    else (if s[0].depth == d then [s[0]] else []) + WithDepth(s[1..], d)
  }

  /** The renderer's own state: the sky's scroll offset. */
  class ObjectRenderer {
    var skyOffset: real

    /** `ObjectRenderer.__init__` (the texture loading is left out). */
    constructor ()
      ensures skyOffset == 0.0
    {
      skyOffset := 0.0;
    }

    /** `draw_background`: the offset moves by `4.5 * player.rel` and wraps
        into [0, WIDTH); the sky is blitted twice, the second copy one
        screen width to the right of the first, so together they cover the
        screen. Returns the x positions of the two blits. */
    method DrawBackground(rel: real) returns (skyX: real, skyX2: real)
      modifies this
      ensures skyOffset == FloatMod(old(skyOffset) + 4.5 * rel, Width)
      ensures 0.0 <= skyOffset < Width
      ensures skyX == -skyOffset && skyX2 == skyX + Width
      ensures skyX <= 0.0 < skyX2 <= Width
    {
      skyOffset := FloatMod(skyOffset + 4.5 * rel, Width);
      skyX := -skyOffset;
      skyX2 := -skyOffset + Width;
    }

    /** `render_game_objects`: the order of the blits. The shared list is
        only read (`sorted` returns a new list). */
    method RenderGameObjects(rc: WolfRaycastBackup.Raycasting) returns (order: seq<Drawable>)
      ensures order == SortByDepthDesc(rc.objectsToRender)
    {
      order := SortByDepthDesc(rc.objectsToRender);
    }
  }

  // ---------------------------------------------------------------------
  // The draw order is a stable farthest-first permutation

  /** The draw order holds the entries of the list, each as often. */
  lemma {:induction false} SortPermutation(s: seq<Drawable>)
    ensures multiset(SortByDepthDesc(s)) == multiset(s)
  {
    if s != [] {
      SortPermutation(s[1..]);
      assert s == [s[0]] + s[1..];
    }
  }

  /** The draw order is farthest first. */
  lemma {:induction false} SortNonIncreasing(s: seq<Drawable>)
    ensures NonIncreasing(SortByDepthDesc(s))
  {
    if s != [] {
      SortNonIncreasing(s[1..]);
      InsertNonIncreasing(s[0], SortByDepthDesc(s[1..]));
    }
  }

  lemma {:induction false} InsertNonIncreasing(x: Drawable, t: seq<Drawable>)
    requires NonIncreasing(t)
    ensures NonIncreasing(InsertDesc(x, t))
  {
    if t != [] && x.depth < t[0].depth {
      var rest := InsertDesc(x, t[1..]);
      assert NonIncreasing(t[1..]) by { TailNonIncreasing(t); }
      InsertNonIncreasing(x, t[1..]);
      forall y: Drawable | y in multiset(rest) ensures y.depth <= t[0].depth {
        if y != x {
          assert y in multiset(t[1..]);
          var k :| 0 <= k < |t[1..]| && t[1..][k] == y;
          assert t[k + 1] == y;
        }
      }
      ConsNonIncreasing(t[0], rest);
    }
  }

  lemma TailNonIncreasing(t: seq<Drawable>)
    requires t != [] && NonIncreasing(t)
    ensures NonIncreasing(t[1..])
  {
    forall i, j | 0 <= i < j < |t[1..]| ensures t[1..][i].depth >= t[1..][j].depth {
      assert t[1..][i] == t[i + 1] && t[1..][j] == t[j + 1];
    }
  }

  /** An entry at least as far as every entry of a farthest-first list may
      go in front of it. */
  lemma ConsNonIncreasing(h: Drawable, r: seq<Drawable>)
    requires NonIncreasing(r)
    requires forall y: Drawable :: y in multiset(r) ==> y.depth <= h.depth
    ensures NonIncreasing([h] + r)
  {
    var u := [h] + r;
    forall i, j | 0 <= i < j < |u| ensures u[i].depth >= u[j].depth {
      assert u[j] == r[j - 1];
      if i == 0 {
        assert r[j - 1] in multiset(r);
      } else {
        assert u[i] == r[i - 1];
      }
    }
  }

  /** Stability: the entries of any one depth are drawn in the order they
      have in the list. */
  lemma {:induction false} SortStable(s: seq<Drawable>, d: real)
    ensures WithDepth(SortByDepthDesc(s), d) == WithDepth(s, d)
  {
    if s != [] {
      SortStable(s[1..], d);
      InsertWithDepth(s[0], SortByDepthDesc(s[1..]), d);
    }
  }

  lemma {:induction false} InsertWithDepth(x: Drawable, t: seq<Drawable>, d: real)
    ensures WithDepth(InsertDesc(x, t), d) == (if x.depth == d then [x] else []) + WithDepth(t, d)
  {
    if t == [] || x.depth >= t[0].depth {
      assert ([x] + t)[1..] == t;
    } else {
      var rest := InsertDesc(x, t[1..]);
      InsertWithDepth(x, t[1..], d);
      assert ([t[0]] + rest)[1..] == rest;
    }
  }

  /** The shared list is left as it was: only its order of drawing is
      computed, and an already farthest-first list is drawn as it stands. */
  lemma {:induction false} SortKeepsSorted(s: seq<Drawable>)
    requires NonIncreasing(s)
    ensures SortByDepthDesc(s) == s
  {
    if s != [] {
      TailNonIncreasing(s);
      SortKeepsSorted(s[1..]);
      if |s| > 1 {
        assert s[0].depth >= s[1].depth;
      }
      assert [s[0]] + s[1..] == s;
    }
  }
}
