/** The tile map of the platformer (Ninja_Platformers/scripts/tilemap.py):
    its constructor lays a row of grass and a column of stone into a
    dictionary keyed by `"x;y"`. Rendering is not modelled. */
module NinjaTilemap {
  import opened PyStr

  /** A tile: its type, its image variant and its grid position. */
  datatype Tile = Tile(kind: string, variant: int, pos: (nat, nat))

  /** The dictionary key of a grid position, `f"{x};{y}"`. */
  function Key(x: nat, y: nat): string {
    NatToString(x) + ";" + NatToString(y)
  }

  function Grass(i: nat): Tile { Tile("grass", 1, (3 + i, 10)) }

  function Stone(i: nat): Tile { Tile("stone", 1, (10, 5 + i)) }

  /** The dictionary after the first `i` rounds of the constructor's loop:
      each round writes a grass tile, then a stone tile, a later write to
      the same key replacing the earlier one. */
  function Layout(i: nat): map<string, Tile> {
    if i == 0 then map[]
    else Layout(i - 1)[Key(3 + (i - 1), 10) := Grass(i - 1)][Key(10, 5 + (i - 1)) := Stone(i - 1)]
  }

  class Tilemap {
    const tileSize: int
    var tilemap: map<string, Tile>
    var offgridTiles: seq<Tile>

    /** `Tilemap.__init__`. */
    constructor (tileSize: int)
      ensures this.tileSize == tileSize
      ensures tilemap == Layout(10)
      ensures offgridTiles == []
    {
      this.tileSize := tileSize;
      tilemap := map[];
      offgridTiles := [];
      new;
      for i := 0 to 10
        invariant tilemap == Layout(i) && offgridTiles == []
      {
        tilemap := tilemap[Key(3 + i, 10) := Grass(i)];
        tilemap := tilemap[Key(10, 5 + i) := Stone(i)];
      }
    }
  }

  // ---------------------------------------------------------------------
  // Properties

  /** Two keys are equal only for the same position. */
  lemma KeyInjective(x1: nat, y1: nat, x2: nat, y2: nat)
    requires Key(x1, y1) == Key(x2, y2)
    ensures x1 == x2 && y1 == y2
  {
    var a1, b1 := NatToString(x1), NatToString(y1);
    var a2, b2 := NatToString(x2), NatToString(y2);
    var k1, k2 := a1 + ";" + b1, a2 + ";" + b2;
    assert ';' !in a1 && ';' !in a2 by {
      assert forall k :: 0 <= k < |a1| ==> IsAsciiDigit(a1[k]);
      assert forall k :: 0 <= k < |a2| ==> IsAsciiDigit(a2[k]);
    }
    IndexOfAfter(a1, ';', b1);
    IndexOfAfter(a2, ';', b2);
    assert a1 == k1[..|a1|] == k2[..|a2|] == a2;
    assert b1 == k1[|a1| + 1..] == k2[|a2| + 1..] == b2;
    NatToStringInjective(x1, x2);
    NatToStringInjective(y1, y2);
  }

  /** The positions written by the first `i` rounds: a row at y = 10 from
      x = 3 and a column at x = 10 from y = 5. */
  predicate Written(i: nat, x: nat, y: nat) {
    (y == 10 && 3 <= x < 3 + i) || (x == 10 && 5 <= y < 5 + i)
  }

  /** Exactly the written positions have a key in the dictionary. */
  lemma {:induction false} LayoutKeys(i: nat)
    ensures forall x: nat, y: nat :: Key(x, y) in Layout(i) <==> Written(i, x, y)
  {
    if i > 0 {
      LayoutKeys(i - 1);
      forall x: nat, y: nat
        ensures Key(x, y) in Layout(i) <==> Written(i, x, y)
      {
        LayoutKeyStep(i, x, y);
      }
    }
  }

  /** Round `i` adds exactly the two positions it writes. */
  lemma LayoutKeyStep(i: nat, x: nat, y: nat)
    requires i > 0
    requires Key(x, y) in Layout(i - 1) <==> Written(i - 1, x, y)
    ensures Key(x, y) in Layout(i) <==> Written(i, x, y)
  {
    var kg, ks := Key(3 + (i - 1), 10), Key(10, 5 + (i - 1));
    assert Key(x, y) in Layout(i) <==> Key(x, y) in Layout(i - 1) || Key(x, y) == kg || Key(x, y) == ks;
    if Key(x, y) == kg {
      KeyInjective(x, y, 3 + (i - 1), 10);
    }
    if Key(x, y) == ks {
      KeyInjective(x, y, 10, 5 + (i - 1));
    }
  }

  /** Every entry sits under the key of its own position, has variant 1 and
      a written position; stone only in the column, grass only in the row,
      and the shared cell (10, 10) holds the tile written last: stone after
      round 5, grass again from round 7. */
  lemma {:induction false} LayoutEntries(i: nat)
    ensures forall k | k in Layout(i) :: WellPlaced(i, k, Layout(i)[k])
  {
    if i > 0 {
      LayoutEntries(i - 1);
      forall k | k in Layout(i)
        ensures WellPlaced(i, k, Layout(i)[k])
      {
        LayoutEntryStep(i, k);
      }
    }
  }

  /** What `LayoutEntries` says of the entry `t` under key `k` after `i`
      rounds. */
  predicate WellPlaced(i: nat, k: string, t: Tile) {
    k == Key(t.pos.0, t.pos.1) && t.variant == 1 && Written(i, t.pos.0, t.pos.1)
    && (t.kind == "grass" || t.kind == "stone")
    && (t.kind == "stone" ==> t.pos.0 == 10)
    && (t.kind == "grass" <==> t.pos.1 == 10 && (t.pos.0 != 10 || i >= 8))
  }

  /** Round `i` keeps every entry well placed. */
  lemma LayoutEntryStep(i: nat, k: string)
    requires i > 0 && k in Layout(i)
    requires k in Layout(i - 1) ==> WellPlaced(i - 1, k, Layout(i - 1)[k])
    ensures WellPlaced(i, k, Layout(i)[k])
  {
    var kg, ks := Key(3 + (i - 1), 10), Key(10, 5 + (i - 1));
    if k == ks {
      assert Layout(i)[k] == Stone(i - 1);
    } else if k == kg {
      assert Layout(i)[k] == Grass(i - 1);
    } else {
      assert Layout(i)[k] == Layout(i - 1)[k];
      assert Key(10, 10) == Key(3 + 7, 10);
    }
  }

  /** Each round adds two keys, except round 7, whose grass key `"10;10"`
      is already there as stone. */
  lemma {:induction false} LayoutSize(i: nat)
    ensures |Layout(i)| == 2 * i - (if i >= 8 then 1 else 0)
  {
    if i > 0 {
      var j := i - 1;
      LayoutSize(j);
      LayoutKeys(j);
      var kg, ks := Key(3 + j, 10), Key(10, 5 + j);
      assert kg in Layout(j) <==> j == 7;
      if ks == kg {
        KeyInjective(10, 5 + j, 3 + j, 10);
      }
      assert ks !in Layout(j)[kg := Grass(j)];
    }
  }

  /** What the constructor leaves behind: 19 tiles, the grass row at
      y = 10 for x in 3..12 and the stone column at x = 10 for y in 5..14
      less the cell (10, 10), which is grass. */
  lemma TilemapContents()
    ensures |Layout(10)| == 19
    ensures Key(10, 10) in Layout(10) && Layout(10)[Key(10, 10)] == Tile("grass", 1, (10, 10))
    ensures forall x: nat, y: nat :: Key(x, y) in Layout(10) <==>
      (y == 10 && 3 <= x <= 12) || (x == 10 && 5 <= y <= 14)
    ensures forall k | k in Layout(10) ::
      var t := Layout(10)[k];
      k == Key(t.pos.0, t.pos.1) && t.variant == 1
      && (t.kind == "grass" <==> t.pos.1 == 10)
      && (t.kind == "stone" <==> t.pos.1 != 10)
      && (t.kind == "stone" ==> t.pos.0 == 10)
  {
    LayoutSize(10);
    LayoutKeys(10);
    LayoutEntries(10);
    var t := Layout(10)[Key(10, 10)];
    KeyInjective(10, 10, t.pos.0, t.pos.1);
  }
}
