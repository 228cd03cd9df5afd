/**
 * The colour classification of `screenshotToTypes` (scripts/tos.py): the
 * averaged colour of one cell is given the stone type whose reference colour
 * is nearest in weighted Manhattan distance, the first such type in the
 * table's order on a tie. The weights 1.0 and 1.7 are scaled by 10, and so
 * is the start value 10e9. Cropping, resizing and averaging the screenshot
 * are not modelled: the averaged pixel is the input.
 */
module Classifier {
  import opened Wrappers
  import opened Runestones

  datatype Rgb = Rgb(r: int, g: int, b: int)

  /** The order in which the reference table lists the types. */
  const TableOrder: seq<StoneType> := [Dark, Light, Water, Fire, Earth, Health]

  /** 10e9 scaled by 10: no cell is that far from every colour unless its value is far outside 0..255. */
  const StartDist: int := 100_000_000_000

  function Reference(t: StoneType): Rgb {
    match t
    case Dark => Rgb(118, 28, 138)
    case Light => Rgb(120, 89, 11)
    case Water => Rgb(44, 90, 136)
    case Fire => Rgb(153, 28, 15)
    case Earth => Rgb(27, 117, 31)
    case Health => Rgb(172, 74, 128)
  }

  function Abs(x: int): nat {
    if x < 0 then -x else x
  }

  /** The Manhattan distance to the type's colour, weighted 1.7 for Health and 1.0 for the rest, times 10. */
  function Dist(p: Rgb, t: StoneType): int {
    var v := Reference(t);
    var d := Abs(p.r - v.r) + Abs(p.g - v.g) + Abs(p.b - v.b);
    if t == Health then 17 * d else 10 * d
  }

  /** A pixel of 8-bit channels. */
  predicate IsPixel(p: Rgb) {
    0 <= p.r < 256 && 0 <= p.g < 256 && 0 <= p.b < 256
  }

  /**
   * The loop over the table: a type replaces the current choice only when
   * strictly nearer. The result is the first nearest type, or None when no
   * type is nearer than the start value.
   */
  method Classify(p: Rgb) returns (t: Option<StoneType>)
    ensures t.None? <==> forall k :: 0 <= k < |TableOrder| ==> Dist(p, TableOrder[k]) >= StartDist
    ensures t.Some? ==> exists k :: (0 <= k < |TableOrder| && TableOrder[k] == t.value &&
                                     forall j :: 0 <= j < k ==> Dist(p, TableOrder[j]) > Dist(p, t.value))
    ensures t.Some? ==> forall k :: 0 <= k < |TableOrder| ==> Dist(p, t.value) <= Dist(p, TableOrder[k])
  {
    var minDist := StartDist;
    t := None;
    ghost var best := 0;
    var k := 0;
    while k < |TableOrder|
      invariant 0 <= k <= |TableOrder|
      invariant t.None? ==> minDist == StartDist && forall j :: 0 <= j < k ==> Dist(p, TableOrder[j]) >= StartDist
      invariant t.Some? ==> 0 <= best < k && TableOrder[best] == t.value && minDist == Dist(p, t.value)
      invariant t.Some? ==> forall j :: 0 <= j < best ==> Dist(p, TableOrder[j]) > minDist
      invariant forall j :: 0 <= j < k ==> minDist <= Dist(p, TableOrder[j])
      invariant minDist <= StartDist && (t.Some? ==> minDist < StartDist)
    {
      var dist := Dist(p, TableOrder[k]);
      if dist < minDist {
        minDist := dist;
        t := Some(TableOrder[k]);
        best := k;
      }
      k := k + 1;
    }
  }

  /** Every 8-bit pixel gets a type. */
  lemma PixelClassified(p: Rgb)
    requires IsPixel(p)
    ensures forall k :: 0 <= k < |TableOrder| ==> Dist(p, TableOrder[k]) < StartDist
  {
    forall k | 0 <= k < |TableOrder| ensures Dist(p, TableOrder[k]) < StartDist {
      DistBound(p, TableOrder[k]);
    }
  }

  lemma DistBound(p: Rgb, t: StoneType)
    requires IsPixel(p)
    ensures Dist(p, t) <= 765 * 17
  {
    var v := Reference(t);
    assert Abs(p.r - v.r) + Abs(p.g - v.g) + Abs(p.b - v.b) <= 765;
  }

  /** A reference colour is classified as its own type: the six colours are told apart. */
  lemma ReferenceIsNearest(t: StoneType)
    ensures Dist(Reference(t), t) == 0
    ensures forall u :: u != t ==> Dist(Reference(t), u) > 0
  {
  }
}
