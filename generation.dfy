/**
 * Challenge construction, shared word for word by both versions of the
 * service: the guard on the number of collections, the weighting of candidate
 * images, the answer bit mask and the placement of the tiles in the collage.
 *
 * The random choices (`gen_range`, `choose_multiple`,
 * `choose_multiple_weighted`, `Uuid::new_v4`) are a `Draw` given as input; the
 * pixel work (thumbnails, gradient, JPEG encoding) is replaced by the list of
 * tile positions.
 */
module Generation {
  import opened Bits
  import opened Domain

  /** Gap between tiles and around the border, in pixels. */
  const GapPx: nat := 8
  /** Side of one thumbnail, in pixels. */
  const ImgSizePx: nat := 96
  /** Distance from one tile's corner to the next one's: `img_area`. */
  const TileArea: nat := ImgSizePx + GapPx
  /** How many images a challenge shows at most. */
  const QuestionCount: nat := 9
  /** Fewest and most collections one challenge draws from. */
  const MinSampled: nat := 2
  const MaxSampled: nat := 5

  // ---------------------------------------------------------------------------
  // Grid geometry
  // ---------------------------------------------------------------------------

  /** The side of the square grid for n images: the least g with g * g >= n. */
  function CeilSqrt(n: nat): (g: nat)
    ensures g * g >= n
    ensures n > 0 ==> g > 0
    ensures g == 0 || (g - 1) * (g - 1) < n
  {
    CeilSqrtFrom(n, 0)
  }

  function CeilSqrtFrom(n: nat, g: nat): (r: nat)
    requires g <= n
    requires g == 0 || (g - 1) * (g - 1) < n
    ensures r * r >= n
    ensures n > 0 ==> r > 0
    ensures r == 0 || (r - 1) * (r - 1) < n
    decreases n - g
  {
    if g * g >= n then g
    else
      assert g <= g * g;
      CeilSqrtFrom(n, g + 1)
  }

  /** `dimensions`: the side of the collage for a g x g grid. */
  function CanvasSide(g: nat): nat {
    g * TileArea + GapPx
  }

  /** The pixel offset of column (or row) c. */
  function Offset(c: nat): nat {
    GapPx + TileArea * c
  }

  /** The whole thumbnail lies on the canvas, clear of the outer gap. */
  predicate Inside(t: Tile, side: nat) {
    GapPx <= t.x && t.x + ImgSizePx + GapPx <= side &&
    GapPx <= t.y && t.y + ImgSizePx + GapPx <= side
  }

  /** Two thumbnails do not overlap. */
  predicate Apart(a: Tile, b: Tile) {
    a.x + ImgSizePx <= b.x || b.x + ImgSizePx <= a.x ||
    a.y + ImgSizePx <= b.y || b.y + ImgSizePx <= a.y
  }

  /** The tile of image i in a g x g grid: column i % g, row i / g. */
  function TileAt(source: FilePath, g: nat, i: nat): Tile
    requires g > 0
  {
    Tile(source, Offset(i % g), Offset(i / g))
  }

  lemma OffsetFits(c: nat, g: nat)
    requires c < g
    ensures Offset(c) + ImgSizePx + GapPx <= CanvasSide(g)
  {
    assert TileArea * c <= TileArea * (g - 1);
  }

  lemma OffsetsApart(c: nat, d: nat)
    requires c < d
    ensures Offset(c) + ImgSizePx <= Offset(d)
  {
    assert TileArea * c + TileArea <= TileArea * d;
  }

  /** Every index below g * g gets a tile that lies inside the g x g canvas. */
  lemma TileInside(source: FilePath, g: nat, i: nat)
    requires g > 0 && i < g * g
    ensures Inside(TileAt(source, g, i), CanvasSide(g))
  {
    assert i / g < g;
    OffsetFits(i % g, g);
    OffsetFits(i / g, g);
  }

  /** Two different indices never share a cell, so their tiles do not overlap. */
  lemma TilesApart(s: FilePath, t: FilePath, g: nat, i: nat, j: nat)
    requires g > 0 && i != j
    ensures Apart(TileAt(s, g, i), TileAt(t, g, j))
  {
    assert i == g * (i / g) + i % g;
    assert j == g * (j / g) + j % g;
    if i % g < j % g {
      OffsetsApart(i % g, j % g);
    } else if j % g < i % g {
      OffsetsApart(j % g, i % g);
    } else if i / g < j / g {
      OffsetsApart(i / g, j / g);
    } else {
      OffsetsApart(j / g, i / g);
    }
  }

  /** The collage shows exactly `sources`, in order, on disjoint tiles that all fit. */
  predicate LaidOut(c: Collage, sources: seq<FilePath>) {
    && |c.tiles| == |sources|
    && (forall k :: 0 <= k < |sources| ==> c.tiles[k].source == sources[k])
    && (forall k :: 0 <= k < |sources| ==> Inside(c.tiles[k], c.side))
    && (forall k, l :: 0 <= k < l < |sources| ==> Apart(c.tiles[k], c.tiles[l]))
  }

  /** Placing image k at grid cell k, for a grid with room for all of them, lays the images out. */
  lemma GridLaidOut(sources: seq<FilePath>, g: nat, tiles: seq<Tile>)
    requires g > 0 && |sources| <= g * g && |tiles| == |sources|
    requires forall k :: 0 <= k < |sources| ==> tiles[k] == TileAt(sources[k], g, k)
    ensures LaidOut(Collage(CanvasSide(g), tiles), sources)
  {
    forall k | 0 <= k < |sources|
      ensures Inside(tiles[k], CanvasSide(g))
    {
      TileInside(sources[k], g, k);
    }
    forall k, l | 0 <= k < l < |sources|
      ensures Apart(tiles[k], tiles[l])
    {
      TilesApart(sources[k], sources[l], g, k, l);
    }
  }

  /**
   * `generate_image` without the pixels: the grid side is the ceiling of the
   * square root of the image count and tile i is copied to column i % grid_xy,
   * row i / grid_xy.
   */
  method PlaceTiles(images: seq<FilePath>) returns (c: Collage)
    ensures c.side == CanvasSide(CeilSqrt(|images|))
    ensures LaidOut(c, images)
    ensures images != [] ==> forall k :: 0 <= k < |images| ==>
              c.tiles[k] == TileAt(images[k], CeilSqrt(|images|), k)
  {
    var gridXY := CeilSqrt(|images|);
    var dimensions := CanvasSide(gridXY);
    var tiles: seq<Tile> := [];
    var i := 0;
    while i < |images|
      invariant 0 <= i <= |images|
      invariant |tiles| == i
      invariant forall k :: 0 <= k < i ==> tiles[k] == TileAt(images[k], gridXY, k)
    {
      tiles := tiles + [TileAt(images[i], gridXY, i)];
      i := i + 1;
    }
    c := Collage(dimensions, tiles);
    if images != [] {
      GridLaidOut(images, gridXY, tiles);
    }
  }

  // ---------------------------------------------------------------------------
  // Weighted candidates and the answer mask
  // ---------------------------------------------------------------------------

  /** An image together with the weight it is drawn with. */
  datatype Candidate = Candidate(path: FilePath, weight: nat)

  /**
   * The random choices of one `generate` call: the number of collections, the
   * collections drawn (the first is the topic), the candidate indices picked
   * for the question, and the new challenge's id.
   */
  datatype Draw = Draw(numCollections: nat, sample: seq<nat>, picks: seq<nat>, id: string)

  function Weighted(images: seq<FilePath>, w: nat): seq<Candidate> {
    seq(|images|, k requires 0 <= k < |images| => Candidate(images[k], w))
  }

  predicate Indices(idx: seq<nat>, n: nat) {
    forall k :: 0 <= k < |idx| ==> idx[k] < n
  }

  /** The images of the other drawn collections, each with weight 1. */
  function Distractors(cs: seq<Collection>, idx: seq<nat>): seq<Candidate>
    requires Indices(idx, |cs|)
  {
    if idx == [] then []
    else Distractors(cs, idx[..|idx| - 1]) + Weighted(cs[idx[|idx| - 1]].images, 1)
  }

  /** The weighted list `images` of `generate`: the topic's images first, with weight n. */
  function Candidates(cs: seq<Collection>, sample: seq<nat>, n: nat): (r: seq<Candidate>)
    requires |sample| >= 1 && Indices(sample, |cs|)
    ensures |r| >= |cs[sample[0]].images|
    ensures forall j :: 0 <= j < |cs[sample[0]].images| ==> r[j] == Candidate(cs[sample[0]].images[j], n)
  {
    Weighted(cs[sample[0]].images, n) + Distractors(cs, sample[1..])
  }

  lemma {:induction false} DistractorsWeighOne(cs: seq<Collection>, idx: seq<nat>)
    requires Indices(idx, |cs|)
    ensures forall k :: 0 <= k < |Distractors(cs, idx)| ==> Distractors(cs, idx)[k].weight == 1
  {
    if idx != [] {
      DistractorsWeighOne(cs, idx[..|idx| - 1]);
    }
  }

  /**
   * A candidate carries the topic weight exactly when it comes from the topic
   * collection: the topic weight n is at least 2, the others weigh 1.
   */
  lemma TopicIffWeight(cs: seq<Collection>, sample: seq<nat>, n: nat, j: nat)
    requires |sample| >= 1 && Indices(sample, |cs|) && n >= MinSampled
    requires j < |Candidates(cs, sample, n)|
    ensures Candidates(cs, sample, n)[j].weight == n <==> j < |cs[sample[0]].images|
  {
    DistractorsWeighOne(cs, sample[1..]);
  }

  /** What the rand crate guarantees about the draw when there are at least two collections. */
  predicate ValidDraw(cs: seq<Collection>, d: Draw) {
    && MinSampled <= d.numCollections <= Min(|cs|, MaxSampled)
    && |d.sample| == d.numCollections
    && Distinct(d.sample)
    && Indices(d.sample, |cs|)
    && var m := |Candidates(cs, d.sample, d.numCollections)|;
       && |d.picks| == Min(QuestionCount, m)
       && Distinct(d.picks)
       && Indices(d.picks, m)
  }

  /**
   * The weighted list of `generate`: the topic collection's images mapped to
   * weight n, then the images of every other drawn collection pushed with
   * weight 1.
   */
  method BuildCandidates(cs: seq<Collection>, sample: seq<nat>, n: nat) returns (images: seq<Candidate>)
    requires |sample| >= 1 && Indices(sample, |cs|)
    ensures images == Candidates(cs, sample, n)
  {
    images := Weighted(cs[sample[0]].images, n);
    var j := 1;
    while j < |sample|
      invariant 1 <= j <= |sample|
      invariant images == Weighted(cs[sample[0]].images, n) + Distractors(cs, sample[1..j])
    {
      var other := cs[sample[j]].images;
      ghost var before := images;
      var k := 0;
      while k < |other|
        invariant 0 <= k <= |other|
        invariant images == before + Weighted(other[..k], 1)
      {
        images := images + [Candidate(other[k], 1)];
        k := k + 1;
        assert Weighted(other[..k], 1) == Weighted(other[..k - 1], 1) + [Candidate(other[k - 1], 1)];
      }
      assert other[..k] == other;
      assert sample[1..j + 1][..j - 1] == sample[1..j];
      j := j + 1;
    }
    assert sample[1..j] == sample[1..];
  }

  /**
   * The answer loop: bit i is set (`answer |= 0x1 << i`) exactly when the
   * i-th question image has weight n. No bit at or beyond the number of
   * images is set.
   */
  method AnswerMask(weights: seq<nat>, n: nat) returns (answer: u32)
    requires |weights| <= WordBits
    ensures forall k: nat :: Bit(answer, k) <==> k < |weights| && weights[k] == n
    ensures answer < Pow2(|weights|)
  {
    answer := 0;
    forall k: nat
      ensures !Bit(0, k)
    {
      ZeroHasNoBits(k);
    }
    var i := 0;
    while i < |weights|
      invariant 0 <= i <= |weights|
      invariant answer < Pow2(i)
      invariant forall k: nat :: Bit(answer, k) <==> k < i && weights[k] == n
    {
      if weights[i] == n {
        var next := Or(answer, Pow2(i));
        OrBelow(answer, Pow2(i), i + 1);
        FitsWord(next, i + 1);
        forall k: nat
          ensures Bit(next, k) <==> k == i || Bit(answer, k)
        {
          OrBits(answer, Pow2(i), k);
          Pow2Bits(i, k);
        }
        answer := next;
      } else {
        Pow2Monotone(i, i + 1);
      }
      i := i + 1;
    }
  }

  /** The candidates at the drawn positions, in the order they were drawn. */
  function Picked(images: seq<Candidate>, picks: seq<nat>): seq<Candidate>
    requires Indices(picks, |images|)
  {
    seq(|picks|, k requires 0 <= k < |picks| => images[picks[k]])
  }

  function Paths(questions: seq<Candidate>): seq<FilePath> {
    seq(|questions|, k requires 0 <= k < |questions| => questions[k].path)
  }

  /**
   * `generate`: fails with InsufficientCollections for fewer than two
   * collections; otherwise the topic is the first drawn collection, the
   * answer has bit k set exactly when the k-th question image comes from the
   * topic collection, and the collage shows the picked images in order.
   */
  method Generate(cs: seq<Collection>, draw: Draw) returns (r: Result<Challenge>)
    requires |cs| >= MinSampled ==> ValidDraw(cs, draw)
    ensures r.Err? <==> |cs| < MinSampled
    ensures r.Err? ==> r.error == InsufficientCollections
    ensures r.Ok? ==> r.value.id == draw.id && r.value.topic == cs[draw.sample[0]].name
    ensures r.Ok? ==> forall k: nat ::
              Bit(r.value.answer, k) <==> k < |draw.picks| && draw.picks[k] < |cs[draw.sample[0]].images|
    ensures r.Ok? ==> r.value.image.side == CanvasSide(CeilSqrt(|draw.picks|))
    ensures r.Ok? ==> LaidOut(r.value.image, Paths(Picked(Candidates(cs, draw.sample, draw.numCollections), draw.picks)))
  {
    if |cs| < MinSampled {
      return Err(InsufficientCollections);
    }
    var n := draw.numCollections;
    var correct := cs[draw.sample[0]];
    var images := BuildCandidates(cs, draw.sample, n);
    var questions := Picked(images, draw.picks);
    var weights := seq(|questions|, k requires 0 <= k < |questions| => questions[k].weight);
    var answer := AnswerMask(weights, n);
    forall k: nat | k < |draw.picks|
      ensures weights[k] == n <==> draw.picks[k] < |correct.images|
    {
      TopicIffWeight(cs, draw.sample, n, draw.picks[k]);
    }
    var image := PlaceTiles(Paths(questions));
    r := Ok(Challenge(draw.id, image, correct.name, answer));
  }
}
