/**
 * The collage planner and compositor: from the pixel sizes of the loaded
 * images and the collage settings, the canvas size, the ordered placements
 * (destination rectangle and, in the grid layout, a centred source crop) and
 * the calls made on the canvas context to paint them.
 *
 * Three policies: a horizontal strip of fixed height 600, a vertical strip of
 * fixed width 800, and a 1200 x 1200 grid with special cases for one, two,
 * three and four or more images.
 */
module CollageProcessor {

  import opened Util
  import opened Canvas
  import DataUri

  datatype Layout = Horizontal | Vertical | Grid

  datatype CollageSettings = CollageSettings(layout: Layout, spacing: real, backgroundColor: string, borderRadius: real)

  /** The pixel size of a loaded image. */
  datatype Size = Size(width: real, height: real)

  predicate Loaded(img: Size) { img.width > 0.0 && img.height > 0.0 }

  predicate AllLoaded(images: seq<Size>) { forall k :: 0 <= k < |images| ==> Loaded(images[k]) }

  /** Image number `image` drawn into `dest`; with a crop, only that part of the image is drawn. */
  datatype Placement = Placement(image: nat, dest: Rect, crop: Option<Rect>)

  datatype Plan = Plan(width: real, height: real, placements: seq<Placement>)

  /** What a successful call produces: the data URIs it loaded, the canvas size, the placements and the painting calls. */
  datatype Collage = Collage(sources: seq<string>, width: real, height: real, placements: seq<Placement>, commands: seq<Command>, format: string)

  datatype CollageError = NoImagesSelected

  const BaseSize: real := 1200.0
  const StripHeight: real := 600.0
  const StripWidth: real := 800.0

  // ---------------------------------------------------------------------------
  // Input normalisation

  /** Every input becomes a data URI; raw base64 data is taken to be PNG. */
  function Normalize(sources: seq<string>): (r: seq<string>)
    ensures |r| == |sources|
    ensures forall k :: 0 <= k < |r| ==> DataUri.StartsWith(r[k], DataUri.Scheme) && DataUri.EndsWith(r[k], sources[k])
    ensures forall k :: 0 <= k < |r| ==> (r[k] == sources[k] <==> DataUri.StartsWith(sources[k], DataUri.Scheme))
    ensures forall k :: 0 <= k < |r| && !DataUri.StartsWith(sources[k], DataUri.Scheme) ==>
      r[k] == DataUri.Header(DataUri.PngMime) + sources[k]
  {
    seq(|sources|, k requires 0 <= k < |sources| => DataUri.WithPrefix(sources[k], DataUri.PngMime))
  }

  lemma NormalizeIdempotent(sources: seq<string>)
    ensures Normalize(Normalize(sources)) == Normalize(sources)
  {
    var once := Normalize(sources);
    forall k | 0 <= k < |once|
      ensures Normalize(once)[k] == once[k]
    {
      DataUri.WithPrefixIdempotent(sources[k], DataUri.PngMime, DataUri.PngMime);
    }
  }

  // ---------------------------------------------------------------------------
  // Strips: placements laid end to end along one axis with `spacing` gaps

  function Sum(xs: seq<real>): real
    decreases |xs|
  {
    if xs == [] then 0.0 else Sum(xs[..|xs| - 1]) + xs[|xs| - 1]
  }

  /** Where the `i`-th of a row of pieces of the given lengths starts: after `i + 1` gaps and the first `i` pieces. */
  function Offset(lengths: seq<real>, spacing: real, i: nat): real
    requires i <= |lengths|
  {
    (i as real + 1.0) * spacing + Sum(lengths[..i])
  }

  predicate NonNegative(lengths: seq<real>) { forall k :: 0 <= k < |lengths| ==> lengths[k] >= 0.0 }

  lemma OffsetStep(lengths: seq<real>, spacing: real, i: nat)
    requires i < |lengths|
    ensures Offset(lengths, spacing, i + 1) == Offset(lengths, spacing, i) + lengths[i] + spacing
  {
    assert lengths[..i + 1][..i] == lengths[..i];
    assert (i as real + 2.0) * spacing == (i as real + 1.0) * spacing + spacing;
  }

  /** With non-negative gaps and lengths, a later piece starts no sooner than one gap after an earlier one ends. */
  lemma {:induction false} OffsetGap(lengths: seq<real>, spacing: real, i: nat, j: nat)
    requires spacing >= 0.0 && NonNegative(lengths)
    requires i < j <= |lengths|
    ensures Offset(lengths, spacing, i) + lengths[i] + spacing <= Offset(lengths, spacing, j)
    decreases j
  {
    OffsetStep(lengths, spacing, j - 1);
    if i < j - 1 {
      OffsetGap(lengths, spacing, i, j - 1);
    }
  }

  /** Widths of the images scaled to the strip height, preserving each aspect ratio. */
  function ScaledWidths(images: seq<Size>): (ws: seq<real>)
    requires AllLoaded(images)
    ensures |ws| == |images|
    ensures forall k :: 0 <= k < |ws| ==> ws[k] > 0.0 && ws[k] * images[k].height == images[k].width * StripHeight
  {
    seq(|images|, k requires 0 <= k < |images| => ScaleTo(images[k].width, StripHeight, images[k].height))
  }

  /** Heights of the images scaled to the strip width, preserving each aspect ratio. */
  function ScaledHeights(images: seq<Size>): (hs: seq<real>)
    requires AllLoaded(images)
    ensures |hs| == |images|
    ensures forall k :: 0 <= k < |hs| ==> hs[k] > 0.0 && hs[k] * images[k].width == images[k].height * StripWidth
  {
    seq(|images|, k requires 0 <= k < |images| => ScaleTo(images[k].height, StripWidth, images[k].width))
  }

  /** `other * (fixed / side)`: the other side of an image whose `side` is scaled to `fixed`. */
  function ScaleTo(other: real, fixed: real, side: real): (r: real)
    requires other > 0.0 && fixed > 0.0 && side > 0.0
    ensures r > 0.0 && r * side == other * fixed
  {
    var scale := fixed / side;
    assert scale > 0.0;
    other * scale
  }

  /** The horizontal strip: every image at height 600, left to right in input order. */
  function HorizontalPlan(images: seq<Size>, spacing: real): (plan: Plan)
    requires AllLoaded(images)
    ensures |plan.placements| == |images|
    ensures plan.width == (|images| as real + 1.0) * spacing + Sum(ScaledWidths(images))
    ensures plan.height == StripHeight + 2.0 * spacing
    ensures forall k :: 0 <= k < |images| ==> HorizontalPiece(plan.placements[k], k, spacing, images[k])
  {
    var ws := ScaledWidths(images);
    assert ws[..|ws|] == ws;
    HorizontalRowShape(images, spacing);
    Plan(Offset(ws, spacing, |ws|), StripHeight + spacing * 2.0, HorizontalRow(ws, spacing))
  }

  lemma HorizontalRowShape(images: seq<Size>, spacing: real)
    requires AllLoaded(images)
    ensures var row := HorizontalRow(ScaledWidths(images), spacing);
      |row| == |images| && forall k :: 0 <= k < |images| ==> HorizontalPiece(row[k], k, spacing, images[k])
  {
  }

  /** Piece `k` of the horizontal strip: image `k`, uncropped, one gap from the top, 600 high, with the image's aspect ratio. */
  predicate HorizontalPiece(p: Placement, k: nat, spacing: real, img: Size) {
    && p.image == k && p.crop == None && p.dest.y == spacing && p.dest.h == StripHeight
    && p.dest.w * img.height == img.width * StripHeight
  }

  /** Pieces of the given widths laid left to right, one gap apart, at height 600. */
  function HorizontalRow(ws: seq<real>, spacing: real): seq<Placement> {
    seq(|ws|, k requires 0 <= k < |ws| => Placement(k, Rect(Offset(ws, spacing, k), spacing, ws[k], StripHeight), None))
  }

  /** The vertical strip: every image at width 800, top to bottom in input order. */
  function VerticalPlan(images: seq<Size>, spacing: real): (plan: Plan)
    requires AllLoaded(images)
    ensures |plan.placements| == |images|
    ensures plan.width == StripWidth + 2.0 * spacing
    ensures plan.height == (|images| as real + 1.0) * spacing + Sum(ScaledHeights(images))
    ensures forall k :: 0 <= k < |images| ==> VerticalPiece(plan.placements[k], k, spacing, images[k])
  {
    var hs := ScaledHeights(images);
    assert hs[..|hs|] == hs;
    VerticalRowShape(images, spacing);
    Plan(StripWidth + spacing * 2.0, Offset(hs, spacing, |hs|), VerticalRow(hs, spacing))
  }

  lemma VerticalRowShape(images: seq<Size>, spacing: real)
    requires AllLoaded(images)
    ensures var row := VerticalRow(ScaledHeights(images), spacing);
      |row| == |images| && forall k :: 0 <= k < |images| ==> VerticalPiece(row[k], k, spacing, images[k])
  {
  }

  /** Piece `k` of the vertical strip: image `k`, uncropped, one gap from the left, 800 wide, with the image's aspect ratio. */
  predicate VerticalPiece(p: Placement, k: nat, spacing: real, img: Size) {
    && p.image == k && p.crop == None && p.dest.x == spacing && p.dest.w == StripWidth
    && p.dest.h * img.width == img.height * StripWidth
  }

  /** Pieces of the given heights stacked top to bottom, one gap apart, at width 800. */
  function VerticalRow(hs: seq<real>, spacing: real): seq<Placement> {
    seq(|hs|, k requires 0 <= k < |hs| => Placement(k, Rect(spacing, Offset(hs, spacing, k), StripWidth, hs[k]), None))
  }

  lemma ScaledNonNegative(images: seq<Size>)
    requires AllLoaded(images)
    ensures NonNegative(ScaledWidths(images)) && NonNegative(ScaledHeights(images))
  {
  }

  /** Strip geometry: consecutive pieces are one gap apart, none overlaps another, all lie one gap inside the ends. */
  lemma StripTiles(lengths: seq<real>, spacing: real)
    requires spacing >= 0.0 && NonNegative(lengths)
    ensures Offset(lengths, spacing, 0) == spacing
    ensures forall k :: 0 <= k < |lengths| ==>
      Offset(lengths, spacing, k + 1) == Offset(lengths, spacing, k) + lengths[k] + spacing
    ensures forall i, j :: 0 <= i < j < |lengths| ==>
      Offset(lengths, spacing, i) + lengths[i] + spacing <= Offset(lengths, spacing, j)
    ensures forall k :: 0 <= k < |lengths| ==>
      spacing <= Offset(lengths, spacing, k) && Offset(lengths, spacing, k) + lengths[k] + spacing <= Offset(lengths, spacing, |lengths|)
  {
    var n := |lengths|;
    assert lengths[..0] == [];
    forall k | 0 <= k < n
      ensures Offset(lengths, spacing, k + 1) == Offset(lengths, spacing, k) + lengths[k] + spacing
    {
      OffsetStep(lengths, spacing, k);
    }
    forall i, j | 0 <= i < j < n
      ensures Offset(lengths, spacing, i) + lengths[i] + spacing <= Offset(lengths, spacing, j)
    {
      OffsetGap(lengths, spacing, i, j);
    }
    forall k | 0 <= k < n
      ensures spacing <= Offset(lengths, spacing, k) && Offset(lengths, spacing, k) + lengths[k] + spacing <= Offset(lengths, spacing, n)
    {
      OffsetGap(lengths, spacing, k, n);
      if k > 0 {
        OffsetGap(lengths, spacing, 0, k);
      }
    }
  }

  /** Placement `k` of the horizontal strip starts at the strip offset `k` and is as wide as the scaled image. */
  lemma HorizontalAt(images: seq<Size>, spacing: real)
    requires AllLoaded(images)
    ensures var plan := HorizontalPlan(images, spacing); var ws := ScaledWidths(images);
      && plan.width == Offset(ws, spacing, |images|)
      && forall k :: 0 <= k < |images| ==> plan.placements[k].dest.x == Offset(ws, spacing, k) && plan.placements[k].dest.w == ws[k]
  {
  }

  /** Placement `k` of the vertical strip starts at the strip offset `k` and is as tall as the scaled image. */
  lemma VerticalAt(images: seq<Size>, spacing: real)
    requires AllLoaded(images)
    ensures var plan := VerticalPlan(images, spacing); var hs := ScaledHeights(images);
      && plan.height == Offset(hs, spacing, |images|)
      && forall k :: 0 <= k < |images| ==> plan.placements[k].dest.y == Offset(hs, spacing, k) && plan.placements[k].dest.h == hs[k]
  {
  }

  /**
   * The horizontal strip tiles its canvas: the first image starts one gap in,
   * each next one starts one gap after the previous ends (so no two overlap),
   * and the canvas ends one gap after the last.
   */
  lemma HorizontalTiles(images: seq<Size>, spacing: real)
    requires AllLoaded(images) && spacing >= 0.0
    ensures var ps := HorizontalPlan(images, spacing).placements;
      && (|images| > 0 ==> ps[0].dest.x == spacing)
      && (forall k :: 0 <= k < |images| - 1 ==> ps[k + 1].dest.x == ps[k].dest.x + ps[k].dest.w + spacing)
      && (|images| > 0 ==> ps[|images| - 1].dest.x + ps[|images| - 1].dest.w + spacing == HorizontalPlan(images, spacing).width)
      && (forall i, j :: 0 <= i < j < |images| ==> ps[i].dest.x + ps[i].dest.w + spacing <= ps[j].dest.x)
      && (forall k :: 0 <= k < |images| ==>
            spacing <= ps[k].dest.x && ps[k].dest.x + ps[k].dest.w + spacing <= HorizontalPlan(images, spacing).width)
  {
    HorizontalAt(images, spacing);
    ScaledNonNegative(images);
    StripTiles(ScaledWidths(images), spacing);
  }

  /** The vertical strip tiles its canvas, top to bottom, as the horizontal one does left to right. */
  lemma VerticalTiles(images: seq<Size>, spacing: real)
    requires AllLoaded(images) && spacing >= 0.0
    ensures var ps := VerticalPlan(images, spacing).placements;
      && (|images| > 0 ==> ps[0].dest.y == spacing)
      && (forall k :: 0 <= k < |images| - 1 ==> ps[k + 1].dest.y == ps[k].dest.y + ps[k].dest.h + spacing)
      && (|images| > 0 ==> ps[|images| - 1].dest.y + ps[|images| - 1].dest.h + spacing == VerticalPlan(images, spacing).height)
      && (forall i, j :: 0 <= i < j < |images| ==> ps[i].dest.y + ps[i].dest.h + spacing <= ps[j].dest.y)
      && (forall k :: 0 <= k < |images| ==>
            spacing <= ps[k].dest.y && ps[k].dest.y + ps[k].dest.h + spacing <= VerticalPlan(images, spacing).height)
  {
    VerticalAt(images, spacing);
    ScaledNonNegative(images);
    StripTiles(ScaledHeights(images), spacing);
  }

  /** The loop of the horizontal branch, advancing `currentX`. */
  method PlanHorizontal(images: seq<Size>, spacing: real) returns (plan: Plan)
    requires AllLoaded(images)
    ensures plan == HorizontalPlan(images, spacing)
  {
    ghost var ws := ScaledWidths(images);
    ghost var row := HorizontalRow(ws, spacing);
    var placements: seq<Placement> := [];
    var currentX := spacing;
    var i := 0;
    while i < |images|
      invariant 0 <= i <= |images|
      invariant currentX == Offset(ws, spacing, i)
      invariant |placements| == i
      invariant forall k :: 0 <= k < i ==> placements[k] == row[k]
    {
      var scale := StripHeight / images[i].height;
      var targetWidth := images[i].width * scale;
      assert targetWidth == ws[i];
      placements := placements + [Placement(i, Rect(currentX, spacing, targetWidth, StripHeight), None)];
      OffsetStep(ws, spacing, i);
      currentX := currentX + targetWidth + spacing;
      i := i + 1;
    }
    assert placements == row;
    plan := Plan(currentX, StripHeight + spacing * 2.0, placements);
  }

  /** The loop of the vertical branch, advancing `currentY`. */
  method PlanVertical(images: seq<Size>, spacing: real) returns (plan: Plan)
    requires AllLoaded(images)
    ensures plan == VerticalPlan(images, spacing)
  {
    ghost var hs := ScaledHeights(images);
    ghost var row := VerticalRow(hs, spacing);
    var placements: seq<Placement> := [];
    var currentY := spacing;
    var i := 0;
    while i < |images|
      invariant 0 <= i <= |images|
      invariant currentY == Offset(hs, spacing, i)
      invariant |placements| == i
      invariant forall k :: 0 <= k < i ==> placements[k] == row[k]
    {
      var scale := StripWidth / images[i].width;
      var targetHeight := images[i].height * scale;
      assert targetHeight == hs[i];
      placements := placements + [Placement(i, Rect(spacing, currentY, StripWidth, targetHeight), None)];
      OffsetStep(hs, spacing, i);
      currentY := currentY + targetHeight + spacing;
      i := i + 1;
    }
    assert placements == row;
    plan := Plan(StripWidth + spacing * 2.0, currentY, placements);
  }

  // ---------------------------------------------------------------------------
  // Grid: a fixed 1200 x 1200 canvas, every image centre-cropped into its cell

  /** The cells of the grid layout for `count` images; four or more images use a 2 x 2 grid. */
  function GridCells(count: nat, spacing: real): (cells: seq<Rect>)
    requires count >= 1
    ensures |cells| == if count < 4 then count else 4
  {
    var s := spacing;
    if count == 1 then
      [Rect(s, s, BaseSize - 2.0 * s, BaseSize - 2.0 * s)]
    else if count == 2 then
      var w := (BaseSize - 3.0 * s) / 2.0;
      var h := BaseSize - 2.0 * s;
      [Rect(s, s, w, h), Rect(s * 2.0 + w, s, w, h)]
    else if count == 3 then
      var col1W := (BaseSize - 3.0 * s) * 0.6;
      var col2W := (BaseSize - 3.0 * s) * 0.4;
      var col2H := (BaseSize - 3.0 * s) / 2.0;
      [Rect(s, s, col1W, BaseSize - 2.0 * s), Rect(s * 2.0 + col1W, s, col2W, col2H), Rect(s * 2.0 + col1W, s * 2.0 + col2H, col2W, col2H)]
    else
      var w := (BaseSize - 3.0 * s) / 2.0;
      var h := (BaseSize - 3.0 * s) / 2.0;
      [Rect(s, s, w, h), Rect(s * 2.0 + w, s, w, h), Rect(s, s * 2.0 + h, w, h), Rect(s * 2.0 + w, s * 2.0 + h, w, h)]
  }

  /**
   * The crop computation divides by every cell height; a zero height (spacing
   * 400 with three or more images, 600 with one to three) yields 0/0 in the
   * program, and is outside this model.
   */
  predicate GridDefined(count: nat, spacing: real) {
    count >= 1 && forall k :: 0 <= k < |GridCells(count, spacing)| ==> GridCells(count, spacing)[k].h != 0.0
  }

  /**
   * The centred source crop of `addGridPlacement`: the largest rectangle of the
   * cell's aspect ratio that fits the image, centred in it. A wider image loses
   * equal strips left and right, a taller one top and bottom.
   */
  function CenterCrop(img: Size, targetW: real, targetH: real): (crop: Rect)
    requires Loaded(img) && targetH != 0.0
    ensures crop.x >= 0.0 && crop.y >= 0.0
    ensures 2.0 * crop.x + crop.w == img.width && 2.0 * crop.y + crop.h == img.height
    ensures crop.w == img.width || crop.h == img.height
    ensures crop.h > 0.0 && crop.w * targetH == crop.h * targetW
    ensures targetW / targetH > 0.0 ==> crop.w > 0.0
  {
    var imgRatio := img.width / img.height;
    var targetRatio := targetW / targetH;
    assert imgRatio > 0.0;
    if imgRatio > targetRatio then
      var sh := img.height;
      var sw := img.height * targetRatio;
      CropWider(img, targetW, targetH, sw);
      Rect((img.width - sw) / 2.0, 0.0, sw, sh)
    else
      var sw := img.width;
      var sh := img.width / targetRatio;
      CropTaller(img, targetW, targetH, sh);
      Rect(0.0, (img.height - sh) / 2.0, sw, sh)
  }

  lemma CropWider(img: Size, targetW: real, targetH: real, sw: real)
    requires Loaded(img) && targetH != 0.0
    requires img.width / img.height > targetW / targetH && sw == img.height * (targetW / targetH)
    ensures sw <= img.width && sw * targetH == img.height * targetW
    ensures targetW / targetH > 0.0 ==> sw > 0.0
  {
    var r := targetW / targetH;
    assert r * targetH == targetW;
    assert img.height * (img.width / img.height) == img.width;
    assert img.height * r < img.height * (img.width / img.height);
  }

  lemma CropTaller(img: Size, targetW: real, targetH: real, sh: real)
    requires Loaded(img) && targetH != 0.0
    requires img.width / img.height <= targetW / targetH
    ensures targetW / targetH > 0.0
    ensures sh == img.width / (targetW / targetH) ==> sh > 0.0 && sh <= img.height && img.width * targetH == sh * targetW
  {
    var r := targetW / targetH;
    assert img.width / img.height > 0.0;
    assert r * targetH == targetW;
    if sh == img.width / r {
      assert sh * r == img.width;
      assert img.height * (img.width / img.height) == img.width;
      assert sh * r <= img.height * r;
    }
  }

  /** The grid: `min(count, 4)` cells, the `k`-th drawing image `k`, each with its centred crop. */
  function GridPlan(images: seq<Size>, spacing: real): (plan: Plan)
    requires AllLoaded(images) && GridDefined(|images|, spacing)
    ensures plan.width == BaseSize && plan.height == BaseSize
    ensures |plan.placements| == if |images| < 4 then |images| else 4
    ensures forall k :: 0 <= k < |plan.placements| ==>
      var p := plan.placements[k];
      p.image == k && p.dest == GridCells(|images|, spacing)[k] && p.crop == Some(CenterCrop(images[k], p.dest.w, p.dest.h))
  {
    var cells := GridCells(|images|, spacing);
    Plan(BaseSize, BaseSize, seq(|cells|, k requires 0 <= k < |cells| => GridPlacement(images, spacing, k)))
  }

  /** Placement `k` of the grid: image `k`, centre-cropped into cell `k`. */
  function GridPlacement(images: seq<Size>, spacing: real, k: nat): Placement
    requires AllLoaded(images) && GridDefined(|images|, spacing) && k < |GridCells(|images|, spacing)|
  {
    var cell := GridCells(|images|, spacing)[k];
    Placement(k, cell, Some(CenterCrop(images[k], cell.w, cell.h)))
  }

  /** The grid placements listed out, case by case. */
  lemma GridPlanList(images: seq<Size>, spacing: real)
    requires AllLoaded(images) && GridDefined(|images|, spacing)
    ensures var ps := GridPlan(images, spacing).placements; var n := |images|;
      && (n == 1 ==> ps == [GridPlacement(images, spacing, 0)])
      && (n == 2 ==> ps == [GridPlacement(images, spacing, 0), GridPlacement(images, spacing, 1)])
      && (n == 3 ==> ps == [GridPlacement(images, spacing, 0), GridPlacement(images, spacing, 1), GridPlacement(images, spacing, 2)])
      && (n >= 4 ==> ps == [GridPlacement(images, spacing, 0), GridPlacement(images, spacing, 1),
                            GridPlacement(images, spacing, 2), GridPlacement(images, spacing, 3)])
  {
  }

  /** `addGridPlacement`: appends the cell at `(x, y, targetW, targetH)` with the centred crop of `img` (image number `image`). */
  method AddGridPlacement(placements: seq<Placement>, image: nat, img: Size, x: real, y: real, targetW: real, targetH: real)
    returns (result: seq<Placement>)
    requires Loaded(img) && targetH != 0.0
    ensures result == placements + [Placement(image, Rect(x, y, targetW, targetH), Some(CenterCrop(img, targetW, targetH)))]
  {
    var crop := CenterCrop(img, targetW, targetH);
    result := placements + [Placement(image, Rect(x, y, targetW, targetH), Some(crop))];
  }

  /** The grid branch; the fourth cell takes `images[3] || images[0]`. */
  method PlanGrid(images: seq<Size>, spacing: real) returns (plan: Plan)
    requires AllLoaded(images) && GridDefined(|images|, spacing)
    ensures plan == GridPlan(images, spacing)
  {
    var s := spacing;
    var count := |images|;
    ghost var cells := GridCells(count, s);
    assert forall k :: 0 <= k < |cells| ==> cells[k].h != 0.0;
    var placements: seq<Placement> := [];
    if count == 1 {
      placements := AddGridPlacement(placements, 0, images[0], s, s, BaseSize - 2.0 * s, BaseSize - 2.0 * s);
      assert placements == [GridPlacement(images, s, 0)];
    } else if count == 2 {
      var w := (BaseSize - 3.0 * s) / 2.0;
      var h := BaseSize - 2.0 * s;
      assert cells[0].h == h;
      placements := AddGridPlacement(placements, 0, images[0], s, s, w, h);
      placements := AddGridPlacement(placements, 1, images[1], s * 2.0 + w, s, w, h);
      assert placements == [GridPlacement(images, s, 0), GridPlacement(images, s, 1)];
    } else if count == 3 {
      var col1W := (BaseSize - 3.0 * s) * 0.6;
      var col2W := (BaseSize - 3.0 * s) * 0.4;
      var col2H := (BaseSize - 3.0 * s) / 2.0;
      assert cells[0].h == BaseSize - 2.0 * s && cells[1].h == col2H;
      placements := AddGridPlacement(placements, 0, images[0], s, s, col1W, BaseSize - 2.0 * s);
      placements := AddGridPlacement(placements, 1, images[1], s * 2.0 + col1W, s, col2W, col2H);
      placements := AddGridPlacement(placements, 2, images[2], s * 2.0 + col1W, s * 2.0 + col2H, col2W, col2H);
      assert placements == [GridPlacement(images, s, 0), GridPlacement(images, s, 1), GridPlacement(images, s, 2)];
    } else {
      var w := (BaseSize - 3.0 * s) / 2.0;
      var h := (BaseSize - 3.0 * s) / 2.0;
      assert cells[0].h == h;
      var fourth := if 3 < count then 3 else 0;
      placements := AddGridPlacement(placements, 0, images[0], s, s, w, h);
      placements := AddGridPlacement(placements, 1, images[1], s * 2.0 + w, s, w, h);
      placements := AddGridPlacement(placements, 2, images[2], s, s * 2.0 + h, w, h);
      placements := AddGridPlacement(placements, fourth, images[fourth], s * 2.0 + w, s * 2.0 + h, w, h);
      assert placements == [GridPlacement(images, s, 0), GridPlacement(images, s, 1), GridPlacement(images, s, 2), GridPlacement(images, s, 3)];
    }
    GridPlanList(images, s);
    plan := Plan(BaseSize, BaseSize, placements);
  }

  predicate Disjoint(a: Rect, b: Rect) {
    a.x + a.w <= b.x || b.x + b.w <= a.x || a.y + a.h <= b.y || b.y + b.h <= a.y
  }

  /** A non-empty rectangle inside the square `[lo, hi] x [lo, hi]`. */
  predicate Within(r: Rect, lo: real, hi: real) {
    r.w > 0.0 && r.h > 0.0 && lo <= r.x && r.x + r.w <= hi && lo <= r.y && r.y + r.h <= hi
  }

  /**
   * How the grid cells tile the canvas: one inset cell; two equal columns with
   * `2w + 3s = 1200`; a 60 % column beside two stacked 40 % cells exactly as
   * tall as it; or four equal squares at offsets `s` and `2s + w`.
   */
  lemma GridShapes(count: nat, spacing: real)
    requires count >= 1
    ensures var c := GridCells(count, spacing); var s := spacing;
      && (count == 1 ==> c[0].x == s && c[0].y == s && c[0].x + c[0].w + s == BaseSize && c[0].y + c[0].h + s == BaseSize)
      && (count == 2 ==>
            && c[0].w == c[1].w && c[0].h == c[1].h && 2.0 * c[0].w + 3.0 * s == BaseSize
            && c[0].x == s && c[1].x == 2.0 * s + c[0].w && c[0].y == c[1].y == s && c[0].h + 2.0 * s == BaseSize)
      && (count == 3 ==>
            && c[0].x == s && c[0].y == s
            && c[0].w == 0.6 * (BaseSize - 3.0 * s) && c[1].w == 0.4 * (BaseSize - 3.0 * s)
            && c[0].w + c[1].w + 3.0 * s == BaseSize && c[0].h == BaseSize - 2.0 * s
            && c[1].w == c[2].w && c[1].h == c[2].h && 2.0 * c[1].h + s == c[0].h
            && c[1].x == c[2].x == 2.0 * s + c[0].w && c[1].y == s && c[2].y == 2.0 * s + c[1].h)
      && (count >= 4 ==>
            && (forall k :: 0 <= k < 4 ==> c[k].w == c[k].h == c[0].w) && 2.0 * c[0].w + 3.0 * s == BaseSize
            && c[0].x == c[2].x == s && c[1].x == c[3].x == 2.0 * s + c[0].w
            && c[0].y == c[1].y == s && c[2].y == c[3].y == 2.0 * s + c[0].w)
  {
  }

  /** With spacing in `[0, 400)` every cell is non-empty, lies inside the inset square and overlaps no other cell. */
  lemma GridDisjointWithin(count: nat, spacing: real)
    requires count >= 1 && 0.0 <= spacing < 400.0
    ensures GridDefined(count, spacing)
    ensures var c := GridCells(count, spacing);
      && (forall k :: 0 <= k < |c| ==> Within(c[k], spacing, BaseSize - spacing))
      && (forall i, j :: 0 <= i < j < |c| ==> Disjoint(c[i], c[j]))
  {
  }

  /**
   * `crop` is a non-empty part of `img` touching two opposite edges of it,
   * centred in it, with the aspect ratio of `dest`.
   */
  predicate FitsCentred(crop: Rect, img: Size, dest: Rect) {
    && 0.0 <= crop.x && 0.0 < crop.w && crop.x + crop.w <= img.width
    && 0.0 <= crop.y && 0.0 < crop.h && crop.y + crop.h <= img.height
    && (crop.w == img.width || crop.h == img.height)
    && crop.x + crop.w / 2.0 == img.width / 2.0 && crop.y + crop.h / 2.0 == img.height / 2.0
    && crop.w * dest.h == crop.h * dest.w
  }

  lemma CropFits(img: Size, dest: Rect)
    requires Loaded(img) && dest.w > 0.0 && dest.h > 0.0
    ensures FitsCentred(CenterCrop(img, dest.w, dest.h), img, dest)
  {
    assert dest.w / dest.h > 0.0;
  }

  /** Every grid crop fits its image, centred, with the aspect ratio of its cell. */
  lemma GridCropsFit(images: seq<Size>, spacing: real)
    requires AllLoaded(images) && |images| >= 1 && 0.0 <= spacing < 400.0
    ensures GridDefined(|images|, spacing)
    ensures var ps := GridPlan(images, spacing).placements;
      forall k :: 0 <= k < |ps| ==> ps[k].crop.Some? && FitsCentred(ps[k].crop.value, images[ps[k].image], ps[k].dest)
  {
    GridDisjointWithin(|images|, spacing);
    var ps := GridPlan(images, spacing).placements;
    var cells := GridCells(|images|, spacing);
    forall k | 0 <= k < |ps|
      ensures ps[k].crop.Some? && FitsCentred(ps[k].crop.value, images[ps[k].image], ps[k].dest)
    {
      assert ps[k].dest == cells[k] && ps[k].image == k;
      CropFits(images[k], cells[k]);
    }
  }

  /**
   * The worked example: four images of 400x300, 300x400, 600x600 and 200x800
   * with spacing 20 give a 1200 x 1200 canvas of four 570 x 570 cells.
   */
  lemma GridExample()
    ensures var images := [Size(400.0, 300.0), Size(300.0, 400.0), Size(600.0, 600.0), Size(200.0, 800.0)];
      && GridDefined(4, 20.0)
      && var plan := GridPlan(images, 20.0);
      && plan.width == 1200.0 && plan.height == 1200.0 && |plan.placements| == 4
      && (forall k :: 0 <= k < 4 ==> plan.placements[k].dest.w == 570.0 && plan.placements[k].dest.h == 570.0)
      && plan.placements[0].crop == Some(Rect(50.0, 0.0, 300.0, 300.0))
      && plan.placements[3].crop == Some(Rect(0.0, 300.0, 200.0, 200.0))
  {
    GridDisjointWithin(4, 20.0);
  }

  // ---------------------------------------------------------------------------
  // The whole call: validation, layout, painting

  /** The layout the settings select; `count` images must have been given. */
  function LayoutPlan(images: seq<Size>, settings: CollageSettings): (plan: Plan)
    requires AllLoaded(images) && |images| >= 1
    requires settings.layout == Grid ==> GridDefined(|images|, settings.spacing)
    ensures settings.layout == Horizontal ==> plan.height == StripHeight + 2.0 * settings.spacing
    ensures settings.layout == Vertical ==> plan.width == StripWidth + 2.0 * settings.spacing
    ensures settings.layout == Grid ==> plan.width == BaseSize && plan.height == BaseSize
  {
    match settings.layout
    case Horizontal => HorizontalPlan(images, settings.spacing)
    case Vertical => VerticalPlan(images, settings.spacing)
    case Grid => GridPlan(images, settings.spacing)
  }

  /** The clip path of a placement: a rounded rectangle, or a plain one where `roundRect` is unsupported. */
  function ClipFor(dest: Rect, radius: real, roundRectSupported: bool): Clip {
    if roundRectSupported then RoundRectClip(dest, radius) else RectClip(dest)
  }

  /** The clips a placement is drawn under, on top of those of `base`. */
  function ClipsFor(dest: Rect, radius: real, roundRectSupported: bool): seq<Clip> {
    if radius > 0.0 then [ClipFor(dest, radius, roundRectSupported)] else []
  }

  /** One iteration of the drawing loop: save, clip when the radius is positive, draw, restore. */
  function PlacementCommands(p: Placement, radius: real, roundRectSupported: bool, base: State): (cmds: seq<Command>)
    ensures |cmds| == if radius > 0.0 then 4 else 3
    ensures cmds[0] == Command.Save && cmds[|cmds| - 1] == Command.Restore
    ensures radius > 0.0 ==> cmds[1] == ClipPath(ClipFor(p.dest, radius, roundRectSupported))
  {
    var clips := ClipsFor(p.dest, radius, roundRectSupported);
    [Command.Save]
    + (if radius > 0.0 then [ClipPath(clips[0])] else [])
    + [Command.DrawImage(p.image, p.crop, p.dest, base.(clips := base.clips + clips))]
    + [Command.Restore]
  }

  function DrawCommands(placements: seq<Placement>, radius: real, roundRectSupported: bool, base: State): (cmds: seq<Command>)
    ensures |cmds| == (if radius > 0.0 then 4 else 3) * |placements|
    decreases |placements|
  {
    if placements == [] then []
    else
      DrawCommands(placements[..|placements| - 1], radius, roundRectSupported, base)
      + PlacementCommands(placements[|placements| - 1], radius, roundRectSupported, base)
  }

  /** `clearRect` over the canvas for a transparent background, otherwise `fillStyle` then `fillRect`. */
  function BackgroundCommands(background: string, width: real, height: real): (cmds: seq<Command>)
    ensures |cmds| == if background == "transparent" then 1 else 2
    ensures forall k :: 0 <= k < |cmds| ==> !cmds[k].DrawImage?
    ensures cmds[|cmds| - 1].ClearRect? || cmds[|cmds| - 1].FillRect?
    ensures cmds[|cmds| - 1].area == Rect(0.0, 0.0, width, height) && cmds[|cmds| - 1].state.clips == []
  {
    var canvas := Rect(0.0, 0.0, width, height);
    if background == "transparent" then [Command.ClearRect(canvas, InitialState)]
    else [Command.SetFillStyle(background), Command.FillRect(canvas, InitialState.(fillStyle := background))]
  }

  function AfterBackground(background: string): State {
    if background == "transparent" then InitialState else InitialState.(fillStyle := background)
  }

  /** `createCollage`, as a value: rejection of an empty selection, or the collage it paints. */
  function CollageSpec(sources: seq<string>, settings: CollageSettings, loaded: seq<Size>, roundRectSupported: bool)
    : (r: Result<Collage, CollageError>)
    requires |loaded| == |sources| && AllLoaded(loaded)
    requires settings.layout == Grid && |loaded| >= 1 ==> GridDefined(|loaded|, settings.spacing)
    ensures r.Err? <==> sources == []
    ensures r.Ok? ==> r.value.sources == Normalize(sources)
    ensures r.Ok? ==> r.value.format == DataUri.PngMime
  {
    if |sources| == 0 then Err(NoImagesSelected)
    else
      var plan := LayoutPlan(loaded, settings);
      Ok(Collage(Normalize(sources), plan.width, plan.height, plan.placements,
        BackgroundCommands(settings.backgroundColor, plan.width, plan.height)
        + DrawCommands(plan.placements, settings.borderRadius, roundRectSupported, AfterBackground(settings.backgroundColor)),
        DataUri.PngMime))
  }

  /** One iteration of the drawing loop: save, clip to the placement when the radius is positive, draw, restore. */
  method DrawPlacement(ctx: Context, p: Placement, radius: real, roundRectSupported: bool)
    modifies ctx
    ensures ctx.log == old(ctx.log) + PlacementCommands(p, radius, roundRectSupported, old(ctx.state))
    ensures ctx.state == old(ctx.state) && ctx.stack == old(ctx.stack)
    ensures ctx.width == old(ctx.width) && ctx.height == old(ctx.height)
  {
    ghost var base := ctx.state;
    ghost var clips := ClipsFor(p.dest, radius, roundRectSupported);
    ghost var draw := Command.DrawImage(p.image, p.crop, p.dest, base.(clips := base.clips + clips));
    ctx.Save();
    if radius > 0.0 {
      ctx.ClipTo(ClipFor(p.dest, radius, roundRectSupported));
      assert ctx.state == base.(clips := base.clips + clips);
    } else {
      assert base.clips + clips == base.clips;
    }
    ctx.DrawImage(p.image, p.crop, p.dest);
    ctx.Restore();
    if radius > 0.0 {
      assert ctx.log == old(ctx.log) + [Command.Save, ClipPath(clips[0]), draw, Command.Restore];
    } else {
      assert ctx.log == old(ctx.log) + [Command.Save, draw, Command.Restore];
    }
  }

  lemma DrawCommandsSnoc(placements: seq<Placement>, i: nat, radius: real, roundRectSupported: bool, base: State)
    requires i < |placements|
    ensures DrawCommands(placements[..i + 1], radius, roundRectSupported, base)
      == DrawCommands(placements[..i], radius, roundRectSupported, base) + PlacementCommands(placements[i], radius, roundRectSupported, base)
  {
    assert placements[..i + 1][..i] == placements[..i];
  }

  lemma LogAppend(log: seq<Command>, done: seq<Command>, next: seq<Command>)
    ensures (log + done) + next == log + (done + next)
  {
  }

  /** The drawing loop over the placements. */
  method DrawPlacements(ctx: Context, placements: seq<Placement>, radius: real, roundRectSupported: bool)
    modifies ctx
    ensures ctx.log == old(ctx.log) + DrawCommands(placements, radius, roundRectSupported, old(ctx.state))
    ensures ctx.state == old(ctx.state) && ctx.stack == old(ctx.stack)
    ensures ctx.width == old(ctx.width) && ctx.height == old(ctx.height)
  {
    ghost var base, log0, stack0 := ctx.state, ctx.log, ctx.stack;
    var i := 0;
    while i < |placements|
      invariant 0 <= i <= |placements|
      invariant ctx.log == log0 + DrawCommands(placements[..i], radius, roundRectSupported, base)
      invariant ctx.state == base && ctx.stack == stack0
      invariant ctx.width == old(ctx.width) && ctx.height == old(ctx.height)
    {
      DrawCommandsSnoc(placements, i, radius, roundRectSupported, base);
      LogAppend(log0, DrawCommands(placements[..i], radius, roundRectSupported, base), PlacementCommands(placements[i], radius, roundRectSupported, base));
      DrawPlacement(ctx, placements[i], radius, roundRectSupported);
      i := i + 1;
    }
    assert placements[..|placements|] == placements;
  }

  /**
   * `createCollage`. `loaded` holds the pixel sizes the browser decoded for the
   * normalised sources, in order; `roundRectSupported` says whether the
   * context offers `roundRect`.
   */
  method CreateCollage(sources: seq<string>, settings: CollageSettings, loaded: seq<Size>, roundRectSupported: bool)
    returns (r: Result<Collage, CollageError>)
    requires |loaded| == |sources| && AllLoaded(loaded)
    requires settings.layout == Grid && |loaded| >= 1 ==> GridDefined(|loaded|, settings.spacing)
    ensures r == CollageSpec(sources, settings, loaded, roundRectSupported)
  {
    if |sources| == 0 {
      return Err(NoImagesSelected);
    }
    var normalized := Normalize(sources);
    var plan: Plan;
    match settings.layout {
      case Horizontal => plan := PlanHorizontal(loaded, settings.spacing);
      case Vertical => plan := PlanVertical(loaded, settings.spacing);
      case Grid => plan := PlanGrid(loaded, settings.spacing);
    }
    var commands := Paint(plan, settings, roundRectSupported);
    r := Ok(Collage(normalized, plan.width, plan.height, plan.placements, commands, DataUri.PngMime));
  }

  /** The drawing half of `createCollage`: a fresh canvas of the plan's size, its background, then the placements. */
  method Paint(plan: Plan, settings: CollageSettings, roundRectSupported: bool) returns (commands: seq<Command>)
    ensures commands == BackgroundCommands(settings.backgroundColor, plan.width, plan.height)
      + DrawCommands(plan.placements, settings.borderRadius, roundRectSupported, AfterBackground(settings.backgroundColor))
  {
    var ctx := new Context(plan.width, plan.height);
    var canvas := Rect(0.0, 0.0, plan.width, plan.height);
    if settings.backgroundColor == "transparent" {
      ctx.ClearRect(canvas);
    } else {
      ctx.SetFillStyle(settings.backgroundColor);
      ctx.FillRect(canvas);
    }
    DrawPlacements(ctx, plan.placements, settings.borderRadius, roundRectSupported);
    commands := ctx.log;
  }

  // ---------------------------------------------------------------------------
  // Properties of the painting calls

  /** The `drawImage` calls of a command list, in order. */
  function Draws(commands: seq<Command>): seq<Command>
    decreases |commands|
  {
    if commands == [] then []
    else Draws(commands[..|commands| - 1]) + (if commands[|commands| - 1].DrawImage? then [commands[|commands| - 1]] else [])
  }

  lemma {:induction false} DrawsAppend(a: seq<Command>, b: seq<Command>)
    ensures Draws(a + b) == Draws(a) + Draws(b)
    decreases |b|
  {
    if b == [] {
      assert a + b == a;
    } else {
      var ab := a + b;
      assert ab[..|ab| - 1] == a + b[..|b| - 1];
      assert ab[|ab| - 1] == b[|b| - 1];
      DrawsAppend(a, b[..|b| - 1]);
    }
  }

  /** The only `drawImage` call of one loop iteration. */
  lemma PlacementDraws(p: Placement, radius: real, roundRectSupported: bool, base: State)
    ensures Draws(PlacementCommands(p, radius, roundRectSupported, base))
      == [Command.DrawImage(p.image, p.crop, p.dest, base.(clips := base.clips + ClipsFor(p.dest, radius, roundRectSupported)))]
  {
    var cmds := PlacementCommands(p, radius, roundRectSupported, base);
    var d := Command.DrawImage(p.image, p.crop, p.dest, base.(clips := base.clips + ClipsFor(p.dest, radius, roundRectSupported)));
    var n := |cmds|;
    assert cmds[n - 1] == Command.Restore && cmds[n - 2] == d;
    assert cmds[..n - 1][..n - 2] == cmds[..n - 2];
    DrawsNone(cmds[..n - 2]);
  }

  lemma {:induction false} DrawsNone(commands: seq<Command>)
    requires forall k :: 0 <= k < |commands| ==> !commands[k].DrawImage?
    ensures Draws(commands) == []
    decreases |commands|
  {
    if commands != [] {
      DrawsNone(commands[..|commands| - 1]);
    }
  }

  /**
   * Each placement is drawn exactly once, in input order, into its own
   * rectangle with its own crop, clipped by its own rounded rectangle and by
   * no earlier one: every clip is released before the next placement.
   */
  lemma {:induction false} DrawsInOrder(placements: seq<Placement>, radius: real, roundRectSupported: bool, base: State)
    ensures var ds := Draws(DrawCommands(placements, radius, roundRectSupported, base));
      && |ds| == |placements|
      && forall k :: 0 <= k < |placements| ==>
           ds[k] == Command.DrawImage(placements[k].image, placements[k].crop, placements[k].dest,
                                   base.(clips := base.clips + ClipsFor(placements[k].dest, radius, roundRectSupported)))
    decreases |placements|
  {
    if placements != [] {
      var n := |placements|;
      var front := DrawCommands(placements[..n - 1], radius, roundRectSupported, base);
      var last := PlacementCommands(placements[n - 1], radius, roundRectSupported, base);
      DrawsInOrder(placements[..n - 1], radius, roundRectSupported, base);
      DrawsAppend(front, last);
      PlacementDraws(placements[n - 1], radius, roundRectSupported, base);
      var ds := Draws(DrawCommands(placements, radius, roundRectSupported, base));
      var early := Draws(front);
      assert ds == early + Draws(last);
      forall k | 0 <= k < n
        ensures ds[k] == Command.DrawImage(placements[k].image, placements[k].crop, placements[k].dest,
                           base.(clips := base.clips + ClipsFor(placements[k].dest, radius, roundRectSupported)))
      {
        if k < n - 1 {
          assert ds[k] == early[k] && placements[..n - 1][k] == placements[k];
        }
      }
    }
  }

  /**
   * The painting calls for a canvas and its placements: the background over
   * the whole canvas first, then every placement drawn once, in order, with no
   * clip but its own.
   */
  lemma PaintOrder(background: string, width: real, height: real, placements: seq<Placement>, radius: real, roundRectSupported: bool)
    ensures var cmds := BackgroundCommands(background, width, height)
        + DrawCommands(placements, radius, roundRectSupported, AfterBackground(background));
      && |cmds| >= 1
      && (if background == "transparent"
          then cmds[0] == Command.ClearRect(Rect(0.0, 0.0, width, height), InitialState)
          else cmds[1] == Command.FillRect(Rect(0.0, 0.0, width, height), InitialState.(fillStyle := background)))
      && var ds := Draws(cmds);
      && |ds| == |placements|
      && forall k :: 0 <= k < |ds| ==>
           ds[k] == Command.DrawImage(placements[k].image, placements[k].crop, placements[k].dest,
             AfterBackground(background).(clips := ClipsFor(placements[k].dest, radius, roundRectSupported)))
  {
    var base := AfterBackground(background);
    var bg := BackgroundCommands(background, width, height);
    var draws := DrawCommands(placements, radius, roundRectSupported, base);
    DrawsInOrder(placements, radius, roundRectSupported, base);
    DrawsAppend(bg, draws);
    DrawsNone(bg);
    assert Draws(bg + draws) == Draws(draws);
    assert base.clips == [];
    forall k | 0 <= k < |placements|
      ensures base.clips + ClipsFor(placements[k].dest, radius, roundRectSupported)
           == ClipsFor(placements[k].dest, radius, roundRectSupported)
    {
    }
  }

  /** A collage is painted as `PaintOrder` describes, over the plan of its layout. */
  lemma CollagePaints(sources: seq<string>, settings: CollageSettings, loaded: seq<Size>, roundRectSupported: bool)
    requires |loaded| == |sources| && AllLoaded(loaded) && |sources| >= 1
    requires settings.layout == Grid ==> GridDefined(|loaded|, settings.spacing)
    ensures var c := CollageSpec(sources, settings, loaded, roundRectSupported).value;
      var plan := LayoutPlan(loaded, settings);
      && c.placements == plan.placements && c.width == plan.width && c.height == plan.height
      && c.commands == BackgroundCommands(settings.backgroundColor, plan.width, plan.height)
           + DrawCommands(plan.placements, settings.borderRadius, roundRectSupported, AfterBackground(settings.backgroundColor))
  {
  }

  /** The placements a collage draws: one per image for the strips, the first `min(count, 4)` images for the grid. */
  lemma CollageCount(sources: seq<string>, settings: CollageSettings, loaded: seq<Size>, roundRectSupported: bool)
    requires |loaded| == |sources| && AllLoaded(loaded) && |sources| >= 1
    requires settings.layout == Grid ==> GridDefined(|loaded|, settings.spacing)
    ensures var c := CollageSpec(sources, settings, loaded, roundRectSupported).value;
      && |c.placements| == (if settings.layout == Grid && |sources| > 4 then 4 else |sources|)
      && (forall k :: 0 <= k < |c.placements| ==> c.placements[k].image == k)
      && (settings.layout == Grid <==> forall k :: 0 <= k < |c.placements| ==> c.placements[k].crop.Some?)
  {
  }
}
