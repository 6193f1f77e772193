/**
 * `processImage`: renders one image with brightness, contrast and rotation
 * settings onto a fresh canvas. The output canvas swaps width and height for
 * a quarter turn; the filter is `brightness(b%) contrast(c%)` with
 * `b = brightness + 100` and `c = contrast + 100`; the image is drawn centred
 * on the origin after translating to the canvas centre and rotating.
 *
 * What the filter does to pixel values is the browser's business and is not
 * modelled; what is modelled is the filter string handed to it, and where the
 * transform sends every source pixel.
 */
module ImageProcessor {

  import opened Util
  import opened Canvas
  import JsArith
  import Decimal
  import DataUri

  datatype ImageSettings = ImageSettings(brightness: int, contrast: int, rotation: int)

  /** The natural size of a decoded image, in pixels. */
  datatype PixelSize = PixelSize(width: nat, height: nat)

  /** The result: the URI the image was loaded from, the canvas size, the calls made on it, and the encoding asked for. */
  datatype Rendered = Rendered(source: string, width: nat, height: nat, commands: seq<Command>, format: string)

  /** `rotation % 180 !== 0` under JavaScript's remainder. */
  function IsVertical(rotation: int): (v: bool)
    ensures v <==> rotation % 180 != 0
  {
    JsArith.RemZeroIffDivides(rotation, 180);
    JsArith.Rem(rotation, 180) != 0
  }

  /** The canvas size: the image's size, with the sides swapped unless the rotation is a multiple of 180 degrees. */
  function OutputSize(img: PixelSize, rotation: int): (out: PixelSize)
    ensures rotation % 180 != 0 ==> out == PixelSize(img.height, img.width)
    ensures rotation % 180 == 0 ==> out == img
  {
    JsArith.RemZeroIffDivides(rotation, 180);
    if IsVertical(rotation) then PixelSize(img.height, img.width) else img
  }

  /** Negative quarter and three-quarter turns swap the sides too, although JavaScript's remainder is negative for them. */
  lemma NegativeTurnsSwap(img: PixelSize)
    ensures OutputSize(img, -90) == OutputSize(img, -270) == PixelSize(img.height, img.width)
    ensures OutputSize(img, -180) == img
    ensures JsArith.Rem(-90, 180) == -90 && JsArith.Rem(-270, 180) == -90
  {
  }

  /** A slider value mapped to a filter percentage, 100 meaning unchanged. */
  function Percent(value: int): (p: int)
    ensures -100 <= value <= 100 ==> 0 <= p <= 200
    ensures value == 0 <==> p == 100
    ensures p - value == 100
  {
    value + 100
  }

  const BrightnessOpen: string := "brightness("
  const ContrastOpen: string := ") contrast("
  const FilterClose: string := ")"

  predicate NoPercentSign(s: string) {
    forall k :: 0 <= k < |s| ==> s[k] != '%'
  }

  /** The filter text around the two rendered percentages. */
  function Filter(b: string, c: string): (f: string)
    ensures DataUri.StartsWith(f, BrightnessOpen)
    ensures DataUri.EndsWith(f, FilterClose)
  {
    var f := BrightnessOpen + (b + "%" + (ContrastOpen + (c + "%" + FilterClose)));
    assert f[..|BrightnessOpen|] == BrightnessOpen;
    assert f[|f| - |FilterClose|..] == FilterClose;
    f
  }

  /** `brightness(${b}%) contrast(${c}%)` with `b`, `c` the two percentages. */
  function FilterString(settings: ImageSettings): (f: string)
    ensures DataUri.StartsWith(f, BrightnessOpen) && DataUri.EndsWith(f, FilterClose)
  {
    Filter(Decimal.IntToString(Percent(settings.brightness)), Decimal.IntToString(Percent(settings.contrast)))
  }

  /** The part of `s` before its first `'%'` (all of `s` when it has none). */
  function BeforePercent(s: string): (r: string)
    ensures |r| <= |s| && r == s[..|r|]
  {
    if s == [] || s[0] == '%' then [] else [s[0]] + BeforePercent(s[1..])
  }

  lemma {:induction false} BeforePercentConcat(a: string, x: string)
    requires NoPercentSign(a)
    ensures BeforePercent(a + "%" + x) == a
  {
    if a != [] {
      assert (a + "%" + x)[1..] == a[1..] + "%" + x;
      BeforePercentConcat(a[1..], x);
    }
  }

  /** `'%'` marks the end of a rendered number, which never contains one. */
  lemma SplitAtPercent(a: string, x: string, b: string, y: string)
    requires NoPercentSign(a) && NoPercentSign(b)
    requires a + "%" + x == b + "%" + y
    ensures a == b && x == y
  {
    var s := a + "%" + x;
    BeforePercentConcat(a, x);
    BeforePercentConcat(b, y);
    assert x == s[|a| + 1..];
    assert y == (b + "%" + y)[|b| + 1..];
  }

  lemma NoPercent(i: int)
    ensures NoPercentSign(Decimal.IntToString(i))
  {
  }

  lemma CancelPrefix(p: string, u: string, v: string)
    requires p + u == p + v
    ensures u == v
  {
    assert u == (p + u)[|p|..];
    assert v == (p + v)[|p|..];
  }

  /** Two filter texts are equal only when both numbers are. */
  lemma FilterSplit(b1: string, c1: string, b2: string, c2: string)
    requires NoPercentSign(b1) && NoPercentSign(c1) && NoPercentSign(b2) && NoPercentSign(c2)
    requires Filter(b1, c1) == Filter(b2, c2)
    ensures b1 == b2 && c1 == c2
  {
    var rest1 := ContrastOpen + (c1 + "%" + FilterClose);
    var rest2 := ContrastOpen + (c2 + "%" + FilterClose);
    CancelPrefix(BrightnessOpen, b1 + "%" + rest1, b2 + "%" + rest2);
    SplitAtPercent(b1, rest1, b2, rest2);
    CancelPrefix(ContrastOpen, c1 + "%" + FilterClose, c2 + "%" + FilterClose);
    SplitAtPercent(c1, FilterClose, c2, FilterClose);
  }

  /**
   * The filter string determines both settings: brightness is read before
   * the first `%`, contrast between `contrast(` and the last `%`.
   */
  lemma FilterStringInjective(s1: ImageSettings, s2: ImageSettings)
    requires FilterString(s1) == FilterString(s2)
    ensures s1.brightness == s2.brightness && s1.contrast == s2.contrast
  {
    NoPercent(Percent(s1.brightness));
    NoPercent(Percent(s1.contrast));
    NoPercent(Percent(s2.brightness));
    NoPercent(Percent(s2.contrast));
    FilterSplit(Decimal.IntToString(Percent(s1.brightness)), Decimal.IntToString(Percent(s1.contrast)),
      Decimal.IntToString(Percent(s2.brightness)), Decimal.IntToString(Percent(s2.contrast)));
    Decimal.IntToStringInjective(Percent(s1.brightness), Percent(s2.brightness));
    Decimal.IntToStringInjective(Percent(s1.contrast), Percent(s2.contrast));
  }

  /**
   * Reads a filter text back: the brightness percentage after `brightness(`
   * up to the first `%`, then `) contrast(`, the contrast percentage up to the
   * next `%`, then the closing `)`.
   */
  function ReadFilter(f: string): Option<(int, int)> {
    if !DataUri.StartsWith(f, BrightnessOpen) then None
    else
      var afterOpen := f[|BrightnessOpen|..];
      var b := BeforePercent(afterOpen);
      if |b| == |afterOpen| then None
      else
        var middle := afterOpen[|b| + 1..];
        if !DataUri.StartsWith(middle, ContrastOpen) then None
        else
          var afterContrast := middle[|ContrastOpen|..];
          var c := BeforePercent(afterContrast);
          if |c| == |afterContrast| || afterContrast[|c| + 1..] != FilterClose then None
          else
            match (Decimal.ParseInt(b), Decimal.ParseInt(c))
            case (Some(x), Some(y)) => Some((x, y))
            case _ => None
  }

  /** Reading a filter text gives back its two numbers, in their places: the first one written is the first one read. */
  lemma ReadFilterOfFilter(b: int, c: int)
    ensures ReadFilter(Filter(Decimal.IntToString(b), Decimal.IntToString(c))) == Some((b, c))
  {
    var bs := Decimal.IntToString(b);
    var cs := Decimal.IntToString(c);
    var tail := cs + "%" + FilterClose;
    var rest := ContrastOpen + tail;
    var f := Filter(bs, cs);
    assert f == BrightnessOpen + (bs + "%" + rest);
    var afterOpen := f[|BrightnessOpen|..];
    assert afterOpen == bs + "%" + rest;
    NoPercent(b);
    NoPercent(c);
    BeforePercentConcat(bs, rest);
    assert afterOpen[|bs| + 1..] == rest;
    assert rest[..|ContrastOpen|] == ContrastOpen;
    assert rest[|ContrastOpen|..] == tail;
    BeforePercentConcat(cs, FilterClose);
    assert tail[|cs| + 1..] == FilterClose;
    Decimal.IntRoundTrip(b);
    Decimal.IntRoundTrip(c);
  }

  /** The first number of the filter is the brightness percentage, the second the contrast percentage. */
  lemma ReadFilterString(settings: ImageSettings)
    ensures ReadFilter(FilterString(settings)) == Some((Percent(settings.brightness), Percent(settings.contrast)))
  {
    ReadFilterOfFilter(Percent(settings.brightness), Percent(settings.contrast));
  }

  /** The transform in force when the image is drawn: translate to the canvas centre, then rotate. */
  function DrawTransform(out: PixelSize, rotation: int): seq<Op> {
    [Op.Translate(out.width as real / 2.0, out.height as real / 2.0), Op.Rotate(rotation)]
  }

  /** `drawImage(img, -w/2, -h/2)`: the image at its natural size, centred on the origin. */
  function DrawRect(img: PixelSize): Rect {
    Rect(-(img.width as real) / 2.0, -(img.height as real) / 2.0, img.width as real, img.height as real)
  }

  /** `processImage`, as a value. */
  function RenderSpec(base64Data: string, settings: ImageSettings, mimeType: string, img: PixelSize): (r: Rendered)
    ensures DataUri.StartsWith(r.source, DataUri.Scheme) && DataUri.EndsWith(r.source, base64Data)
    ensures r.source == base64Data <==> DataUri.StartsWith(base64Data, DataUri.Scheme)
    ensures !DataUri.StartsWith(base64Data, DataUri.Scheme) ==> r.source == DataUri.Header(mimeType) + base64Data
    ensures r.format == mimeType
  {
    var out := OutputSize(img, settings.rotation);
    Rendered(DataUri.WithPrefix(base64Data, mimeType), out.width, out.height,
      DrawCalls(FilterString(settings), out, settings.rotation, img), mimeType)
  }

  /** The four calls `processImage` makes on its context. */
  function DrawCalls(filter: string, out: PixelSize, rotation: int, img: PixelSize): seq<Command> {
    [ Command.SetFilter(filter),
      Transform(Op.Translate(out.width as real / 2.0, out.height as real / 2.0)),
      Transform(Op.Rotate(rotation)),
      Command.DrawImage(0, None, DrawRect(img), InitialState.(filter := filter, ops := DrawTransform(out, rotation))) ]
  }

  /**
   * `processImage`. `img` is the natural size of the image the browser decoded
   * from the returned `source`; the result would be encoded as `mimeType`.
   */
  method ProcessImage(base64Data: string, settings: ImageSettings, mimeType: string, img: PixelSize) returns (r: Rendered)
    ensures r == RenderSpec(base64Data, settings, mimeType, img)
  {
    var src := DataUri.WithPrefix(base64Data, mimeType);
    var vertical := JsArith.Rem(settings.rotation, 180) != 0;
    var width: nat := if vertical then img.height else img.width;
    var height: nat := if vertical then img.width else img.height;
    OutputSizeByRem(img, settings.rotation);
    var ctx := new Context(width as real, height as real);
    DrawTurned(ctx, PixelSize(width, height), FilterString(settings), settings.rotation, img);
    r := Rendered(src, width, height, ctx.log, mimeType);
  }

  lemma OutputSizeByRem(img: PixelSize, rotation: int)
    ensures OutputSize(img, rotation) == if JsArith.Rem(rotation, 180) != 0 then PixelSize(img.height, img.width) else img
  {
  }

  /** The drawing calls of `processImage` on a fresh context: filter, translate to the centre, rotate, draw centred. */
  method DrawTurned(ctx: Context, out: PixelSize, filter: string, rotation: int, img: PixelSize)
    requires ctx.state == InitialState && ctx.log == []
    requires ctx.width == out.width as real && ctx.height == out.height as real
    modifies ctx
    ensures ctx.log == DrawCalls(filter, out, rotation, img)
  {
    ctx.SetFilter(filter);
    ctx.Translate(ctx.width / 2.0, ctx.height / 2.0);
    ctx.Rotate(rotation);
    assert ctx.state == InitialState.(filter := filter, ops := DrawTransform(out, rotation));
    ctx.DrawImage(0, None, DrawRect(img));
  }

  /** `processImage` without a mime type: PNG in and out. */
  method ProcessImageDefault(base64Data: string, settings: ImageSettings, img: PixelSize) returns (r: Rendered)
    ensures r == RenderSpec(base64Data, settings, DataUri.PngMime, img)
  {
    r := ProcessImage(base64Data, settings, DataUri.PngMime, img);
  }

  // ---------------------------------------------------------------------------
  // Where the source pixels land

  lemma ToDeviceTranslateRotate(tx: real, ty: real, degrees: int, trig: Trig, p: Point)
    ensures var cs := trig(degrees);
      ToDevice([Op.Translate(tx, ty), Op.Rotate(degrees)], trig, p)
        == Point(tx + cs.x * p.x - cs.y * p.y, ty + cs.y * p.x + cs.x * p.y)
  {
    var ops := [Op.Translate(tx, ty), Op.Rotate(degrees)];
    var q := ApplyOp(Op.Rotate(degrees), trig, p);
    assert ops[..1] == [Op.Translate(tx, ty)];
    assert ToDevice(ops, trig, p) == ToDevice([Op.Translate(tx, ty)], trig, q);
    assert [Op.Translate(tx, ty)][..0] == [];
    assert ToDevice([Op.Translate(tx, ty)], trig, q) == ApplyOp(Op.Translate(tx, ty), trig, q);
  }

  /** The draw call of `processImage`: the image at its natural size, under the filter and the centre-rotate transform. */
  lemma RenderDraw(base64Data: string, settings: ImageSettings, mimeType: string, img: PixelSize)
    ensures var r := RenderSpec(base64Data, settings, mimeType, img);
      && PixelSize(r.width, r.height) == OutputSize(img, settings.rotation)
      && |r.commands| == 4
      && r.commands[3] == Command.DrawImage(0, None, DrawRect(img),
           InitialState.(filter := FilterString(settings), ops := DrawTransform(PixelSize(r.width, r.height), settings.rotation)))
  {
  }

  /** For the exact cosine and sine of any angle, the centre of the drawn image lands on the canvas centre. */
  lemma CentreToCentre(out: PixelSize, img: PixelSize, rotation: int, trig: Trig)
    ensures var d := DrawRect(img);
      ToDevice(DrawTransform(out, rotation), trig, Point(d.x + d.w / 2.0, d.y + d.h / 2.0))
        == Point(out.width as real / 2.0, out.height as real / 2.0)
  {
    var d := DrawRect(img);
    assert Point(d.x + d.w / 2.0, d.y + d.h / 2.0) == Point(0.0, 0.0);
    ToDeviceTranslateRotate(out.width as real / 2.0, out.height as real / 2.0, rotation, trig, Point(0.0, 0.0));
  }

  /** The number of clockwise quarter turns of a rotation, 0 to 3. */
  function Quarter(degrees: int): (q: nat)
    ensures q < 4
  {
    (degrees / 90) % 4
  }

  /** Exact `(cos, sin)` for whole quarter turns (the model applies it to nothing else). */
  function QuarterTrig(degrees: int): Point {
    match Quarter(degrees)
    case 0 => Point(1.0, 0.0)
    case 1 => Point(0.0, 1.0)
    case 2 => Point(-1.0, 0.0)
    case _ => Point(0.0, -1.0)
  }

  /** Where pixel `(px, py)` of a `w` x `h` image ends up after `q` clockwise quarter turns (y pointing down). */
  function PixelMap(q: nat, w: nat, h: nat, px: nat, py: nat): (nat, nat)
    requires q < 4 && px < w && py < h
  {
    if q == 0 then (px, py)
    else if q == 1 then (h - 1 - py, px)
    else if q == 2 then (w - 1 - px, h - 1 - py)
    else (py, w - 1 - px)
  }

  /** The inverse of `PixelMap`: which source pixel lands on output pixel `(qx, qy)`. */
  function PixelSource(q: nat, w: nat, h: nat, qx: nat, qy: nat): (nat, nat)
    requires q < 4
    requires OnTurnedCanvas(q, w, h, qx, qy)
  {
    if q == 0 then (qx, qy)
    else if q == 1 then (qy, h - 1 - qx)
    else if q == 2 then (w - 1 - qx, h - 1 - qy)
    else (w - 1 - qy, qx)
  }

  lemma QuarterOfMultiple(rotation: int)
    requires rotation % 90 == 0
    ensures IsVertical(rotation) <==> Quarter(rotation) % 2 == 1
  {
    JsArith.RemZeroIffDivides(rotation, 180);
    HalfTurns(rotation / 90);
    assert rotation == 90 * (rotation / 90);
    QuarterParity(rotation / 90);
  }

  lemma HalfTurns(k: int)
    ensures (90 * k) % 180 == 0 <==> k % 2 == 0
  {
    var j, e := k / 2, k % 2;
    assert k == 2 * j + e;
    assert 90 * k == 180 * j + 90 * e;
  }

  lemma QuarterParity(k: int)
    ensures (k % 4) % 2 == k % 2
  {
    var j := k / 4;
    var q := k % 4;
    assert k == 4 * j + q;
    if q == 0 {
      assert k == 2 * (2 * j);
    } else if q == 1 {
      assert k == 2 * (2 * j) + 1;
    } else if q == 2 {
      assert k == 2 * (2 * j + 1);
    } else {
      assert k == 2 * (2 * j + 1) + 1;
    }
  }

  /**
   * For a whole number of quarter turns the centre of every source pixel lands
   * on the centre of an output pixel, the one `PixelMap` names, and that pixel
   * lies on the canvas: no part of the image is cropped.
   */
  lemma QuarterTurnPixels(img: PixelSize, rotation: int, px: nat, py: nat)
    requires rotation % 90 == 0 && px < img.width && py < img.height
    ensures var out := OutputSize(img, rotation);
      && var t := PixelMap(Quarter(rotation), img.width, img.height, px, py);
      && var d := DrawRect(img);
      && t.0 < out.width && t.1 < out.height
      && ToDevice(DrawTransform(out, rotation), QuarterTrig, Point(d.x + px as real + 0.5, d.y + py as real + 0.5))
           == Point(t.0 as real + 0.5, t.1 as real + 0.5)
  {
    var out := OutputSize(img, rotation);
    var d := DrawRect(img);
    var p := Point(d.x + px as real + 0.5, d.y + py as real + 0.5);
    QuarterOfMultiple(rotation);
    ToDeviceTranslateRotate(out.width as real / 2.0, out.height as real / 2.0, rotation, QuarterTrig, p);
    var q := Quarter(rotation);
    if q == 0 {
      assert QuarterTrig(rotation) == Point(1.0, 0.0) && out == img;
    } else if q == 1 {
      assert QuarterTrig(rotation) == Point(0.0, 1.0) && out == PixelSize(img.height, img.width);
    } else if q == 2 {
      assert QuarterTrig(rotation) == Point(-1.0, 0.0) && out == img;
    } else {
      assert QuarterTrig(rotation) == Point(0.0, -1.0) && out == PixelSize(img.height, img.width);
    }
  }

  /** The size of the output canvas after `q` quarter turns of a `w` x `h` image. */
  predicate OnTurnedCanvas(q: nat, w: nat, h: nat, qx: nat, qy: nat) {
    if q % 2 == 0 then qx < w && qy < h else qx < h && qy < w
  }

  /** Every source pixel lands on the turned canvas, and `PixelSource` brings it back: `PixelMap` is injective. */
  lemma PixelMapInjective(q: nat, w: nat, h: nat, px: nat, py: nat)
    requires q < 4 && px < w && py < h
    ensures var t := PixelMap(q, w, h, px, py);
      OnTurnedCanvas(q, w, h, t.0, t.1) && PixelSource(q, w, h, t.0, t.1) == (px, py)
  {
  }

  /** Every pixel of the turned canvas is covered, by the source pixel `PixelSource` names: `PixelMap` is onto. */
  lemma PixelMapOnto(q: nat, w: nat, h: nat, qx: nat, qy: nat)
    requires q < 4 && OnTurnedCanvas(q, w, h, qx, qy)
    ensures var s := PixelSource(q, w, h, qx, qy);
      s.0 < w && s.1 < h && PixelMap(q, w, h, s.0, s.1) == (qx, qy)
  {
  }

  /**
   * A quarter turn clockwise sends `(px, py)` to `(h - 1 - py, px)`; turning
   * the result a quarter turn back (`-90`, three quarters clockwise) restores
   * every pixel.
   */
  lemma QuarterBackInverts(w: nat, h: nat, px: nat, py: nat)
    requires px < w && py < h
    ensures Quarter(90) == 1 && Quarter(-90) == 3
    ensures PixelMap(1, w, h, px, py) == (h - 1 - py, px)
    ensures var t := PixelMap(1, w, h, px, py); PixelMap(3, h, w, t.0, t.1) == (px, py)
  {
  }

  /** A 100 x 50 image turned by 90 degrees gives a 50 x 100 canvas, its top-left pixel going to the top-right corner. */
  lemma RotateExample(base64Data: string, mimeType: string)
    ensures var r := RenderSpec(base64Data, ImageSettings(0, 0, 90), mimeType, PixelSize(100, 50));
      r.width == 50 && r.height == 100 && PixelMap(Quarter(90), 100, 50, 0, 0) == (49, 0)
  {
    assert OutputSize(PixelSize(100, 50), 90) == PixelSize(50, 100);
  }

  /** Settings left at zero give the neutral filter, 100 percent of both. */
  lemma NeutralFilter(rotation: int)
    ensures FilterString(ImageSettings(0, 0, rotation)) == Filter("100", "100")
  {
    assert Percent(0) == 100;
    assert Decimal.NatToString(1) == "1";
    assert Decimal.NatToString(10) == Decimal.NatToString(1) + "0" == "10";
    assert Decimal.NatToString(100) == Decimal.NatToString(10) + "0" == "100";
    assert Decimal.IntToString(100) == "100";
  }
}
