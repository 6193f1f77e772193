/**
 * The image editor's settings: where they start, and how the rotate
 * buttons, the reset button and the two sliders change them. Each handler
 * maps the old settings record to a new one.
 */
module ImageEditor {

  import opened Util
  import JsArith
  import DataUri
  import opened ImageProcessor

  /** Neutral settings: no brightness or contrast change, no rotation. */
  const Defaults: ImageSettings := ImageSettings(0, 0, 0)

  /** The range of both sliders. */
  type SliderValue = v: int | -100 <= v <= 100

  /** The settings the editor opens with: those stored by an earlier session, or the defaults. */
  function Initial(saved: Option<ImageSettings>): (s: ImageSettings)
    ensures saved.None? ==> s == Defaults
    ensures saved.Some? ==> s == saved.value
  {
    match saved
    case Some(stored) => stored
    case None => Defaults
  }

  /** `handleRotate(deg)`: adds `deg` to the rotation and reduces it with JavaScript's `% 360`. */
  function Rotate(s: ImageSettings, deg: int): (r: ImageSettings)
    ensures r.brightness == s.brightness && r.contrast == s.contrast
    ensures -360 < r.rotation < 360
    ensures (s.rotation + deg - r.rotation) % 360 == 0
    ensures s.rotation + deg >= 0 ==> r.rotation >= 0
    ensures s.rotation + deg <= 0 ==> r.rotation <= 0
  {
    s.(rotation := JsArith.Rem(s.rotation + deg, 360))
  }

  /** `handleReset`. */
  function Reset(s: ImageSettings): (r: ImageSettings)
    ensures r == Defaults
    ensures Percent(r.brightness) == 100 && Percent(r.contrast) == 100 && !IsVertical(r.rotation)
  {
    Defaults
  }

  /** The brightness slider: replaces the brightness only. */
  function SetBrightness(s: ImageSettings, v: SliderValue): (r: ImageSettings)
    ensures r.brightness == v && r.contrast == s.contrast && r.rotation == s.rotation
    ensures 0 <= Percent(r.brightness) <= 200
  {
    s.(brightness := v)
  }

  /** The contrast slider: replaces the contrast only. */
  function SetContrast(s: ImageSettings, v: SliderValue): (r: ImageSettings)
    ensures r.contrast == v && r.brightness == s.brightness && r.rotation == s.rotation
    ensures 0 <= Percent(r.contrast) <= 200
  {
    s.(contrast := v)
  }

  /** `fullOriginalSrc`: the unedited image as a data URI. */
  function FullOriginalSrc(imageBase64: string, mimeType: string): (src: string)
    ensures DataUri.StartsWith(src, DataUri.Scheme) && DataUri.EndsWith(src, imageBase64)
    ensures src == imageBase64 <==> DataUri.StartsWith(imageBase64, DataUri.Scheme)
    ensures !DataUri.StartsWith(imageBase64, DataUri.Scheme) ==> src == DataUri.Header(mimeType) + imageBase64
  {
    DataUri.WithPrefix(imageBase64, mimeType)
  }

  /** The original shown for comparison is the very URI the preview is rendered from. */
  lemma OriginalIsPreviewSource(imageBase64: string, mimeType: string, settings: ImageSettings, img: PixelSize)
    ensures FullOriginalSrc(imageBase64, mimeType) == RenderSpec(imageBase64, settings, mimeType, img).source
  {
  }

  // ---------------------------------------------------------------------------
  // Sequences of user actions

  datatype Event =
    | RotateLeft
    | RotateRight
    | ResetAll
    | Brightness(value: SliderValue)
    | Contrast(value: SliderValue)

  /** The editor's reaction to one event (the rotate buttons pass -90 and 90). */
  function Step(s: ImageSettings, e: Event): ImageSettings {
    match e
    case RotateLeft => Rotate(s, -90)
    case RotateRight => Rotate(s, 90)
    case ResetAll => Reset(s)
    case Brightness(v) => SetBrightness(s, v)
    case Contrast(v) => SetContrast(s, v)
  }

  function Run(s: ImageSettings, events: seq<Event>): ImageSettings
    decreases |events|
  {
    if events == [] then s else Step(Run(s, events[..|events| - 1]), events[|events| - 1])
  }

  /** Settings the editor's own controls can produce: slider values in range, a whole number of quarter turns within one turn either way. */
  predicate Valid(s: ImageSettings) {
    && -100 <= s.brightness <= 100
    && -100 <= s.contrast <= 100
    && s.rotation % 90 == 0 && -270 <= s.rotation <= 270
  }

  lemma QuarterStep(rotation: int, deg: int)
    requires rotation % 90 == 0 && -270 <= rotation <= 270
    requires deg == 90 || deg == -90
    ensures var r := JsArith.Rem(rotation + deg, 360); r % 90 == 0 && -270 <= r <= 270
  {
    var a := rotation + deg;
    if a == 360 || a == -360 {
      assert JsArith.Rem(a, 360) == 0;
    } else {
      assert JsArith.Rem(a, 360) == a;
    }
  }

  /** One event keeps the settings valid. */
  lemma StepValid(s: ImageSettings, e: Event)
    requires Valid(s)
    ensures Valid(Step(s, e))
  {
    match e
    case RotateLeft => QuarterStep(s.rotation, -90);
    case RotateRight => QuarterStep(s.rotation, 90);
    case _ =>
  }

  /** Whatever the user does, starting from valid settings (the defaults, say), the settings stay valid. */
  lemma {:induction false} RunValid(s: ImageSettings, events: seq<Event>)
    requires Valid(s)
    ensures Valid(Run(s, events))
    decreases |events|
  {
    if events != [] {
      RunValid(s, events[..|events| - 1]);
      StepValid(Run(s, events[..|events| - 1]), events[|events| - 1]);
    }
  }

  lemma DefaultsValid()
    ensures Valid(Defaults) && Valid(Initial(None))
  {
  }

  /** Four quarter turns either way bring a fresh editor back to rotation 0. */
  lemma FourTurns(s: ImageSettings)
    requires s.rotation == 0
    ensures Rotate(Rotate(Rotate(Rotate(s, 90), 90), 90), 90).rotation == 0
    ensures Rotate(Rotate(Rotate(Rotate(s, -90), -90), -90), -90).rotation == 0
  {
    assert JsArith.Rem(360, 360) == 0;
    assert JsArith.Rem(-360, 360) == 0;
  }

  /**
   * Right then left gives back the same angle modulo 360, and the same angle
   * exactly from 0, 90 or 180, but not from 270, which comes back as -90.
   */
  lemma RightThenLeft(s: ImageSettings)
    ensures var r := Rotate(Rotate(s, 90), -90);
      (r.rotation - s.rotation) % 360 == 0 && r.brightness == s.brightness && r.contrast == s.contrast
    ensures s.rotation == 270 ==> Rotate(Rotate(s, 90), -90).rotation == -90
    ensures 0 <= s.rotation <= 180 ==> Rotate(Rotate(s, 90), -90).rotation == s.rotation
  {
    var a := Rotate(s, 90).rotation;
    var b := Rotate(Rotate(s, 90), -90).rotation;
    assert (s.rotation + 90 - a) % 360 == 0;
    assert (a - 90 - b) % 360 == 0;
    assert (b - s.rotation) == -((s.rotation + 90 - a) + (a - 90 - b));
    if s.rotation == 270 {
      assert a == 0;
    }
  }
}
