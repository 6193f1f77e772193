# Image studio core, modelled in Dafny

This project models the deterministic core of a browser image studio. That core has four parts.

- **Collage planner and painter** (`utils/collageProcessor.ts`). It takes N images and the settings `{layout, spacing, backgroundColor, borderRadius}`. From them it computes:
  - the canvas size;
  - one placement per drawn image, each a destination rectangle with an optional centre crop;
  - the order of the canvas calls: background, then save, clip, draw and restore for each image.

  There are three layouts. A horizontal strip is 600 high. A vertical strip is 800 wide. The smart grid is 1200 × 1200 and has special cases for 1, 2, 3 and 4 or more images.
- **Single-image adjuster** (`utils/imageProcessor.ts`, `processImage`). It sizes the output canvas for the rotation and builds the `brightness(b%) contrast(c%)` filter. It then translates to the canvas centre, rotates, and draws the image centred on the origin.
- **Editor settings** (`components/ImageEditor.tsx`). This covers the initial settings, the rotate and reset buttons, the two sliders, and the data-URI rule for the original image.
- **Gallery selection** (`components/Gallery.tsx`). This covers the selection-mode toggle, the per-item toggle on a set of ids, the button guards, and the newest-first display order.

## Module layout

- `util.dfy` (`Util`): `Option` and `Result`.
- `js_arith.dfy` (`JsArith`): JavaScript's `%` on integers, which truncates toward zero. The remainder has the sign of the dividend, so `-90 % 360 == -90`.
- `data_uri.dfy` (`DataUri`): the `data:<mime>;base64,` prefix rule. Collage normalisation, `processImage` and the editor all share it.
- `decimal.dfy` (`Decimal`): how a template literal renders an integer, with a parser proved to invert it.
- `canvas.dfy` (`Canvas`): the part of the 2D canvas context the program drives, as a class.
  - The context holds a drawing state: fill style, filter, transform factors and clip paths.
  - It also holds the `save()` stack.
  - It keeps a log of calls, and every painting call records the state it was made in.
  - `ToDevice` maps user coordinates through the transform.
- `collage_processor.dfy` (`CollageProcessor`): the collage planner and painter.
  - Each layout is a specification function.
  - Each layout also has an imperative method with the source's loop, and the method is proved equal to its function.
  - The draw loop runs on a `Canvas.Context`.
- `image_processor.dfy` (`ImageProcessor`): `processImage` as a method on a `Canvas.Context`, proved equal to `RenderSpec`, with lemmas about where every pixel lands.
- `image_editor.dfy` (`ImageEditor`): the settings handlers as transition functions.
- `gallery.dfy` (`Gallery`): the selection state.
  - `HandleItemClick` copies the set into an `IdSet` object and mutates the copy, as the source does.
  - `IdSet` models a JavaScript `Set`: its elements in insertion order, without repeats.

## Inputs that are parameters

- **Decoded images.** Browser image decoding is asynchronous I/O. Each image's natural size is therefore a parameter:
  - `loaded: seq<Size>` in the collage, with positive real sides;
  - `img: PixelSize` in `processImage`.
- **`ctx.roundRect` support.** Whether the browser provides `ctx.roundRect` is the parameter `roundRectSupported`.
- **Gallery callbacks.** Whether `onMultiSelect` or `onCreateCollage` was passed is a boolean parameter.
- **Stored settings.** The editor's stored settings are an `Option<ImageSettings>`.
- **Cosine and sine.** These are a parameter `trig` of `Canvas.ToDevice`. `ImageProcessor.QuarterTrig` gives their exact values for whole quarter turns.

## Model

| member | source | states |
|---|---|---|
| CollageProcessor.Normalize | utils/collageProcessor.ts:28-31 | One output per input. Each output is a `data:` URI that ends with its input. An output equals its input exactly when the input already starts with `data:`. Raw data gets the header `data:image/png;base64,` in front. |
| CollageProcessor.NormalizeIdempotent | utils/collageProcessor.ts:29-31 | Normalising twice gives the same list as normalising once. |
| CollageProcessor.CollageSpec | utils/collageProcessor.ts:21-175 | The call fails with "no images selected" exactly when the input list is empty. Otherwise the collage is built from the normalised sources and encoded as PNG. |
| CollageProcessor.CreateCollage | utils/collageProcessor.ts:21-175 | The imperative `createCollage` is proved to equal `CollageSpec`: validation, normalisation, the layout branch of the chosen layout, then painting. |
| CollageProcessor.ScaleTo | utils/collageProcessor.ts:56-57 | The scaled side is positive and keeps the aspect ratio: `scaled · side = other · fixed`. |
| CollageProcessor.ScaledWidths | utils/collageProcessor.ts:56-57 | Each horizontal-strip width is positive and satisfies `w · height = width · 600`. |
| CollageProcessor.ScaledHeights | utils/collageProcessor.ts:79-80 | Each vertical-strip height is positive and satisfies `h · width = height · 800`. |
| CollageProcessor.HorizontalPlan | utils/collageProcessor.ts:50-71 | One placement per image, in input order, with `y = spacing`, `h = 600` and no crop. The canvas is `(n+1)·spacing + Σw` wide and `600 + 2·spacing` tall. |
| CollageProcessor.VerticalPlan | utils/collageProcessor.ts:73-94 | One placement per image, in input order, with `x = spacing`, `w = 800` and no crop. The canvas is `800 + 2·spacing` wide and `(n+1)·spacing + Σh` tall. |
| CollageProcessor.OffsetStep | utils/collageProcessor.ts:67 | Each running offset is the previous offset plus the previous piece plus one gap. |
| CollageProcessor.OffsetGap | utils/collageProcessor.ts:53-68 | With non-negative spacing, any later piece starts at least one gap after an earlier piece ends. |
| CollageProcessor.StripTiles | utils/collageProcessor.ts:53-70 | For any strip: the first piece starts at `spacing`; consecutive pieces are exactly one gap apart; every pair is at least one gap apart; every piece lies between `spacing` and the final length minus `spacing`. |
| CollageProcessor.HorizontalTiles | utils/collageProcessor.ts:50-71 | The strip tiling facts hold for the x offsets of the horizontal layout, so the placements are pairwise disjoint and inside the canvas. |
| CollageProcessor.VerticalTiles | utils/collageProcessor.ts:73-94 | The strip tiling facts hold for the y offsets of the vertical layout. |
| CollageProcessor.PlanHorizontal | utils/collageProcessor.ts:50-71 | The `forEach` loop advancing `currentX` computes exactly `HorizontalPlan`. |
| CollageProcessor.PlanVertical | utils/collageProcessor.ts:73-94 | The `forEach` loop advancing `currentY` computes exactly `VerticalPlan`. |
| CollageProcessor.GridCells | utils/collageProcessor.ts:101-136 | The grid has `min(n, 4)` cells. |
| CollageProcessor.GridShapes | utils/collageProcessor.ts:101-136 | The per-case cell equalities. With n = 1 the cell is `(s, s, 1200−2s, 1200−2s)`. With n = 2 the two equal cells satisfy `2w + 3s = 1200`. With n = 3 the left cell sits at `(s, s)` and is 60 % of `1200 − 3s` wide, the right column is 40 % of it, `col1W + col2W + 3s = 1200`, and the two right cells stack with `2·col2H + s = 1200 − 2s`. With four or more images, `w = h = (1200−3s)/2` at offsets `s` and `2s + w`. |
| CollageProcessor.GridDisjointWithin | utils/collageProcessor.ts:101-136 | For `0 ≤ s < 400`, every cell has positive height, lies within `[s, 1200−s]²`, and no two cells overlap. |
| CollageProcessor.CenterCrop | utils/collageProcessor.ts:179-197 | The crop is centred (`2·sx + sw = width` and `2·sy + sh = height`) and inside the image (`sx, sy ≥ 0`). It spans the full width or the full height. It has the target's aspect ratio: `sw · targetH = sh · targetW`. |
| CollageProcessor.CropFits | utils/collageProcessor.ts:179-204 | For a non-empty destination, the crop is centred, inside the image, non-empty and of the destination's aspect ratio. |
| CollageProcessor.AddGridPlacement | utils/collageProcessor.ts:179-204 | Appends exactly one placement: destination `(x, y, targetW, targetH)` and the centre crop. |
| CollageProcessor.GridPlan | utils/collageProcessor.ts:96-136 | The canvas is 1200 × 1200 with `min(n, 4)` placements. Placement k draws image k into cell k with its centre crop, so images after the fourth are never drawn and the `images[3] \|\| images[0]` fallback never fires. |
| CollageProcessor.GridPlanList | utils/collageProcessor.ts:101-136 | The grid placements written out per case: one placement for one image, two for two, three for three, and four for four or more. |
| CollageProcessor.PlanGrid | utils/collageProcessor.ts:96-136 | The grid branch, with its `count` cases and `addGridPlacement` calls, computes exactly `GridPlan`. |
| CollageProcessor.GridCropsFit | utils/collageProcessor.ts:96-204 | For `0 ≤ s < 400`, every grid placement has a crop that fits centred in its image with its cell's aspect ratio. |
| CollageProcessor.GridExample | utils/collageProcessor.ts:126-197 | Four images of 400×300, 300×400, 600×600 and 200×800 at spacing 20 give four cells of 570 × 570. The crop of the first is `(50, 0, 300, 300)` and the crop of the fourth is `(0, 300, 200, 200)`. |
| CollageProcessor.DrawPlacements | utils/collageProcessor.ts:151-173 | The draw loop appends, for each placement in order: save, the clip when `borderRadius > 0`, the draw and restore. Afterwards the state and the save stack are as before. |
| CollageProcessor.Paint | utils/collageProcessor.ts:141-173 | The background command (clear when `transparent`, otherwise set the fill style and fill) comes first, followed by the draw loop's commands. |
| CollageProcessor.DrawsAppend | utils/collageProcessor.ts:151-173 | The draw calls of a concatenation are the draw calls of each part, in order. |
| CollageProcessor.PlacementDraws | utils/collageProcessor.ts:151-172 | Each placement issues exactly one draw call: its image, crop and destination, under the state plus its own clip. |
| CollageProcessor.DrawsInOrder | utils/collageProcessor.ts:151-173 | The draw loop issues one draw per placement, in placement order. Each draw is clipped by exactly that placement's rounded or plain rectangle when `borderRadius > 0`, and by nothing else. |
| CollageProcessor.LayoutPlan | utils/collageProcessor.ts:50-137 | The layout branch: a horizontal strip is `600 + 2·spacing` tall, a vertical strip `800 + 2·spacing` wide, and the grid canvas 1200 × 1200. |
| CollageProcessor.BackgroundCommands | utils/collageProcessor.ts:144-149 | One `clearRect` for `transparent`, otherwise two calls. The last call paints the whole canvas under no clip, and none of them draws an image. |
| CollageProcessor.PlacementCommands | utils/collageProcessor.ts:151-172 | One loop pass: `save` first, `restore` last, the clip path as the second call exactly when `borderRadius > 0`, four calls then and three otherwise. |
| CollageProcessor.DrawCommands | utils/collageProcessor.ts:151-173 | The whole loop issues four calls per placement when `borderRadius > 0` and three otherwise. |
| CollageProcessor.DrawPlacement | utils/collageProcessor.ts:151-172 | One pass of the loop body appends save, the clip when `borderRadius > 0`, the draw and restore, and leaves the state and the save stack as they were. |
| CollageProcessor.PaintOrder | utils/collageProcessor.ts:141-173 | The background comes first: `clearRect` for `transparent`, otherwise `fillRect` after the fill style is set. Then there is one draw per placement, in placement order. Each draw is under the background's fill style and clipped only by its own path. |
| CollageProcessor.CollagePaints | utils/collageProcessor.ts:139-173 | A collage has the canvas size and placements of its layout's plan. Its commands are the background followed by the draw loop over those placements, so `PaintOrder` applies to it. |
| CollageProcessor.CollageCount | utils/collageProcessor.ts:50-136 | The number of images drawn is `min(n, 4)` for the grid and n for the strips. Placement k uses image k. Placements have crops exactly in the grid layout. |
| DataUri.WithPrefix | utils/imageProcessor.ts:46 | The result is a `data:` URI ending with the input. It equals the input exactly when the input starts with `data:`; otherwise it is `data:<mime>;base64,` followed by the input. |
| DataUri.WithPrefixIdempotent | utils/imageProcessor.ts:46 | Prefixing a second time, with any mime type, changes nothing. |
| JsArith.Rem | utils/imageProcessor.ts:24 | JavaScript's remainder: `a = trunc(a/m)·m + r` with `|r| < m`, and r has the sign of `a`. |
| JsArith.RemZeroIffDivides | utils/imageProcessor.ts:24 | For any positive modulus, JavaScript's remainder is 0 exactly when the modulus divides `a`, whatever the sign of `a`. |
| ImageProcessor.IsVertical | utils/imageProcessor.ts:24 | `rotation % 180 !== 0` under JavaScript's remainder holds exactly when 180 does not divide the rotation. |
| ImageProcessor.OutputSize | utils/imageProcessor.ts:24-26 | The canvas is `(height, width)` exactly when the rotation is not a multiple of 180, and `(width, height)` otherwise. |
| ImageProcessor.NegativeTurnsSwap | utils/imageProcessor.ts:24-26 | −90 and −270 swap the sides although JavaScript gives `-90` for their remainder; −180 does not. |
| ImageProcessor.Percent | utils/imageProcessor.ts:30-31 | The percentage is the setting plus 100. It lies in [0, 200] for settings in [−100, 100], and it is 100 exactly at setting 0. |
| ImageProcessor.Filter | utils/imageProcessor.ts:32 | The filter starts with `brightness(` and ends with `)`. |
| ImageProcessor.FilterString | utils/imageProcessor.ts:30-32 | The filter text of a settings record starts with `brightness(` and ends with `)`. |
| ImageProcessor.ReadFilterOfFilter | utils/imageProcessor.ts:32 | Reading a filter text back gives its two numbers in the order they were written. |
| ImageProcessor.ReadFilterString | utils/imageProcessor.ts:30-32 | The first number of the filter is the brightness percentage and the second the contrast percentage. |
| ImageProcessor.FilterStringInjective | utils/imageProcessor.ts:30-32 | The filter string determines both brightness and contrast: equal strings mean equal settings. |
| ImageProcessor.NeutralFilter | utils/imageProcessor.ts:30-32 | Zero settings give `brightness(100%) contrast(100%)`. |
| ImageProcessor.RenderSpec | utils/imageProcessor.ts:7-47 | The source is a `data:` URI ending with the input data. It is the input unchanged exactly when the input starts with `data:`, and otherwise `data:<mime>;base64,` followed by the input. The output format is the given mime type. |
| ImageProcessor.ProcessImage | utils/imageProcessor.ts:7-47 | The canvas calls of `processImage` equal `RenderSpec`: size, filter, translate to the centre, rotate, then draw at `(-w/2, -h/2)`. |
| ImageProcessor.DrawTurned | utils/imageProcessor.ts:32-39 | On a fresh context of the output size, the calls are: set the filter, translate to the centre, rotate, then draw the image at `(-w/2, -h/2)` under that filter and transform. |
| ImageProcessor.ProcessImageDefault | utils/imageProcessor.ts:10-46 | With no mime type given, PNG is used both for the data-URI prefix and for the output. |
| ImageProcessor.RenderDraw | utils/imageProcessor.ts:24-39 | The output has the rotated size and four calls. The last call draws the image at `(-w/2, -h/2, w, h)` under the filter and the transform "translate to the centre, then rotate". |
| ImageProcessor.CentreToCentre | utils/imageProcessor.ts:35-39 | Under that transform, for the exact cosine and sine of any angle, the centre of the drawn rectangle lands on the canvas centre. |
| ImageProcessor.QuarterOfMultiple | utils/imageProcessor.ts:24 | For a multiple of 90, the sides swap exactly for an odd number of quarter turns. |
| ImageProcessor.QuarterTurnPixels | utils/imageProcessor.ts:24-39 | For a multiple of 90, under the transform `processImage` sets, the centre of every source pixel of the drawn rectangle lands on the centre of the output pixel `PixelMap` names. That pixel is on the output canvas. |
| ImageProcessor.PixelMapInjective | utils/imageProcessor.ts:24-39 | Every source pixel lands on the turned canvas, and `PixelSource` gives it back. |
| ImageProcessor.PixelMapOnto | utils/imageProcessor.ts:24-39 | Every output pixel is covered by the source pixel `PixelSource` names, so nothing is cropped or left empty. |
| ImageProcessor.QuarterBackInverts | utils/imageProcessor.ts:35-39 | +90 sends `(px, py)` to `(h−1−py, px)`, a clockwise turn, and −90 undoes it. |
| ImageProcessor.RotateExample | utils/imageProcessor.ts:24-39 | A 100 × 50 image at 90° gives a 50 × 100 canvas, with its top-left pixel at the top right. |
| ImageEditor.Initial | components/ImageEditor.tsx:17-20 | The initial settings are the stored ones when there are any, and `{0, 0, 0}` otherwise. |
| ImageEditor.Rotate | components/ImageEditor.tsx:51-56 | The new rotation is congruent to `prev + deg` mod 360, lies strictly between −360 and 360, and has the sign of `prev + deg`. Brightness and contrast are unchanged. |
| ImageEditor.Reset | components/ImageEditor.tsx:58-61 | The settings become `{0, 0, 0}`: a neutral filter and no swap. |
| ImageEditor.SetBrightness | components/ImageEditor.tsx:180-185 | Only the brightness changes, to a slider value in [−100, 100], so its percentage is in [0, 200]. |
| ImageEditor.SetContrast | components/ImageEditor.tsx:198-203 | Only the contrast changes, to a slider value in [−100, 100], so its percentage is in [0, 200]. |
| ImageEditor.FullOriginalSrc | components/ImageEditor.tsx:83 | The original is a `data:` URI ending with the data. It is unchanged exactly when it already starts with `data:`, and otherwise `data:<mime>;base64,` followed by the data. |
| ImageEditor.OriginalIsPreviewSource | components/ImageEditor.tsx:83 | The original shown for comparison is the same URI the preview is rendered from. |
| ImageEditor.StepValid | components/ImageEditor.tsx:51-203 | Any button or slider event keeps the settings valid: sliders in range, and the rotation a multiple of 90 in [−270, 270]. |
| ImageEditor.RunValid | components/ImageEditor.tsx:51-203 | Any sequence of events from valid settings keeps them valid. |
| ImageEditor.DefaultsValid | components/ImageEditor.tsx:17-20 | The default settings are valid. |
| ImageEditor.FourTurns | components/ImageEditor.tsx:54 | Four +90 steps, or four −90 steps, from 0 return to 0. |
| ImageEditor.RightThenLeft | components/ImageEditor.tsx:54 | +90 followed by −90 gives an angle congruent mod 360 to the original. It gives the same angle from 0, 90 and 180, but 270 comes back as −90. |
| Gallery.Remove | components/Gallery.tsx:39 | Removes exactly `x`, keeps no repeats and, when `x` was present, shrinks by one. |
| Gallery.IdSet.Has | components/Gallery.tsx:38 | True exactly when the id is in the set. |
| Gallery.IdSet.Add | components/Gallery.tsx:41 | Appends the id unless it is present, and keeps the set free of repeats. |
| Gallery.IdSet.Delete | components/Gallery.tsx:39 | Removes the id, keeping the order of the rest. |
| Gallery.IdSet.ToArray | components/Gallery.tsx:44 | `Array.from` lists exactly the members, each once. |
| Gallery.ToggleSelectionMode | components/Gallery.tsx:23-33 | Leaving selection mode clears the set and reports `[]` when a listener exists. Entering keeps the set and reports nothing. |
| Gallery.Toggle | components/Gallery.tsx:37-42 | An id is in the new set exactly when it is the clicked id without having been selected, or a selected id other than the clicked one. The set stays free of repeats. |
| Gallery.Click | components/Gallery.tsx:35-48 | In selection mode, the clicked id's membership flips, no other id's changes, and the listener is handed the new selection. Outside selection mode the item opens and nothing changes. |
| Gallery.HandleItemClick | components/Gallery.tsx:35-48 | The click handler, with its copy of the set and in-place `has`/`delete`/`add`, computes exactly `Click`. |
| Gallery.ClickTogglesOnlyItsId | components/Gallery.tsx:35-43 | In selection mode, a click flips the clicked id's membership and no other id's. |
| Gallery.ClickReportsSelection | components/Gallery.tsx:43-44 | `onMultiSelect` receives exactly the new set, without repeats. |
| Gallery.ClickOutsideModeOpens | components/Gallery.tsx:45-47 | Outside selection mode, a click opens the item and leaves the state alone. |
| Gallery.ToggleSize | components/Gallery.tsx:37-42 | A click changes the size of the selection by exactly one. |
| Gallery.ToggleTwice | components/Gallery.tsx:37-43 | Clicking twice restores the set of selected ids. When the id was not selected before, it also restores their order. |
| Gallery.ToggleTwiceReorders | components/Gallery.tsx:37-42 | Deselecting and reselecting moves an id to the end: `["a", "b"]` becomes `["b", "a"]`. |
| Gallery.SelectButtonShown | components/Gallery.tsx:55 | The "select" button shows exactly when the strip shows two or more items. |
| Gallery.NoSelectionWithoutButton | components/Gallery.tsx:23-57 | With at most one item there is no "select" button. Any clicks on the shown items then leave the gallery in its initial state, outside selection mode. |
| Gallery.CollageButtonShown | components/Gallery.tsx:65 | The collage button needs selection mode and a handler. For a selection without repeats, it shows exactly when two or more ids are selected. |
| Gallery.TwoClicksShowCollageButton | components/Gallery.tsx:35-65 | From an empty selection, one click does not show the collage button, and a click on a second, different item does. |
| Gallery.CollageButtonMeansTwo | components/Gallery.tsx:65 | When the collage button shows, at least two different items are selected. |
| Gallery.LeavingHidesCollageButton | components/Gallery.tsx:23-65 | Leaving selection mode hides the collage button. |
| Gallery.Reverse | components/Gallery.tsx:76 | The display order is the reverse: position i shows item `n−1−i`. |
| Gallery.Displayed | components/Gallery.tsx:21-76 | Nothing is rendered exactly when there are no items. |
| Gallery.ReverseInvolution | components/Gallery.tsx:76 | Reversing loses no item and repeats none, and reversing again gives the list back. |
| Gallery.RunConsistent | components/Gallery.tsx:17-48 | From the initial state, any sequence of toggles and clicks keeps the selection free of repeats, and leaves it empty outside selection mode. |
| Decimal.IntRoundTrip | utils/imageProcessor.ts:32 | Parsing an integer's template-literal rendering gives the integer back. |
| Decimal.IntToStringInjective | utils/imageProcessor.ts:32 | Different integers render as different strings. |

## Left out

- Image loading and encoding are browser I/O, and none of it is modelled: `loadImage`, `Image.onload`/`onerror`, `canvas.toDataURL` and `Promise.all` rejection. Image sizes arrive as parameters. The encoded output is the command log together with the format mime type: `Rendered.format` is the mime type `processImage` is given, and `Collage.format` is always PNG, as `toDataURL('image/png')` encodes it.
- The pixel results of `drawImage`, `clip` and the brightness/contrast filter are left to the browser's filter engine, as the CSS Filter Effects Module Level 1 defines them. The model stops at the calls and their drawing state.
- The "Canvas context not available" and "Could not get canvas context" errors are not modelled; the context is always present.
- Canvas sizes are kept as exact values, while the browser truncates fractional `canvas.width`/`canvas.height` to integers. All arithmetic is exact, where the browser uses floating point.
- The conversion of the angle to radians (`Math.PI / 180`) is not modelled. `Canvas.Op.Rotate` keeps the angle in degrees, and cosine and sine are a parameter.
- Images of zero width or height are not modelled. In JavaScript they give infinite or NaN scales. `CollageProcessor.Loaded` requires positive sides.
- `CollageProcessor.GridPlan`, `PlanGrid`, `CollageSpec` and `CreateCollage` require every grid cell to have non-zero height (`GridDefined`), because the crop divides by it. This excludes exactly two spacings. Spacing 400 is excluded for three or more images, where the zero-height cells also have zero width (`0/0`, NaN in JavaScript). Spacing 600 is excluded for one to three images: one image gives `0/0`, while two and three give a negative width over zero (`-300/0` and `-360/0`, −Infinity in JavaScript). Other spacings stay in the model, including those that make cells negative, such as 500 with four images. The disjointness and crop lemmas use `0 ≤ spacing < 400`. The collage settings slider offers spacings from 0 to 100 only.
- The settings layout can only be one of the three layouts. A layout string outside the enumeration, which leaves placements empty in the source, is not representable.
- `Decimal.IntToString` renders every integer in plain digits. JavaScript switches to exponent notation from 10^21 in magnitude. The percentages it renders lie between 0 and 200 for the editor's slider values.
- `ImageEditor.Rotate` yields `0` where JavaScript computes `-0` (for example `-360 % 360`). The two compare equal in every later use.
- `handleSave` is asynchronous glue and is not modelled. It encodes via `processImage` and strips the prefix with `split(',')[1]`.
- Preview debouncing (`setTimeout`, `clearTimeout`, the `active` flag) and settings persistence (`saveEditorSettings`, `clearEditorSettings`) are not modelled. Stored settings enter only as `Initial`'s parameter.
- The gallery's rendering details are not modelled: highlight classes, the type badge, and the per-item delete button with `stopPropagation`.
- `services/geminiService.ts`, `utils/storage.ts`, `App.tsx` and the UI-only components are not part of this model.
