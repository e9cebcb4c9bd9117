# App icon generator — a Dafny model of the icon catalog and `generateIcons`

The application takes one uploaded raster image and produces every app icon
that Android, iOS and macOS projects need. Its core is
`src/utils/iconGenerator.ts`. That file holds two things:

- `iconSizes`, a constant table. It lists 5 Android densities, 14 iOS sizes
  and 7 macOS sizes.
- `generateIcons`. It walks the three lists in order with one shared canvas.
  For each row it sets the canvas width and height to the row's size, clears
  the canvas, draws the whole upload scaled onto it, and stores
  `canvas.toDataURL('image/png')` in a dictionary under the key
  `"<platform>-<size>"`.

This project models both and proves what they promise.

Files and modules:

- `decimal.dfy` (`Decimal`): how the template literal `${size}` spells a
  whole number below 2^53 (the integers a JavaScript number holds exactly),
  its inverse, and the proof that the spelling is injective. Every catalog
  size is at most 1024.
- `catalog.dfy` (`IconCatalog`): the `iconSizes` table as datatype and
  sequence constants. Lemmas give the counts, the sizes, the bounds, the
  strict ordering and the naming patterns.
- `canvas.dfy` (`Canvas2D`): the HTML canvas as a class with `width`,
  `height` and `picture` fields. `picture` holds the paint operations applied
  since the bitmap was last blank. The class has the three calls the
  generator makes: `clearRect`, `drawImage` and `toDataURL`. PNG encoding is
  modelled as a record of the dimensions and the paint operations kept since
  the last clear. The key and dimension proofs need only the dimensions, plus
  the fact that the same canvas state encodes to the same PNG.
- `generator.dfy` (`IconGenerator`): `generateIcons` itself, with the keys it
  builds. It is specified against `IconSet`, a function that gives the
  dictionary a complete run must produce.
- `preview.dfy` (`IconPreview`): the six keys that the preview component
  looks up. A lemma proves that each of them is in every generated
  dictionary.

The three `forEach` loops of `generateIcons` differ only in the platform. The
model therefore writes one loop, `DrawPlatform`, which takes the platform as a
parameter and is called three times in the source's order. Its loop
invariant says that after every step the dictionary equals `Generated` over
the catalog entries handled so far. `RunPrefix` then proves the following for
every such prefix:

- the keys are exactly the keys of the handled entries;
- there is one icon per entry, so nothing was overwritten;
- every icon is as wide and as high as its entry's size.

If `canvas.getContext('2d')` returns null, the source returns without doing
anything, and its promise never settles. The model takes the result of
`getContext` as the parameter `hasContext`. Without a context the run yields
`None`: no map is produced, partial or whole.

Two facts about the code shape the model:

- Only the Android rows have a `folder`, and nothing in the core reads it.
- `generateIcons` raises no errors. With no 2D context it returns silently.
  It has no `onerror` handler, so a failed decode leaves the promise
  pending.

## Model

| member | source | states |
|---|---|---|
| `Decimal.NatToString` | src/utils/iconGenerator.ts:56 | the spelling of `${size}` is a non-empty string of decimal digits with no leading zero |
| `Decimal.NatToStringRoundTrip` | src/utils/iconGenerator.ts:56 | reading the decimal spelling back yields the number |
| `Decimal.NatToStringInjective` | src/utils/iconGenerator.ts:56 | two different sizes never have the same spelling |
| `IconCatalog.AndroidIcons` | src/utils/iconGenerator.ts:6-12 | definition: the five Android rows of `iconSizes.android`, in source order |
| `IconCatalog.IosIcons` | src/utils/iconGenerator.ts:13-28 | definition: the fourteen iOS rows of `iconSizes.ios`, in source order |
| `IconCatalog.MacosIcons` | src/utils/iconGenerator.ts:29-37 | definition: the seven macOS rows of `iconSizes.macos`, in source order |
| `IconCatalog.Entries` | src/utils/iconGenerator.ts:5-38 | definition: `iconSizes[platform]`, the list of one platform |
| `IconCatalog.AndroidCatalog` | src/utils/iconGenerator.ts:6-12 | Android has exactly 5 rows, with sizes 48, 72, 96, 144, 192, and each row's folder is `"mipmap-" + name` |
| `IconCatalog.IosCatalog` | src/utils/iconGenerator.ts:13-28 | iOS has exactly 14 rows, with sizes 20 … 1024, and each is named `"Icon-" + size` |
| `IconCatalog.MacosCatalog` | src/utils/iconGenerator.ts:29-37 | macOS has exactly 7 rows, with sizes 16 … 1024, and each is named `"icon_" + size + "x" + size` |
| `IconCatalog.TableWellFormedMeans` | src/utils/iconGenerator.ts:5-38 | a table that passes the row-by-row check is strictly ascending by size, and every row has a size in 1..1024 and its platform's naming |
| `IconCatalog.CatalogWellFormed` | src/utils/iconGenerator.ts:5-38 | in every platform list, sizes are positive, at most 1024 and strictly ascending, and every row follows its platform's naming pattern |
| `IconCatalog.SizesDistinct` | src/utils/iconGenerator.ts:5-38 | no platform list holds the same size twice |
| `Canvas2D.EncodePng` | src/utils/iconGenerator.ts:56 | the encoded PNG has the width and height of the bitmap it encodes |
| `Canvas2D.Canvas.constructor` | src/utils/iconGenerator.ts:44 | a new canvas is a blank 300 x 150 bitmap |
| `Canvas2D.Canvas.ClearRect` | src/utils/iconGenerator.ts:54 | a rectangle that covers the whole bitmap leaves it blank; any other rectangle adds one clear mark |
| `Canvas2D.Canvas.DrawImage` | src/utils/iconGenerator.ts:55 | drawing appends the whole image, scaled to the destination rectangle; the dimensions do not change |
| `Canvas2D.Canvas.ToDataUrl` | src/utils/iconGenerator.ts:56 | the PNG has the canvas's current width and height and holds its current picture |
| `IconGenerator.IconKey` | src/utils/iconGenerator.ts:56 | definition: the key `"<platform>-<size>"` of the template literals at lines 56, 65 and 74 |
| `IconGenerator.Catalog` | src/utils/iconGenerator.ts:50-75 | definition: the 26 steps of a run, Android rows then iOS rows then macOS rows, as the three loops take them |
| `IconGenerator.IconKeyInjective` | src/utils/iconGenerator.ts:56-74 | a key `"<platform>-<size>"` identifies exactly one platform and one size |
| `IconGenerator.CatalogLength` | src/utils/iconGenerator.ts:5-38 | a run takes 5 + 14 + 7 = 26 steps |
| `IconGenerator.CatalogAt` | src/utils/iconGenerator.ts:50-75 | row `i` of a platform list is step `Offset(p) + i` of a run, and a run has 26 steps |
| `IconGenerator.CatalogIndex` | src/utils/iconGenerator.ts:50-75 | each step of a run is a row of its own platform's list, at the matching position |
| `IconGenerator.OffsetsChain` | src/utils/iconGenerator.ts:50-75 | the Android, iOS and macOS loops cover the run back to back, in that order |
| `IconGenerator.CatalogKeysDetermineStep` | src/utils/iconGenerator.ts:56-74 | two steps of a run that use the same key are the same step |
| `IconGenerator.CatalogKeysDistinct` | src/utils/iconGenerator.ts:48-75 | the 26 keys of a run are pairwise distinct, even where iOS and macOS share sizes 512 and 1024 |
| `IconGenerator.Rendered` | src/utils/iconGenerator.ts:52-56 | an entry's icon is `size` x `size` and holds only the whole upload drawn over the full square |
| `IconGenerator.Generated` | src/utils/iconGenerator.ts:48-77 | definition: the dictionary after a sequence of steps, each assigning its icon under its key and overwriting any earlier value there, as a JavaScript object assignment does |
| `IconGenerator.IconSet` | src/utils/iconGenerator.ts:48-77 | definition: the dictionary after all 26 steps of a run |
| `IconGenerator.GeneratedKeys` | src/utils/iconGenerator.ts:48-75 | after any sequence of steps, the dictionary's keys are exactly those steps' keys |
| `IconGenerator.GeneratedIcon` | src/utils/iconGenerator.ts:48-75 | each step's key holds the icon rendered at that step's size, and no other step disturbs it |
| `IconGenerator.GeneratedSize` | src/utils/iconGenerator.ts:48-75 | with distinct keys, the dictionary has one entry per step |
| `IconGenerator.GeneratedStep` | src/utils/iconGenerator.ts:56 | with distinct keys, each insertion uses a key that is not present yet, and adds exactly that icon |
| `IconGenerator.PlatformStep` | src/utils/iconGenerator.ts:52-56 | each loop iteration inserts under a key no earlier iteration used, so nothing is overwritten, and takes the dictionary exactly one catalog step further |
| `IconGenerator.RunPrefix` | src/utils/iconGenerator.ts:48-75 | after the first `k` steps, the map holds exactly the first `k` keys, one icon each, and each icon is `size` x `size` |
| `IconGenerator.StepKeyPresent` | src/utils/iconGenerator.ts:48-77 | the key of every step of a run is in the run's dictionary |
| `IconGenerator.IconSetComplete` | src/utils/iconGenerator.ts:48-77 | a complete run yields 26 keys, one per catalog entry, each holding a `size` x `size` icon of that entry, whatever the upload's shape |
| `IconGenerator.RenderOn` | src/utils/iconGenerator.ts:52-56 | one loop body leaves the canvas `size` x `size` holding only the upload drawn over the full square, and returns exactly that square's PNG |
| `IconGenerator.LastSizeIsLastRow` | src/utils/iconGenerator.ts:5-38 | every platform list is non-empty and ends with 192 (Android) or 1024 (iOS, macOS) |
| `IconGenerator.DrawPlatform` | src/utils/iconGenerator.ts:51-57 | a platform loop extends the dictionary by exactly its rows, in order, and leaves the canvas at the last row's size holding only that row's drawing |
| `IconGenerator.GenerateIcons` | src/utils/iconGenerator.ts:40-81 | without a 2D context, no map is produced; with one, the result is `IconSet(source)`: 26 keys, each icon `size` x `size` |
| `IconPreview.PreviewTiles` | src/components/IconPreview.tsx:10-17 | definition: the six preview tiles, with caption, key and size caption, in source order |
| `IconPreview.TileKeys` | src/components/IconPreview.tsx:10-17 | each preview tile's key is the key of one specific catalog step |
| `IconPreview.PreviewKeysPresent` | src/components/IconPreview.tsx:10-17 | every key the preview looks up is present in every generated dictionary |

## Left out

- `downloadIconsAsZip` (src/utils/iconGenerator.ts:83-102) and the archive
  builder it calls. `./zipGenerator` is not part of this model. The rest of
  that function is DOM and download I/O.
- Image decoding and async plumbing: `new Image()`, `onload`,
  `URL.createObjectURL` and the Promise (src/utils/iconGenerator.ts:41-43, 79).
  The decoded upload is the parameter `source`. A decode failure is not
  modelled, because the code has no `onerror` handler and simply never
  settles.
- `canvas.getContext('2d')` is the boolean parameter `hasContext`. This is
  because the browser decides whether a context exists.
- Pixels: resampling and the bytes of the PNG data URL are not modelled.
  `toDataURL` is abstracted as `PngImage(width, height, picture)`.
- The HTML rule that assigning `canvas.width` or `canvas.height` resets the
  bitmap is not modelled. The proofs rely on the explicit `clearRect` alone.
- `Canvas2D.Canvas.ToDataUrl`: on a bitmap with zero width or height the
  HTML `toDataURL` returns the empty data URL `"data:,"`, and the model still
  returns a PNG of those dimensions. No call in the core gets there, because
  every catalog size is at least 1 (`CatalogWellFormed`).
- Canvas attribute limits, for example the largest canvas a browser
  allocates, are not modelled. All sizes in the catalog are at most 1024.
- The unused `name` destructuring in each loop (lines 51, 60, 69) and the
  `folder` field (lines 7-11) do not affect keys or icons. The folder naming
  pattern is proved about the catalog, and nothing else reads it.
- `IconGenerator.DrawPlatform`: the three `forEach` loops, which differ
  only in the platform, are one method that takes the platform as a parameter. It is called
  for Android, iOS and macOS in the source's order. Their shared loop body
  (resize, clear, draw, encode) is the method `RenderOn`.
- src/pages/Index.tsx, src/components/ImageUpload.tsx and the rendering in
  src/components/IconPreview.tsx are UI. This includes the advisory
  square/high-resolution warnings and the static caption "macOS: 10 icons"
  (IconPreview.tsx:50). That caption disagrees with the 7-row macOS table,
  but it is display text only.
- `Canvas2D.Canvas.ClearRect`: a rectangle with a negative width or height
  is not normalised, so it is not treated as covering the bitmap even when
  it does. A zero-area rectangle adds a `Cleared` mark although browsers
  leave the bitmap as it was. The only call in the core,
  `clearRect(0, 0, size, size)` at src/utils/iconGenerator.ts:54, is covered
  by neither case.
- The JavaScript `icons` object keeps its keys in insertion order (Android,
  then iOS, then macOS). A Dafny `map` has no order. Nothing in the core
  reads that order.
- Repeating a run on the same upload gives the same dictionary. This holds
  because `IconSet` is a function of the upload. No separate lemma states it.
