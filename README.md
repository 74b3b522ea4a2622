# ShopBullet gallery widget — a Dafny model

ShopBullet turns a container of product images into a hover gallery. It generates
one indicator dot per image. Hovering a dot shows that image. Each image picks its
source from per-device data attributes. A hover overlay appears on the last image.
An optional lazy-loading path uses an IntersectionObserver.

This project models the `ShopBullet` class with the DOM removed:

- `Viewport.GetDeviceType` classifies `window.innerWidth` into desktop, tablet or mobile.
- `ImageSource.Resolve` is the `img.dataset[`src_${deviceType}`] || img.dataset.src`
  pattern, with JavaScript truthiness. The `dataset` is a `map<string, string>`: an
  absent attribute reads as `None` (`undefined`), and the empty string is falsy.
- `Markup.AddDots` builds the dots markup with the source's branches and loop. It is
  proved equal to one uniform formula, `Markup.DotsHtml`. A small parser reads every
  span back to its `data-index` and `active` class.
- `Gallery` gives, as functions of the images before each pass, what every pass does
  to the image list, the dot flags and the overlay. Lemmas state what the passes promise.
- `ShopBulletWidget.ShopBullet` is the class. The images are an `array<Img>` updated in
  place; an `Img` holds `src`, an active flag and the `dataset`. The dots are an
  `array<bool>`. The overlay is an `Option<bool>`. `currentIndex` and the viewport
  `width` are integer fields. Each method's `ensures` ties the new arrays to the
  `Gallery` function of the old ones. The public operations (the constructor, `Resize`,
  `ShowImage`, `HideOverlay`, `OnIntersection`) keep the class invariant `Valid()`. The
  passes they are built from (`AddPlaceholders`, `SetupImages`, `ToggleImages`,
  `SetupLazyLoading`) keep only its `Shape()` and `Sourced()` parts, and `ToggleDots`
  states only the new dot flags.

What the proofs show about the code as written:

- Every image `src` is non-empty from `addPlaceholders` on. So the `!img.src` guards never
  fire, and the `currentImg.src = src` assignment with `src` undefined is unreachable
  (`JsString` writes it as "undefined").
- The lazy-loading fix-up at the end of `showImage` never changes anything. The loop
  before it has already assigned any resolvable source (`Gallery.LazyBranchIdle`).
- With `lazyLoad` on, `setupImages` already gives every image still at the placeholder
  its resolved source. `setupLazyLoading` then runs on the same tier. It therefore only
  watches images whose resolved source is the placeholder string itself, and the
  observer callback never changes a source (`Gallery.LazySetupObservesOnlyPlaceholders`,
  `ShopBullet.ObserverIdle`, `ShopBullet.OnIntersection`).
- In every state the widget reaches, the active dot is the one at `currentIndex`, and
  exactly one image is active when there are images. Both are part of `Valid()`.
- `setupImages` runs on every resize. It makes image 0 active and leaves `currentIndex`
  and the dots alone. So "the active image is at `currentIndex`" does not survive a
  resize, and it is not part of the invariant (`Gallery.ResizeForgetsShownImage`).
- "The overlay is active iff the last image is current" does not survive either.
  `hideOverlay`, the `mouseleave` handler, clears the overlay whatever image is shown,
  and a resize leaves the overlay as it was.

Three behaviours of the code differ from what the widget's purpose suggests. The model
follows the code in each:

- One would expect images other than the first to keep the placeholder, with lazy
  loading on, until they scroll into view. The code loads them at once in `setupImages`
  (src/js/modules/shopBullet.js:64-68).
- One would expect "the active image is at `currentIndex`" to be an invariant.
  A resize breaks it.
- One would expect the observer to watch every placeholder image with a resolvable
  source. After `setupImages` there is none, apart from images whose resolved source is the placeholder string itself.

`Scenario` at the end of `shop_bullet.dfy` is a client of the class. It steps through
a three-image walk-through: construct, show the last image, show an out-of-range index,
leave the dot. It then resizes to a mobile width. It asserts the expected state after each step from
the contracts alone.

## Model

| member | source | states |
|---|---|---|
| `Viewport.GetDeviceType` | src/js/modules/shopBullet.js:45-50 | desktop iff width >= 1024, tablet iff 576 <= width < 1024, mobile iff width < 576 |
| `Viewport.TierBoundaries` | src/js/modules/shopBullet.js:45-50 | 575 is mobile, 576 and 1023 are tablet, 1024 is desktop |
| `Viewport.TierMonotone` | src/js/modules/shopBullet.js:45-50 | a wider viewport never gives a narrower tier |
| `Viewport.Name` | src/js/modules/shopBullet.js:47-49 | definition of the strings `getDeviceType` returns; stated by `Viewport.NamesDistinct` |
| `Viewport.NamesDistinct` | src/js/modules/shopBullet.js:47-49 | the three tier names are pairwise different |
| `ImageSource.Resolve` | src/js/modules/shopBullet.js:58 | the result is truthy iff the tier attribute or the fallback is; a non-empty tier attribute wins; otherwise the fallback (possibly undefined) is returned |
| `ImageSource.TierKey` | src/js/modules/shopBullet.js:58 | definition of the `src_${deviceType}` key; stated by `ImageSource.TierKeysDistinct` |
| `ImageSource.Lookup` | src/js/modules/shopBullet.js:58 | definition of reading `img.dataset[key]`, `undefined` when the attribute is missing (also lines 65, 98, 114, 145, 161); stated by `ImageSource.Resolve` and `ImageSource.ResolveReadsTwoKeys` |
| `ImageSource.Truthy` | src/js/modules/shopBullet.js:59 | definition of JavaScript truthiness in `if (src)` and `&& src` (also lines 66, 99, 118, 149, 162); stated by `ImageSource.Resolve` |
| `ImageSource.JsOr` | src/js/modules/shopBullet.js:58 | definition of JavaScript `||` on string-or-undefined; stated by `ImageSource.Resolve` |
| `ImageSource.JsString` | src/js/modules/shopBullet.js:120 | definition of what assigning to `img.src` stores: `undefined` becomes "undefined" (also line 151) |
| `ImageSource.TierKeysDistinct` | src/js/modules/shopBullet.js:58 | a tier key is never the fallback key `src`, and different tiers read different keys |
| `ImageSource.ResolveReadsTwoKeys` | src/js/modules/shopBullet.js:58 | resolution depends only on the tier entry and the fallback entry of the dataset |
| `Markup.DecimalString` | src/js/modules/shopBullet.js:183 | the `${n}` numeral is non-empty, all digits, and has no leading zero |
| `Markup.DecimalRoundTrip` | src/js/modules/shopBullet.js:183 | reading back the numeral written for n gives n |
| `Markup.DotSpanParses` | src/js/modules/shopBullet.js:179-185 | every dot span decodes to the data-index and active class it was written with |
| `Markup.HoverAttribute` | src/js/modules/shopBullet.js:170-174 | the `--bullet-hover` style attribute is present iff `bulletHover` is non-empty, and it holds that colour |
| `Markup.ConcatCons` | src/js/modules/shopBullet.js:181-185 | left-to-right accumulation of the spans after a first span equals that span followed by the rest |
| `Markup.DotSpan` | src/js/modules/shopBullet.js:179-183 | definition of one dot span; stated by `Markup.DotSpanParses` |
| `Markup.ColorVariable` | src/js/modules/shopBullet.js:170-173 | definition of the style attribute text; stated by `Markup.HoverAttribute` |
| `Markup.OpenTag` | src/js/modules/shopBullet.js:174 | definition of the opening tag; stated by `Markup.HoverAttribute` |
| `Markup.DotsHtml` | src/js/modules/shopBullet.js:174-187 | definition of the uniform formula; stated by `Markup.DotsHtmlShape` and matched by `Markup.AddDots` |
| `Markup.AddDots` | src/js/modules/shopBullet.js:169-189 | the nums == 0, nums == 1 and nums > 1 branches with the extra-spans loop all agree with the uniform formula `DotsHtml` |
| `Markup.DotsHtmlShape` | src/js/modules/shopBullet.js:174-187 | no markup without images; otherwise open tag, one span per image with data-index equal to its position and `active` only at 0, close tag |
| `Gallery.AssignIfTruthy` | src/js/modules/shopBullet.js:59-61 | definition: the source changes only when the resolved value is truthy; its use is stated by `Gallery.SetupKeepsSourced` |
| `Gallery.Placeheld` | src/js/modules/shopBullet.js:39-43 | definition of the placeholder pass; stated by `Gallery.PlaceheldSpec` |
| `Gallery.SetupImg` | src/js/modules/shopBullet.js:56-70 | definition of the `setupImages` loop body for one image, with its index-0 and lazy branches; stated by `Gallery.SetupPassSpec` |
| `Gallery.SetupPass` | src/js/modules/shopBullet.js:55-71 | definition: `SetupImg` applied at every position; stated by `Gallery.SetupPassSpec` |
| `Gallery.ShowImg` | src/js/modules/shopBullet.js:96-102 | definition of the first `showImage` loop body; stated by `Gallery.ShownSpec` |
| `Gallery.ShowPass` | src/js/modules/shopBullet.js:95-103 | definition: `ShowImg` applied at every position; stated by `Gallery.ShownSpec` |
| `Gallery.LazyFix` | src/js/modules/shopBullet.js:110-122 | definition of the lazy fix-up of the selected image, including the assignment of an unresolved source; shown to change nothing by `Gallery.LazyBranchIdle` |
| `Gallery.Shown` | src/js/modules/shopBullet.js:95-122 | definition of the images after a valid `showImage`; stated by `Gallery.ShownSpec` and `Gallery.ShowIdempotent` |
| `Gallery.DotsShown` | src/js/modules/shopBullet.js:104-106 | definition of the dot flags after a valid `showImage`; stated by `Gallery.DotsShownSpec` |
| `Gallery.OverlayShown` | src/js/modules/shopBullet.js:124-129 | definition of the overlay after a valid `showImage`; stated by `Gallery.OverlayShownSpec` |
| `Gallery.WouldObserve` | src/js/modules/shopBullet.js:161-163 | definition of the guard under which an image is observed; stated by `Gallery.LazySetupObservesOnlyPlaceholders` |
| `Gallery.ObservePass` | src/js/modules/shopBullet.js:160-165 | definition: the guard evaluated at every position; used by `ShopBulletWidget.ShopBullet.SetupLazyLoading` |
| `Gallery.Intersected` | src/js/modules/shopBullet.js:142-154 | definition of the callback body for one entry; stated by `Gallery.IntersectedIdle` |
| `Gallery.ActiveExactlyAt` | src/js/modules/shopBullet.js:95-97 | definition: the image at j is the only active one; part of `ShopBulletWidget.ShopBullet.OneActiveImage` |
| `Gallery.PlaceheldSpec` | src/js/modules/shopBullet.js:39-43 | every source becomes the placeholder; active flags and attributes are untouched |
| `Gallery.SetupPassSpec` | src/js/modules/shopBullet.js:52-72 | image 0 is the only active image and gets its resolved source if any; another image changes source only with lazyLoad on, at the placeholder and resolvable |
| `Gallery.SetupKeepsSourced` | src/js/modules/shopBullet.js:58-68 | only non-empty values are assigned, so no source becomes empty |
| `Gallery.SetupEagerOnlyFirst` | src/js/modules/shopBullet.js:62-70 | with lazyLoad off, no image but the first changes its source |
| `Gallery.SetupIdempotent` | src/js/modules/shopBullet.js:52-72 | a second `setupImages` on the same tier changes nothing |
| `Gallery.ShownSpec` | src/js/modules/shopBullet.js:95-122 | image i is active iff i == index; only the image at index may change source, to its resolved source when there is one |
| `Gallery.LazyBranchIdle` | src/js/modules/shopBullet.js:110-122 | on non-empty sources the lazy fix-up in `showImage` changes nothing |
| `Gallery.ShowIdempotent` | src/js/modules/shopBullet.js:91-122 | showing the same image twice equals showing it once |
| `Gallery.DotsShownSpec` | src/js/modules/shopBullet.js:104-106 | dot i is active iff i == index, and the dot count is unchanged |
| `Gallery.OverlayShownSpec` | src/js/modules/shopBullet.js:124-129 | an existing overlay is active iff index is the last position; an absent overlay stays absent |
| `Gallery.ResizeForgetsShownImage` | src/js/modules/shopBullet.js:85-88 | after showing a later image, a resize makes image 0 active and the shown image inactive |
| `Gallery.LazySetupObservesOnlyPlaceholders` | src/js/modules/shopBullet.js:160-165 | after the lazy `setupImages`, every image the observer would watch resolves to the placeholder itself |
| `Gallery.IntersectedIdle` | src/js/modules/shopBullet.js:141-154 | the callback leaves an image whose resolved source is the placeholder unchanged |
| `ShopBulletWidget.ShopBullet.Valid` | src/js/modules/shopBullet.js:18-25 | the invariant every public operation keeps: placeholder non-empty, one dot per image, `currentIndex` in range, every source non-empty, watched images resolve to the placeholder, the active dot is at `currentIndex`, and exactly one image is active |
| `ShopBulletWidget.ShopBullet.DotAtCurrent` | src/js/modules/shopBullet.js:104-108 | dot k is active iff k == `currentIndex` |
| `ShopBulletWidget.ShopBullet.OneActiveImage` | src/js/modules/shopBullet.js:56-63 | with at least one image, exactly one image is active |
| `ShopBulletWidget.ShopBullet.ObserverIdle` | src/js/modules/shopBullet.js:160-165 | every watched image resolves to the placeholder itself |
| `ShopBulletWidget.ShopBullet.constructor` | src/js/modules/shopBullet.js:2-27 | dots markup as `addDots` builds it, one dot per image with only dot 0 active, `currentIndex` 0, images as placeholders followed by `setupImages`, observed images as `setupLazyLoading` picks them, overlay as found |
| `ShopBulletWidget.ShopBullet.Init` | src/js/modules/shopBullet.js:29-37 | placeholders, then `setupImages`, then lazy-loading setup when `lazyLoad` is on; establishes the invariant |
| `ShopBulletWidget.ShopBullet.AddPlaceholders` | src/js/modules/shopBullet.js:39-43 | the images become the placeholder pass of the old images |
| `ShopBulletWidget.ShopBullet.SetupImages` | src/js/modules/shopBullet.js:52-72 | the images become `SetupPass` of the old ones on the current tier; only image 0 is active; dots and `currentIndex` are outside its frame |
| `ShopBulletWidget.ShopBullet.Resize` | src/js/modules/shopBullet.js:85-88 | the width changes and `setupImages` runs on the new tier; the invariant is kept |
| `ShopBulletWidget.ShopBullet.ShowImage` | src/js/modules/shopBullet.js:91-130 | an out-of-range index changes nothing; otherwise exactly the image and dot at index are active, `currentIndex` == index, no other image changes source, and an overlay is active iff index is last |
| `ShopBulletWidget.ShopBullet.ToggleImages` | src/js/modules/shopBullet.js:95-103 | the images become `ShowPass` of the old ones; image k is active iff k == index |
| `ShopBulletWidget.ShopBullet.ToggleDots` | src/js/modules/shopBullet.js:104-106 | the dot flags become true exactly at index |
| `ShopBulletWidget.ShopBullet.HideOverlay` | src/js/modules/shopBullet.js:131-133 | the present overlay becomes inactive, whatever image is shown |
| `ShopBulletWidget.ShopBullet.SetupLazyLoading` | src/js/modules/shopBullet.js:135-167 | with an observer available, records the current tier and watches exactly the images that lack a source or are at the placeholder with a resolvable one; otherwise changes nothing |
| `ShopBulletWidget.ShopBullet.OnIntersection` | src/js/modules/shopBullet.js:140-155 | an intersecting watched image that needs a source gets it and is unwatched; in every valid state no source actually changes |

## Left out

- src/js/main.js, the bootstrap that constructs one widget per `.shopBullet` element, is not part of this model: it holds no logic.
- Event wiring is not modelled (`setupDots`, `resizeListener`, src/js/modules/shopBullet.js:74-89). The handlers are methods called directly: `ShowImage` for `mouseenter`, `HideOverlay` for `mouseleave`, `Resize` for `resize`.
- `addPreloader` inserts constant markup and changes no state, so it is left out. DOM insertion through `insertAdjacentHTML` before `container.children[1]` is left out too; only the dots string is modelled. So is the TypeError that construction throws when the container has no second child: `addPreloader` always inserts there (src/js/modules/shopBullet.js:196), and `addDots` does too when there are images (line 188).
- IntersectionObserver mechanics are reduced to a per-image "observed" flag, a capability flag `observerAvailable`, and a callback for one entry. Left out are feature detection against `window`, `rootMargin: "50px"`, batching of entries and the timing of callbacks.
- Options are fixed constructor inputs, and the `Object.assign` merge is left out. The class names become booleans and the selectors become the arrays they select. The dots array is taken to be exactly the generated spans. The images that `addDots` counts (`.shopBullet_images img`) are taken to be the images `imageSelector` selects.
- The viewport width is a field that only `Resize` changes. The source reads `window.innerWidth` live, so a dot hover between a width change and the resize handler would already see the new tier; the model does not capture that interleaving.
- Browser URL normalisation of `img.src` is left out: the value read back is the value assigned.
- `bulletHover` is a string, with "" standing for every falsy value (null, undefined, empty).
- ShopBulletWidget.ShopBullet.constructor: requires a non-empty `placeholderSrc`. With an empty placeholder, the `!img.src` guards would fire on the coercion path; that case is not modelled.
- ShopBulletWidget.ShopBullet.HideOverlay: requires an overlay. Without one, the source throws a TypeError, and that fault is not modelled.
