/**
 * What each pass of the gallery does to the list of images and dots, as
 * functions of the list before the pass. The class in ShopBulletWidget is
 * proved to update its arrays exactly as these functions say.
 */
module Gallery {
  import opened Wrappers
  import opened Viewport
  import opened ImageSource

  /** One image element: its current `src`, whether it carries the active class, and its `dataset`. */
  datatype Img = Img(src: string, active: bool, data: Dataset)

  /** `if (src) { img.src = src; }` */
  function AssignIfTruthy(img: Img, v: Option<string>): Img
  {
    if Truthy(v) then img.(src := v.value) else img
  }

  /** Every image has a non-empty `src`, so `!img.src` is false for all of them. */
  predicate AllSourced(imgs: seq<Img>)
  {
    forall k :: 0 <= k < |imgs| ==> imgs[k].src != ""
  }

  /** The image at `j` is the only active one. */
  predicate ActiveExactlyAt(imgs: seq<Img>, j: int)
  {
    0 <= j < |imgs| && forall k :: 0 <= k < |imgs| ==> (imgs[k].active <==> k == j)
  }

  // ---------------------------------------------------------------------------
  // addPlaceholders

  function Placeheld(imgs: seq<Img>, placeholder: string): seq<Img>
  {
    seq(|imgs|, k requires 0 <= k < |imgs| => imgs[k].(src := placeholder))
  }

  /** After the placeholder pass every source is the placeholder; flags and attributes are untouched. */
  lemma PlaceheldSpec(imgs: seq<Img>, placeholder: string)
    ensures |Placeheld(imgs, placeholder)| == |imgs|
    ensures forall k :: 0 <= k < |imgs| ==>
              var r := Placeheld(imgs, placeholder)[k];
              r.src == placeholder && r.active == imgs[k].active && r.data == imgs[k].data
    ensures placeholder != "" ==> AllSourced(Placeheld(imgs, placeholder))
  {
  }

  // ---------------------------------------------------------------------------
  // setupImages

  /** The body of the `setupImages` loop for the image at `index`. */
  function SetupImg(img: Img, index: int, t: DeviceType, lazyLoad: bool, placeholder: string): Img
  {
    if index == 0 then AssignIfTruthy(img.(active := true), Resolve(img.data, t))
    else if lazyLoad && img.src == placeholder then AssignIfTruthy(img.(active := false), Resolve(img.data, t))
    else img.(active := false)
  }

  function SetupPass(imgs: seq<Img>, t: DeviceType, lazyLoad: bool, placeholder: string): seq<Img>
  {
    seq(|imgs|, k requires 0 <= k < |imgs| => SetupImg(imgs[k], k, t, lazyLoad, placeholder))
  }

  /**
   * `setupImages` makes image 0 the only active one and gives it its resolved source
   * when there is one; every other image changes source only when lazy loading is on,
   * it still shows the placeholder, and a source resolves; attributes never change.
   */
  lemma SetupPassSpec(imgs: seq<Img>, t: DeviceType, lazyLoad: bool, placeholder: string)
    ensures var r := SetupPass(imgs, t, lazyLoad, placeholder);
      |r| == |imgs| &&
      (forall k :: 0 <= k < |imgs| ==> r[k].active == (k == 0) && r[k].data == imgs[k].data) &&
      (|imgs| > 0 ==> r[0].src == if Truthy(Resolve(imgs[0].data, t)) then Resolve(imgs[0].data, t).value else imgs[0].src) &&
      (forall k :: 0 < k < |imgs| ==>
         r[k].src == if lazyLoad && imgs[k].src == placeholder && Truthy(Resolve(imgs[k].data, t))
                     then Resolve(imgs[k].data, t).value else imgs[k].src)
  {
  }

  /** Only non-empty values are ever assigned, so a fully sourced list stays fully sourced. */
  lemma SetupKeepsSourced(imgs: seq<Img>, t: DeviceType, lazyLoad: bool, placeholder: string)
    requires AllSourced(imgs)
    ensures AllSourced(SetupPass(imgs, t, lazyLoad, placeholder))
  {
  }

  /** With lazy loading off, no image other than the first changes its source. */
  lemma SetupEagerOnlyFirst(imgs: seq<Img>, t: DeviceType, placeholder: string)
    ensures forall k :: 0 < k < |imgs| ==> SetupPass(imgs, t, false, placeholder)[k].src == imgs[k].src
  {
  }

  /** Running the pass twice on the same tier changes nothing more than running it once. */
  lemma SetupIdempotent(imgs: seq<Img>, t: DeviceType, lazyLoad: bool, placeholder: string)
    requires AllSourced(imgs)
    ensures SetupPass(SetupPass(imgs, t, lazyLoad, placeholder), t, lazyLoad, placeholder)
         == SetupPass(imgs, t, lazyLoad, placeholder)
  {
  }

  // ---------------------------------------------------------------------------
  // showImage

  /** The body of the first `showImage` loop: toggle the class, and load the selected image. */
  function ShowImg(img: Img, i: int, index: int, t: DeviceType): Img
  {
    if i == index then AssignIfTruthy(img.(active := true), Resolve(img.data, t))
    else img.(active := false)
  }

  function ShowPass(imgs: seq<Img>, index: int, t: DeviceType): seq<Img>
  {
    seq(|imgs|, k requires 0 <= k < |imgs| => ShowImg(imgs[k], k, index, t))
  }

  /** The lazy-loading fix-up of the selected image: `!img.src || (img.src === placeholder && src)`. */
  function LazyFix(img: Img, t: DeviceType, placeholder: string): Img
  {
    var v := Resolve(img.data, t);
    if img.src == "" || (img.src == placeholder && Truthy(v)) then img.(src := JsString(v)) else img
  }

  /** The images after a valid `showImage(index)`. */
  function Shown(imgs: seq<Img>, index: int, t: DeviceType, lazyLoad: bool, placeholder: string): seq<Img>
    requires 0 <= index < |imgs|
  {
    var s := ShowPass(imgs, index, t);
    if lazyLoad then s[index := LazyFix(s[index], t, placeholder)] else s
  }

  /** The dot flags after a valid `showImage(index)`. */
  function DotsShown(dots: seq<bool>, index: int): seq<bool>
  {
    seq(|dots|, k requires 0 <= k < |dots| => k == index)
  }

  /** The overlay after a valid `showImage(index)` among `count` images. */
  function OverlayShown(overlay: Option<bool>, index: int, count: int): Option<bool>
  {
    if index == count - 1 && overlay.Some? then Some(true)
    else if overlay.Some? then Some(false)
    else overlay
  }

  /**
   * After `showImage(index)` on a fully sourced list: exactly the image at `index` is
   * active, only its source may change, and it changes to the resolved source when
   * there is one.
   */
  lemma ShownSpec(imgs: seq<Img>, index: int, t: DeviceType, lazyLoad: bool, placeholder: string)
    requires 0 <= index < |imgs| && AllSourced(imgs)
    ensures var r := Shown(imgs, index, t, lazyLoad, placeholder);
      |r| == |imgs| && AllSourced(r) &&
      (forall k :: 0 <= k < |imgs| ==> r[k].active == (k == index) && r[k].data == imgs[k].data) &&
      (forall k :: 0 <= k < |imgs| && k != index ==> r[k].src == imgs[k].src) &&
      r[index].src == if Truthy(Resolve(imgs[index].data, t)) then Resolve(imgs[index].data, t).value else imgs[index].src
  {
  }

  /**
   * On a fully sourced list the lazy-loading fix-up in `showImage` never changes an
   * image: the loop before it has already assigned any resolvable source.
   */
  lemma LazyBranchIdle(imgs: seq<Img>, index: int, t: DeviceType, placeholder: string)
    requires 0 <= index < |imgs| && AllSourced(imgs)
    ensures Shown(imgs, index, t, true, placeholder) == Shown(imgs, index, t, false, placeholder)
  {
  }

  /** Showing the same image twice is the same as showing it once. */
  lemma ShowIdempotent(imgs: seq<Img>, index: int, t: DeviceType, lazyLoad: bool, placeholder: string)
    requires 0 <= index < |imgs| && AllSourced(imgs)
    ensures var once := Shown(imgs, index, t, lazyLoad, placeholder);
      Shown(once, index, t, lazyLoad, placeholder) == once
  {
  }

  /** The dot at `index` is the only active dot. */
  lemma DotsShownSpec(dots: seq<bool>, index: int)
    ensures |DotsShown(dots, index)| == |dots|
    ensures forall k :: 0 <= k < |dots| ==> (DotsShown(dots, index)[k] <==> k == index)
  {
  }

  /** An existing overlay is active exactly when the last image is shown; an absent one stays absent. */
  lemma OverlayShownSpec(overlay: Option<bool>, index: int, count: int)
    ensures OverlayShown(overlay, index, count).Some? == overlay.Some?
    ensures overlay.Some? ==> (OverlayShown(overlay, index, count).value <==> index == count - 1)
  {
  }

  /**
   * A resize runs `setupImages`, which makes image 0 active again whichever image is
   * shown, so the active image and `currentIndex` part ways after any resize that
   * follows `showImage` of a later image.
   */
  lemma ResizeForgetsShownImage(imgs: seq<Img>, index: int, t1: DeviceType, t2: DeviceType,
                                lazyLoad: bool, placeholder: string)
    requires 0 < index < |imgs|
    ensures var r := SetupPass(Shown(imgs, index, t1, lazyLoad, placeholder), t2, lazyLoad, placeholder);
      r[0].active && !r[index].active
  {
  }

  // ---------------------------------------------------------------------------
  // setupLazyLoading and its IntersectionObserver callback

  /** Whether `setupLazyLoading` calls `observer.observe(img)` for an image. */
  predicate WouldObserve(img: Img, t: DeviceType, placeholder: string)
  {
    img.src == "" || (img.src == placeholder && Truthy(Resolve(img.data, t)))
  }

  /** The images `setupLazyLoading` starts to watch. */
  function ObservePass(imgs: seq<Img>, t: DeviceType, placeholder: string): seq<bool>
  {
    seq(|imgs|, k requires 0 <= k < |imgs| => WouldObserve(imgs[k], t, placeholder))
  }

  /** The callback body for an observed image: load it once it is intersecting. */
  function Intersected(img: Img, isIntersecting: bool, t: DeviceType, placeholder: string): Img
  {
    if isIntersecting && WouldObserve(img, t, placeholder) then img.(src := JsString(Resolve(img.data, t)))
    else img
  }

  /**
   * `setupLazyLoading` runs right after `setupImages`, on the same tier, when lazy
   * loading is on. By then every image still at the placeholder has no resolvable
   * source, so the only images it observes are those whose resolved source IS the
   * placeholder string.
   */
  lemma LazySetupObservesOnlyPlaceholders(imgs: seq<Img>, t: DeviceType, placeholder: string)
    requires AllSourced(imgs)
    ensures var r := SetupPass(imgs, t, true, placeholder);
      forall k :: 0 <= k < |r| && WouldObserve(r[k], t, placeholder) ==> Resolve(r[k].data, t) == Some(placeholder)
  {
  }

  /**
   * The callback changes no source of an image whose resolved source is the
   * placeholder: together with LazySetupObservesOnlyPlaceholders, lazy loading
   * never loads anything.
   */
  lemma IntersectedIdle(img: Img, isIntersecting: bool, t: DeviceType, placeholder: string)
    requires img.src != "" && Resolve(img.data, t) == Some(placeholder)
    ensures Intersected(img, isIntersecting, t, placeholder) == img
  {
  }
}
