/**
 * The ShopBullet gallery widget with the DOM removed: the image elements are an
 * array of records, the generated dots an array of active flags, the overlay an
 * optional active flag, and `window.innerWidth` an integer field.
 */
module ShopBulletWidget {
  import opened Wrappers
  import opened Viewport
  import opened ImageSource
  import opened Gallery
  import Markup

  class ShopBullet {
    /** The options, fixed at construction (`activeClass` and the selectors become booleans and arrays). */
    const lazyLoad: bool
    const bulletHover: string
    const placeholderSrc: string
    /** Whether the host offers `IntersectionObserver`. */
    const observerAvailable: bool

    /** The markup `addDots` inserted, `None` when there were no images. */
    const dotsMarkup: Option<string>
    const images: array<Img>
    /** One active flag per generated `shopBullet_dot` span. */
    const dots: array<bool>
    /** The overlay element's active flag, `None` when the container has no overlay. */
    var overlay: Option<bool>
    var currentIndex: int
    /** `window.innerWidth`. */
    var width: int

    /** Which images the IntersectionObserver watches. */
    var observed: seq<bool>
    /** The tier `setupLazyLoading` computed once and its callback keeps using. */
    var observerTier: DeviceType

    ghost predicate Shape()
      reads this
    {
      placeholderSrc != "" &&
      dots.Length == images.Length && |observed| == images.Length &&
      0 <= currentIndex && (images.Length == 0 || currentIndex < images.Length)
    }

    /** Every image has a non-empty `src`, so the `!img.src` guards never fire. */
    ghost predicate Sourced()
      reads this, images
    {
      AllSourced(images[..])
    }

    /** Every watched image already resolves to the placeholder itself, so watching it loads nothing new. */
    ghost predicate ObserverIdle()
      reads this, images
    {
      |observed| == images.Length &&
      forall k :: 0 <= k < images.Length && observed[k] ==> Resolve(images[k].data, observerTier) == Some(placeholderSrc)
    }

    /** The active dot is the one at `currentIndex`. */
    ghost predicate DotAtCurrent()
      reads this, dots
    {
      forall k :: 0 <= k < dots.Length ==> (dots[k] <==> k == currentIndex)
    }

    /**
     * Exactly one image is active. It is the one at `currentIndex` only until the
     * next resize: `setupImages` makes image 0 active again.
     */
    ghost predicate OneActiveImage()
      reads this, images
    {
      images.Length > 0 ==> exists j :: ActiveExactlyAt(images[..], j)
    }

    ghost predicate Valid()
      reads this, images, dots
    {
      Shape() && Sourced() && ObserverIdle() && DotAtCurrent() && OneActiveImage()
    }

    /**
     * `new ShopBullet(container, options)` over a container whose images are `initial`
     * (with whatever `src` and class the page gave them) and whose overlay is `overlay`.
     */
    constructor (initial: seq<Img>, width: int, lazyLoad: bool, bulletHover: string, placeholderSrc: string,
                 overlay: Option<bool>, observerAvailable: bool)
      requires placeholderSrc != ""
      ensures Valid()
      ensures fresh(images) && fresh(dots)
      ensures this.width == width && this.overlay == overlay && currentIndex == 0
      ensures this.lazyLoad == lazyLoad && this.bulletHover == bulletHover
      ensures this.placeholderSrc == placeholderSrc && this.observerAvailable == observerAvailable
      ensures dotsMarkup == Markup.DotsHtml(|initial|, bulletHover)
      ensures dots[..] == seq(|initial|, k requires 0 <= k < |initial| => k == 0)
      ensures images[..] == SetupPass(Placeheld(initial, placeholderSrc), GetDeviceType(width), lazyLoad, placeholderSrc)
      ensures observed == if lazyLoad && observerAvailable
                          then ObservePass(images[..], GetDeviceType(width), placeholderSrc)
                          else seq(|initial|, k => false)
      ensures lazyLoad && observerAvailable ==> observerTier == GetDeviceType(width)
    {
      this.lazyLoad := lazyLoad;
      this.bulletHover := bulletHover;
      this.placeholderSrc := placeholderSrc;
      this.observerAvailable := observerAvailable;
      var html := Markup.AddDots(|initial|, bulletHover);
      dotsMarkup := html;
      images := new Img[|initial|](k requires 0 <= k < |initial| => initial[k]);
      dots := new bool[|initial|](k => k == 0);
      this.overlay := overlay;
      this.width := width;
      currentIndex := 0;
      observed := seq(|initial|, k => false);
      observerTier := GetDeviceType(width);
      new;
      Init();
    }

    /** `init`: placeholders, then the first image, then lazy loading when it is on. */
    method Init()
      requires Shape() && DotAtCurrent() && forall k :: 0 <= k < |observed| ==> !observed[k]
      modifies images, this`observed, this`observerTier
      ensures Valid()
      ensures images[..] == SetupPass(Placeheld(old(images[..]), placeholderSrc), GetDeviceType(width), lazyLoad, placeholderSrc)
      ensures observed == if lazyLoad && observerAvailable
                          then ObservePass(images[..], GetDeviceType(width), placeholderSrc)
                          else old(observed)
      ensures lazyLoad && observerAvailable ==> observerTier == GetDeviceType(width)
      ensures !(lazyLoad && observerAvailable) ==> observerTier == old(observerTier)
    {
      AddPlaceholders();
      SetupImages();
      assert images.Length > 0 ==> ActiveExactlyAt(images[..], 0);
      if lazyLoad {
        SetupLazyLoading();
        if observerAvailable {
          LazySetupObservesOnlyPlaceholders(Placeheld(old(images[..]), placeholderSrc), GetDeviceType(width), placeholderSrc);
        }
      }
    }

    /** `addPlaceholders`: every image shows the placeholder. */
    method AddPlaceholders()
      requires Shape()
      modifies images
      ensures Shape() && Sourced()
      ensures images[..] == Placeheld(old(images[..]), placeholderSrc)
    {
      var i := 0;
      while i < images.Length
        invariant 0 <= i <= images.Length
        invariant forall k :: 0 <= k < i ==> images[k] == old(images[k]).(src := placeholderSrc)
        invariant forall k :: i <= k < images.Length ==> images[k] == old(images[k])
      {
        images[i] := images[i].(src := placeholderSrc);
        i := i + 1;
      }
    }

    /** `setupImages`, run at start and on every resize. */
    method SetupImages()
      requires Shape() && Sourced()
      modifies images
      ensures Shape() && Sourced()
      ensures images[..] == SetupPass(old(images[..]), GetDeviceType(width), lazyLoad, placeholderSrc)
      ensures forall k :: 0 <= k < images.Length ==> images[k].active == (k == 0) && images[k].data == old(images[k].data)
    {
      var deviceType := GetDeviceType(width);
      var i := 0;
      while i < images.Length
        invariant 0 <= i <= images.Length
        invariant forall k :: 0 <= k < i ==> images[k] == SetupImg(old(images[k]), k, deviceType, lazyLoad, placeholderSrc)
        invariant forall k :: i <= k < images.Length ==> images[k] == old(images[k])
      {
        var img := images[i];
        if i == 0 {
          img := img.(active := true);
          var src := Resolve(img.data, deviceType);
          if Truthy(src) {
            img := img.(src := src.value);
          }
        } else {
          img := img.(active := false);
          if lazyLoad && img.src == placeholderSrc {
            var src := Resolve(img.data, deviceType);
            if Truthy(src) {
              img := img.(src := src.value);
            }
          }
        }
        images[i] := img;
        i := i + 1;
      }
      SetupKeepsSourced(old(images[..]), deviceType, lazyLoad, placeholderSrc);
    }

    /** The window's `resize` listener: the viewport becomes `newWidth` wide and `setupImages` runs. */
    method Resize(newWidth: int)
      requires Valid()
      modifies images, this`width
      ensures Valid() && width == newWidth
      ensures images[..] == SetupPass(old(images[..]), GetDeviceType(newWidth), lazyLoad, placeholderSrc)
    {
      width := newWidth;
      SetupImages();
      assert images.Length > 0 ==> ActiveExactlyAt(images[..], 0);
    }

    /** `showImage(index)`, also the `mouseenter` handler of dot `index`. */
    method ShowImage(index: int)
      requires Valid()
      modifies images, dots, this`currentIndex, this`overlay
      ensures Valid()
      ensures !(0 <= index < images.Length) ==>
                images[..] == old(images[..]) && dots[..] == old(dots[..]) &&
                overlay == old(overlay) && currentIndex == old(currentIndex)
      ensures 0 <= index < images.Length ==>
                images[..] == Shown(old(images[..]), index, GetDeviceType(width), lazyLoad, placeholderSrc) &&
                dots[..] == DotsShown(old(dots[..]), index) &&
                overlay == OverlayShown(old(overlay), index, images.Length) &&
                currentIndex == index
      ensures 0 <= index < images.Length ==>
                (forall k :: 0 <= k < images.Length ==> images[k].active == (k == index)) &&
                (forall k :: 0 <= k < dots.Length ==> dots[k] == (k == index)) &&
                (overlay.Some? ==> (overlay.value <==> index == images.Length - 1))
      ensures forall k :: 0 <= k < images.Length && k != index ==> images[k].src == old(images[k].src)
      ensures overlay.Some? == old(overlay).Some?
    {
      if index < 0 || index >= images.Length {
        return;
      }
      var deviceType := GetDeviceType(width);
      ToggleImages(index, deviceType);
      ToggleDots(index);
      currentIndex := index;
      if lazyLoad {
        var currentImg := images[index];
        var src := Resolve(currentImg.data, deviceType);
        if currentImg.src == "" || (currentImg.src == placeholderSrc && Truthy(src)) {
          images[index] := currentImg.(src := JsString(src));
        }
      }
      if index == images.Length - 1 && overlay.Some? {
        overlay := Some(true);
      } else if overlay.Some? {
        overlay := Some(false);
      }
      ShownSpec(old(images[..]), index, deviceType, lazyLoad, placeholderSrc);
      assert ActiveExactlyAt(images[..], index);
    }

    /** The first loop of `showImage`: toggle every image's class and load the selected one. */
    method ToggleImages(index: int, deviceType: DeviceType)
      requires Sourced()
      modifies images
      ensures Sourced()
      ensures images[..] == ShowPass(old(images[..]), index, deviceType)
      ensures forall k :: 0 <= k < images.Length ==> images[k].active == (k == index)
    {
      var i := 0;
      while i < images.Length
        invariant 0 <= i <= images.Length
        invariant forall k :: 0 <= k < i ==> images[k] == ShowImg(old(images[k]), k, index, deviceType)
        invariant forall k :: i <= k < images.Length ==> images[k] == old(images[k])
      {
        var img := images[i].(active := i == index);
        if i == index {
          var src := Resolve(img.data, deviceType);
          if Truthy(src) {
            img := img.(src := src.value);
          }
        }
        images[i] := img;
        i := i + 1;
      }
    }

    /** The second loop of `showImage`: the dot at `index` becomes the only active one. */
    method ToggleDots(index: int)
      modifies dots
      ensures dots[..] == DotsShown(old(dots[..]), index)
    {
      var i := 0;
      while i < dots.Length
        invariant 0 <= i <= dots.Length
        invariant forall k :: 0 <= k < i ==> dots[k] == (k == index)
        invariant forall k :: i <= k < dots.Length ==> dots[k] == old(dots[k])
      {
        dots[i] := i == index;
        i := i + 1;
      }
    }

    /** `hideOverlay(index)`, the `mouseleave` handler of every dot; `index` is unused. */
    method HideOverlay(index: int)
      requires Valid() && overlay.Some?
      modifies this`overlay
      ensures Valid()
      ensures overlay == Some(false)
    {
      overlay := Some(false);
    }

    /** `setupLazyLoading`: watch every image that still needs a source, when the host can. */
    method SetupLazyLoading()
      requires Shape() && Sourced()
      modifies this`observed, this`observerTier
      ensures Shape() && Sourced()
      ensures observerAvailable ==> observerTier == GetDeviceType(width)
      ensures observerAvailable ==>
                forall k :: 0 <= k < images.Length ==>
                  observed[k] == (old(observed[k]) || WouldObserve(images[k], observerTier, placeholderSrc))
      ensures !observerAvailable ==> observed == old(observed) && observerTier == old(observerTier)
    {
      var deviceType := GetDeviceType(width);
      if observerAvailable {
        observerTier := deviceType;
        var i := 0;
        while i < images.Length
          invariant 0 <= i <= images.Length && |observed| == images.Length && observerTier == deviceType
          invariant forall k :: 0 <= k < i ==>
                      observed[k] == (old(observed[k]) || WouldObserve(images[k], deviceType, placeholderSrc))
          invariant forall k :: i <= k < images.Length ==> observed[k] == old(observed[k])
        {
          var img := images[i];
          var src := Resolve(img.data, deviceType);
          if img.src == "" || (img.src == placeholderSrc && Truthy(src)) {
            observed := observed[i := true];
          }
          i := i + 1;
        }
      }
    }

    /**
     * The IntersectionObserver callback for one entry, on the watched image `k`: once it
     * intersects and still needs a source, load it and stop watching it.
     */
    method OnIntersection(k: int, isIntersecting: bool)
      requires Valid() && 0 <= k < images.Length && observed[k]
      modifies images, this`observed
      ensures Valid()
      ensures images[..] == old(images[..])[k := Intersected(old(images[k]), isIntersecting, observerTier, placeholderSrc)]
      ensures observed == old(observed)[k := !(isIntersecting && WouldObserve(old(images[k]), observerTier, placeholderSrc))]
      ensures images[..] == old(images[..])
    {
      if isIntersecting {
        var img := images[k];
        var src := Resolve(img.data, observerTier);
        if img.src == "" || (img.src == placeholderSrc && Truthy(src)) {
          images[k] := img.(src := JsString(src));
          observed := observed[k := false];
        }
      }
      IntersectedIdle(old(images[k]), isIntersecting, observerTier, placeholderSrc);
      assert images[..] == old(images[..]);
    }
  }

  /**
   * A gallery of three images with fallback sources a.jpg, b.jpg, c.jpg and an
   * overlay: hovering the last dot shows the last image and the overlay, an
   * out-of-range index changes nothing, leaving the dot hides the overlay, and a
   * resize makes image 0 active again while the dot and `currentIndex` stay at 2.
   */
  method Scenario()
  {
    var a := Img("", false, map["src" := "a.jpg"]);
    var b := Img("", false, map["src" := "b.jpg"]);
    var c := Img("", false, map["src" := "c.jpg"]);
    TierKeysDistinct(Desktop, Desktop);
    var g := new ShopBullet([a, b, c], 1280, true, "red", "data:image/gif;base64,R0lGODlhAQABAIAAAAAAAP///ywAAAAAAQABAAACAUwAOw==", Some(false), true);
    assert g.images[0].active && g.images[0].src == "a.jpg";
    assert !g.images[1].active && g.images[1].src == "b.jpg";
    assert g.overlay == Some(false) && g.currentIndex == 0;
    assert g.dots[..] == [true, false, false];

    g.ShowImage(2);
    assert g.images[2].active && g.images[2].src == "c.jpg";
    assert !g.images[0].active && g.dots[2] && !g.dots[0];
    assert g.overlay == Some(true) && g.currentIndex == 2;

    g.ShowImage(5);
    assert g.images[2].active && g.overlay == Some(true) && g.currentIndex == 2;

    g.HideOverlay(2);
    assert g.overlay == Some(false) && g.images[2].active;

    g.Resize(500);
    assert g.images[0].active && !g.images[2].active;
    assert g.dots[2] && g.currentIndex == 2;
  }
}
