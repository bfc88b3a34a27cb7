/** The public entry point, `awaitImageLoaded(element, re = /.?/)`: check
    the arguments, then hand image elements to `imgLoaded` and every other
    element to `backgroundImageLoaded`. */
module ImageLoaded {
  import opened Base
  import opened LoadDetection

  /** The first argument: an `HTMLElement`, or any other value. */
  datatype ElementArg = HtmlElement(element: Element) | NotAnHtmlElement

  /** The second argument: left out (or `undefined`), a `RegExp` (given by
      its `test`), or any other value. */
  datatype FilterArg = Omitted | RegExp(test: Filter) | NotARegExp

  /** A call either throws before returning or returns a promise. */
  datatype Call<T> = Threw(error: Error) | Returned(promise: Promise<T>)

  /** `/.?/.test`: at the start of any string `.?` matches one character or
      none, so the default filter accepts every string, `""` included. */
  const DefaultFilter: Filter := _ => true

  function FilterOf(re: FilterArg): Filter
    requires !re.NotARegExp?
  {
    if re.Omitted? then DefaultFilter else re.test
  }

  /** `awaitImageLoaded`: a `TypeError` naming the first bad argument, the
      element checked first; otherwise the promise of the detector its tag
      name selects. */
  method AwaitImageLoaded(element: ElementArg, re: FilterArg, host: Host) returns (r: Call<Element>)
    ensures element.NotAnHtmlElement? ==> r == Threw(TypeError(0))
    ensures element.HtmlElement? && re.NotARegExp? ==> r == Threw(TypeError(1))
    ensures element.HtmlElement? && !re.NotARegExp? ==> r.Returned?
    ensures r.Returned? && element.element.tagName == "IMG" ==>
              r.promise == ImgLoadedSpec(element.element, FilterOf(re), host)
    ensures r.Returned? && element.element.tagName != "IMG" ==>
              r.promise == BackgroundImageLoadedSpec(element.element, FilterOf(re), host)
  {
    if !element.HtmlElement? {
      return Threw(TypeError(0));
    } else if re.NotARegExp? {
      return Threw(TypeError(1));
    }
    var test := FilterOf(re);
    var p: Promise<Element>;
    if element.element.tagName == "IMG" {
      p := ImgLoaded(element.element, test, host);
    } else {
      var probed;
      p, probed := BackgroundImageLoaded(element.element, test, host);
    }
    r := Returned(p);
  }

  /** With the default filter an image waits for `src` only when it has none. */
  lemma DefaultFilterWatchesOnlyEmptySrc(image: ImageStatus)
    ensures NeedsSrcWatch(DefaultFilter, image) <==> image.src == ""
  {
  }

  /** With the default filter and an image element that has a source and has already
      loaded with a non-zero size, the detection resolves at once with that
      image, whatever notifications or events follow. */
  lemma DefaultFilterLoadedImage(img: Element, host: Host)
    requires host.image.src != "" && host.image.complete
    requires host.image.naturalWidth != 0 && host.image.naturalHeight != 0
    ensures ImgLoadedSpec(img, FilterOf(Omitted), host) == Resolved(img)
  {
  }

  /** With the default filter a background element with no URL yet accepts
      the first `style` value that carries any URL: the filter is never
      applied to that new URL. */
  lemma DefaultFilterBackgroundTakesFirstUrl(host: Host, k: nat)
    requires UrlOrEmpty(host.computedBackground) == ""
    requires k < |host.styleNotifications|
    requires BackgroundUrl.GetBackgroundImageURL(host.styleNotifications[k]).Some?
    requires forall j :: 0 <= j < k ==> BackgroundUrl.GetBackgroundImageURL(host.styleNotifications[j]).None?
    ensures ProbedURL(DefaultFilter, host) == BackgroundUrl.GetBackgroundImageURL(host.styleNotifications[k])
  {
    BackgroundWatchAccepts(DefaultFilter, host);
    var found := AttributeWatch.FirstAccepted(host.styleNotifications, StylePredicate("", DefaultFilter));
    assert StylePredicate("", DefaultFilter)(host.styleNotifications[k]).Some?;
    assert found.Some?;
    assert StylePredicate("", DefaultFilter)(host.styleNotifications[found.value.0]).Some?;
    assert found.value.0 == k;
  }

  /** The default filter also matches `""`: an image without `src` whose
      `src` is notified as still empty goes on to the `complete` check. */
  lemma DefaultFilterAcceptsEmptySrcChange(img: Element, host: Host)
    requires host.image.src == "" && host.srcNotifications == [""]
    ensures ImgLoadedSpec(img, DefaultFilter, host) == SettleImage(img, host.resumed, host.loadEvents)
  {
    ImgWaitsForAcceptedSrc(img, DefaultFilter, host);
    assert DefaultFilter(host.srcNotifications[0]);
  }
}
