/** The two load detectors: `imgLoaded`, for an image element's own source,
    and `backgroundImageLoaded`, for a background image probed through a
    throwaway image element. Each reads the element's live properties from
    the host and waits on host notifications; both are stated here as pure
    functions of what the host reports, and implemented as methods that step
    through those notifications. */
module LoadDetection {
  import opened Base
  import opened BackgroundUrl
  import opened AttributeWatch

  /** The caller's filter, `re.test`, as a pure predicate. */
  type Filter = string -> bool

  /** What an image element reports about itself at one moment. */
  datatype ImageStatus = ImageStatus(src: string, complete: bool, naturalWidth: nat, naturalHeight: nat)

  /** Everything the host tells the detectors, in the order they ask for it. */
  datatype Host = Host(
    image: ImageStatus,                 // the image element when the detection starts
    srcNotifications: seq<string>,      // `img.src` at each `src` mutation notification
    resumed: ImageStatus,               // the image element when the code resumes after the `src` watch
    loadEvents: seq<LoadEvent>,         // `load`/`error` events on the image element, once listened for
    computedBackground: StyleValue,     // `getComputedStyle(element)['background-image']`
    styleNotifications: seq<StyleValue>, // `element.style.backgroundImage` at each `style` notification
    probeEvents: string -> seq<LoadEvent>) // `load`/`error` events of a fresh image given that source

  // ---------------------------------------------------------------- imgLoaded

  /** The `src` watcher's predicate: accept (with `true`) a value the filter matches. */
  function SrcPredicate(test: Filter): string -> Option<bool>
  {
    v => if test(v) then Some(true) else None
  }

  /** Whether `imgLoaded` has to watch `src` before anything else. */
  predicate NeedsSrcWatch(test: Filter, image: ImageStatus)
  {
    image.src == "" || !test(image.src)
  }

  /** What the image reports when `imgLoaded` reaches its `complete` check,
      or `None` when it never gets there (the `src` watch never accepts). */
  function StatusAtCheck(test: Filter, host: Host): Option<ImageStatus>
  {
    if !NeedsSrcWatch(test, host.image) then Some(host.image)
    else match FirstAccepted(host.srcNotifications, SrcPredicate(test))
      case None => None
      case Some(_) => Some(host.resumed)
  }

  /** The `complete` check and what follows it: the synchronous verdict when
      the image has finished, else the first `load` or `error` event. */
  function SettleImage(img: Element, status: ImageStatus, events: seq<LoadEvent>): Promise<Element>
  {
    if status.complete then
      if status.naturalWidth != 0 && status.naturalHeight != 0 then Resolved(img)
      else Rejected(LoadFailed("load failed: " + status.src))
    else FirstLoad(img, events)
  }

  /** The promise `imgLoaded(img, re)` returns, once the host is done. */
  function ImgLoadedSpec(img: Element, test: Filter, host: Host): Promise<Element>
  {
    match StatusAtCheck(test, host)
    case None => Pending
    case Some(status) => SettleImage(img, status, host.loadEvents)
  }

  // ---------------------------------------------------- backgroundImageLoaded

  /** `getBackgroundImageURL(...) || ''` */
  function UrlOrEmpty(v: StyleValue): string
  {
    match GetBackgroundImageURL(v)
    case None => ""
    case Some(u) => u
  }

  /** The `style` watcher's predicate, `imageURL && re.test(str_imageURL) &&
      imageURL`: the new value's URL, provided the filter accepts `stale`, the
      URL read before the watch began. */
  function StylePredicate(stale: string, test: Filter): StyleValue -> Option<string>
  {
    v => match GetBackgroundImageURL(v)
      case None => None
      case Some(u) => if test(stale) then Some(u) else None
  }

  /** The source `backgroundImageLoaded` gives its surrogate image, or `None`
      when it never gets that far (the `style` watch never accepts). */
  function ProbedURL(test: Filter, host: Host): Option<string>
  {
    var initial := UrlOrEmpty(host.computedBackground);
    if initial != "" && test(initial) then Some(initial)
    else match FirstAccepted(host.styleNotifications, StylePredicate(initial, test))
      case None => None
      case Some(found) => Some(found.1)
  }

  /** The promise `backgroundImageLoaded(element, re)` returns, once the host
      is done. */
  function BackgroundImageLoadedSpec(element: Element, test: Filter, host: Host): Promise<Element>
  {
    match ProbedURL(test, host)
    case None => Pending
    case Some(url) => FirstLoad(element, host.probeEvents(url))
  }

  // ------------------------------------------------------------------ methods

  /** The two `{once: true}` listeners of an image, `load` resolving with
      `target` and `error` rejecting with the event, as `events` arrive. A
      settled promise ignores later calls to resolve or reject. */
  method ListenLoad(target: Element, events: seq<LoadEvent>) returns (p: Promise<Element>)
    ensures |events| == 0 ==> p == Pending
    ensures |events| > 0 && events[0] == Load ==> p == Resolved(target)
    ensures |events| > 0 && events[0].LoadError? ==> p == Rejected(EventError(events[0].event))
  {
    p := Pending;
    var onLoad, onError := true, true;
    var i := 0;
    while i < |events|
      invariant 0 <= i <= |events|
      invariant p == FirstLoad(target, events[..i])
      invariant onLoad == (Load !in events[..i])
      invariant onError == (forall j :: 0 <= j < i ==> events[j].Load?)
    {
      assert events[..i + 1] == events[..i] + [events[i]];
      match events[i] {
        case Load =>
          if onLoad {
            onLoad := false;
            if p.Pending? { p := Resolved(target); }
          }
        case LoadError(e) =>
          if onError {
            onError := false;
            if p.Pending? { p := Rejected(EventError(e)); }
          }
      }
      i := i + 1;
    }
    assert events[..i] == events;
  }

  /** `imgLoaded(img, re)`: watch `src` until the filter accepts it (only if
      it is empty or rejected now), then settle from `complete` and the
      natural size, or from the first `load`/`error` event. */
  method ImgLoaded(img: Element, test: Filter, host: Host) returns (p: Promise<Element>)
    ensures p == ImgLoadedSpec(img, test, host)
  {
    var status := host.image;
    if status.src == "" || !test(status.src) {
      var watch := WatchAttributeP(img, "src", SrcPredicate(test), host.srcNotifications);
      if watch.Pending? {
        p := Pending;
        return;
      }
      status := host.resumed;
    }
    if status.complete {
      var hasImage := status.naturalWidth != 0 && status.naturalHeight != 0;
      if hasImage {
        p := Resolved(img);
      } else {
        p := Rejected(LoadFailed("load failed: " + status.src));
      }
      return;
    }
    p := ListenLoad(img, host.loadEvents);
  }

  /** `backgroundImageLoaded(element, re)`: take the URL of the computed
      background image; unless it is non-empty and accepted, watch `style`
      and take the URL the watch accepts; then load that URL into a fresh
      image and settle from its first `load`/`error` event. */
  method BackgroundImageLoaded(element: Element, test: Filter, host: Host)
    returns (p: Promise<Element>, probed: Option<string>)
    ensures probed == ProbedURL(test, host)
    ensures p == BackgroundImageLoadedSpec(element, test, host)
  {
    var imageURL := UrlOrEmpty(host.computedBackground);
    if imageURL == "" || !test(imageURL) {
      var watch := WatchAttributeP(element, "style", StylePredicate(imageURL, test), host.styleNotifications);
      if watch.Pending? {
        p, probed := Pending, None;
        return;
      }
      imageURL := watch.value.value;
    }
    // `imageURL` goes into a fresh image, whose listeners settle with `element`
    probed := Some(imageURL);
    p := ListenLoad(element, host.probeEvents(imageURL));
  }

  // ------------------------------------------------------- imgLoaded, proved

  /** With an acceptable `src` already in place no watcher is set up: the
      outcome is the `complete` check on the image as it is now, whatever
      `src` notifications might follow. */
  lemma ImgNoWatchWhenAcceptable(img: Element, test: Filter, host: Host, later: seq<string>, resumed: ImageStatus)
    requires host.image.src != "" && test(host.image.src)
    ensures ImgLoadedSpec(img, test, host) == SettleImage(img, host.image, host.loadEvents)
    ensures ImgLoadedSpec(img, test, host) ==
            ImgLoadedSpec(img, test, host.(srcNotifications := later, resumed := resumed))
  {
  }

  /** The `src` watcher accepts the first notified value the filter matches,
      with the result `true`; it accepts nothing if the filter matches none. */
  lemma SrcWatchAcceptsFirstMatch(test: Filter, values: seq<string>)
    ensures match FirstAccepted(values, SrcPredicate(test))
      case None => forall j :: 0 <= j < |values| ==> !test(values[j])
      case Some(found) =>
        found.1 == true && found.0 < |values| && test(values[found.0]) &&
        forall j :: 0 <= j < found.0 ==> !test(values[j])
  {
    match FirstAccepted(values, SrcPredicate(test))
    case None =>
      forall j | 0 <= j < |values| ensures !test(values[j]) {
        assert SrcPredicate(test)(values[j]).None?;
      }
    case Some(found) =>
      assert SrcPredicate(test)(values[found.0]) == Some(found.1);
      forall j | 0 <= j < found.0 ensures !test(values[j]) {
        assert SrcPredicate(test)(values[j]).None?;
      }
  }

  /** An image with an empty or rejected `src` stays pending while no
      notified `src` value passes the filter, and otherwise goes on to the
      `complete` check with the image as it reports itself on resuming. */
  lemma ImgWaitsForAcceptedSrc(img: Element, test: Filter, host: Host)
    requires host.image.src == "" || !test(host.image.src)
    ensures (forall j :: 0 <= j < |host.srcNotifications| ==> !test(host.srcNotifications[j])) ==>
              ImgLoadedSpec(img, test, host) == Pending
    ensures (exists j :: 0 <= j < |host.srcNotifications| && test(host.srcNotifications[j])) ==>
              ImgLoadedSpec(img, test, host) == SettleImage(img, host.resumed, host.loadEvents)
  {
    SrcWatchAcceptsFirstMatch(test, host.srcNotifications);
  }

  /** The synchronous path: an image that has finished loading when it is
      checked resolves with itself exactly when both natural dimensions are
      non-zero, and otherwise rejects with `load failed: <src>`; `load` and
      `error` events play no part. */
  lemma ImgFastPath(img: Element, test: Filter, host: Host, events: seq<LoadEvent>)
    requires StatusAtCheck(test, host).Some? && StatusAtCheck(test, host).value.complete
    ensures var status := StatusAtCheck(test, host).value;
      var p := ImgLoadedSpec(img, test, host);
      (p == Resolved(img) <==> status.naturalWidth != 0 && status.naturalHeight != 0) &&
      (p != Resolved(img) ==> p == Rejected(LoadFailed("load failed: " + status.src)))
    ensures ImgLoadedSpec(img, test, host) == ImgLoadedSpec(img, test, host.(loadEvents := events))
  {
    var status := StatusAtCheck(test, host).value;
    assert StatusAtCheck(test, host.(loadEvents := events)) == Some(status);
  }

  /** The listener path: an image still loading when it is checked settles
      by its first `load` (resolve with the image) or `error` (reject with the
      event) and by nothing else; its natural size plays no part. */
  lemma ImgListenerPath(img: Element, test: Filter, host: Host)
    requires StatusAtCheck(test, host).Some? && !StatusAtCheck(test, host).value.complete
    ensures |host.loadEvents| == 0 ==> ImgLoadedSpec(img, test, host) == Pending
    ensures |host.loadEvents| > 0 && host.loadEvents[0] == Load ==>
              ImgLoadedSpec(img, test, host) == Resolved(img)
    ensures |host.loadEvents| > 0 && host.loadEvents[0].LoadError? ==>
              ImgLoadedSpec(img, test, host) == Rejected(EventError(host.loadEvents[0].event))
  {
  }

  /** `imgLoaded` resolves with the image it was given and with nothing else. */
  lemma ImgResolvesWithImg(img: Element, test: Filter, host: Host)
    ensures ImgLoadedSpec(img, test, host).Resolved? ==> ImgLoadedSpec(img, test, host).value == img
  {
  }

  /** An image without `src`, which then gets `photo.jpg` and loads: the
      detection resolves with the image. */
  lemma ImgScenarioSrcSetLater(img: Element, host: Host)
    requires host.image.src == ""
    requires host.srcNotifications == ["photo.jpg"]
    requires !host.resumed.complete && host.loadEvents == [Load]
    ensures ImgLoadedSpec(img, _ => true, host) == Resolved(img)
  {
    assert SrcPredicate(_ => true)(host.srcNotifications[0]) == Some(true);
  }

  // ------------------------------------------- backgroundImageLoaded, proved

  /** A computed background with an accepted URL is probed at once: no
      watcher is set up and `style` notifications play no part. */
  lemma BackgroundNoWatchWhenAcceptable(test: Filter, host: Host, later: seq<StyleValue>)
    requires UrlOrEmpty(host.computedBackground) != "" && test(UrlOrEmpty(host.computedBackground))
    ensures ProbedURL(test, host) == Some(UrlOrEmpty(host.computedBackground))
    ensures ProbedURL(test, host.(styleNotifications := later)) == ProbedURL(test, host)
  {
  }

  /** Otherwise the `style` watch decides: it accepts exactly when some
      notified style value carries a URL and the filter accepts the URL read
      before the watch (`""` if there was none), and the URL probed is the
      one carried by the first notified value that has a URL at all. */
  lemma BackgroundWatchAccepts(test: Filter, host: Host)
    requires var initial := UrlOrEmpty(host.computedBackground); initial == "" || !test(initial)
    ensures var initial := UrlOrEmpty(host.computedBackground);
      var values := host.styleNotifications;
      ProbedURL(test, host).Some? <==>
        test(initial) && exists k :: 0 <= k < |values| && GetBackgroundImageURL(values[k]).Some?
    ensures var values := host.styleNotifications;
      ProbedURL(test, host).Some? ==>
        exists k :: 0 <= k < |values| && GetBackgroundImageURL(values[k]) == ProbedURL(test, host) &&
          forall j :: 0 <= j < k ==> GetBackgroundImageURL(values[j]).None?
  {
    var initial := UrlOrEmpty(host.computedBackground);
    var values := host.styleNotifications;
    var pred := StylePredicate(initial, test);
    match FirstAccepted(values, pred)
    case None =>
      if test(initial) {
        forall k | 0 <= k < |values| ensures GetBackgroundImageURL(values[k]).None? {
          assert pred(values[k]).None?;
        }
      }
    case Some(found) =>
      var k := found.0;
      assert pred(values[k]) == Some(found.1);
      assert test(initial) && GetBackgroundImageURL(values[k]) == Some(found.1);
      forall j | 0 <= j < k ensures GetBackgroundImageURL(values[j]).None? {
        assert pred(values[j]).None?;
      }
  }

  /** The stale-filter consequence: when the URL read before the watch is
      non-empty but rejected by the filter, the `style` predicate can never
      accept, so the detection stays pending whatever the style becomes. */
  lemma RejectedStartNeverSettles(element: Element, test: Filter, host: Host)
    requires UrlOrEmpty(host.computedBackground) != "" && !test(UrlOrEmpty(host.computedBackground))
    ensures ProbedURL(test, host) == None
    ensures BackgroundImageLoadedSpec(element, test, host) == Pending
  {
    BackgroundWatchAccepts(test, host);
  }

  /** The stale-filter consequence for an element with no background image at
      first: the predicate tests the filter on `""`, so a filter that rejects
      `""` keeps the detection pending whatever URL the style later gets. */
  lemma EmptyStartNeedsFilterOfEmpty(element: Element, test: Filter, host: Host)
    requires UrlOrEmpty(host.computedBackground) == "" && !test("")
    ensures ProbedURL(test, host) == None
    ensures BackgroundImageLoadedSpec(element, test, host) == Pending
  {
    BackgroundWatchAccepts(test, host);
  }

  /** No background at first, a filter for `.png`, then the style becomes
      `url("a.png")`: the filter is tested on `""`, not on `a.png`, so the
      detection stays pending. */
  lemma PngAfterNoneStaysPending(element: Element, host: Host)
    requires host.computedBackground == Text("")
    requires host.styleNotifications == [Text("url(\"a.png\")")]
    ensures BackgroundImageLoadedSpec(element, EndsWithPng, host) == Pending
  {
    AbsentValues();
    EmptyStartNeedsFilterOfEmpty(element, EndsWithPng, host);
  }

  /** The URL probed is never empty, and the detection resolves with the
      element it was given, never with the surrogate image. */
  lemma BackgroundProbeAndResult(element: Element, test: Filter, host: Host)
    ensures ProbedURL(test, host).Some? ==> ProbedURL(test, host).value != ""
    ensures BackgroundImageLoadedSpec(element, test, host).Resolved? ==>
              BackgroundImageLoadedSpec(element, test, host).value == element
  {
    var initial := UrlOrEmpty(host.computedBackground);
    if !(initial != "" && test(initial)) {
      var found := FirstAccepted(host.styleNotifications, StylePredicate(initial, test));
      if found.Some? {
        assert StylePredicate(initial, test)(host.styleNotifications[found.value.0]) == Some(found.value.1);
      }
    }
  }

  /** `/\.png$/.test(s)` */
  predicate EndsWithPng(s: string)
  {
    |s| >= 4 && s[|s| - 4..] == ".png"
  }

  /** `url("icon.svg")` to begin with, a filter for `.png`, then the style
      changes to `url("icon.png")`: because the predicate re-tests the old
      URL, the change is not accepted and the detection stays pending. */
  lemma PngAfterSvgStaysPending(element: Element, host: Host)
    requires host.computedBackground == Text("url(\"icon.svg\")")
    requires host.styleNotifications == [Text("url(\"icon.png\")")]
    ensures BackgroundImageLoadedSpec(element, EndsWithPng, host) == Pending
  {
    var test: Filter := EndsWithPng;
    ExtractWrapped("icon.svg");
    assert Prefix + "icon.svg" + Suffix == "url(\"icon.svg\")";
    assert UrlOrEmpty(host.computedBackground) == "icon.svg";
    assert "icon.svg"[4..] != ".png" by { assert "icon.svg"[5] != ".png"[1]; }
    RejectedStartNeverSettles(element, test, host);
  }
}
