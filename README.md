# image-loaded-promise, modelled in Dafny

`awaitImageLoaded(element, re = /.?/)` returns a promise. The promise resolves with `element` once its image has loaded. For an `<img>` that is the element's own `src`. For any other element it is the URL of its CSS `background-image`. When the source is missing, or the filter `re` rejects it, the library first watches the element's `src` or `style` attribute. It uses a one-shot `MutationObserver` (`watchAttribute`) until an acceptable value shows up, and only then waits for the load.

The project models the whole of `index.mjs`, as five modules:

- `Base` (base.dfy): the shared types.
  - `Element` is a class, because identity matters: a detection resolves with the element it was given, never with a surrogate.
  - `Promise` is `Pending | Resolved | Rejected`, the state a promise is left in once the host has delivered everything.
  - `Error` holds the three kinds of failure.
  - `FirstLoad` is the settlement made by a pair of `{once: true}` `load`/`error` listeners.
- `BackgroundUrl` (background_url.dfy): `hasBackgroundImageValue` and `getBackgroundImageURL`.
  - The fixed pattern `^(url\(")(.+)("\))$` is modelled as the regex engine runs it. The greedy `.+` stops at the first line terminator, then backtracks until `")` followed by the end of input matches.
  - That matcher is proved equal to the declarative description: `url("` + m + `")`, with m non-empty and free of line terminators.
- `AttributeWatch` (attribute_watch.dfy): `watchAttribute` is the class `AttributeWatcher`.
  - It has a `connected` flag and a trace of its effects: each `onChange` call, the disconnect, the callback.
  - `Notify` handles one notification batch. `Deliver` is a loop over batches.
  - `watchAttributeP` is a method returning the promise.
  - A falsy predicate result is `None`.
- `LoadDetection` (load_detection.dfy): `imgLoaded` and `backgroundImageLoaded`.
  - Each is a method that steps through host notifications.
  - Each is proved equal to a function of what the host reports (`ImgLoadedSpec`, `ProbedURL`, `BackgroundImageLoadedSpec`). The lemmas about those functions state what the code promises.
- `ImageLoaded` (image_loaded.dfy): `awaitImageLoaded`, which checks its arguments and routes.

The host is an input, the record `LoadDetection.Host`. It holds:
- the element's live properties when a detector starts and when it resumes;
- the values read at each mutation notification;
- the load events of the element;
- the computed `background-image`;
- the load events that a fresh image given a certain source would dispatch.

The caller's `RegExp` is an opaque pure predicate `string -> bool`. The default `/.?/` is `_ => true`: it matches every string, `""` included.

The background predicate at `index.mjs:92` tests the filter against `str_imageURL`. While the watch runs, that variable still holds the URL read before the watch began. The predicate never tests the URL it has just extracted, and the model keeps this behaviour as written. Three lemmas show its consequences:
- `RejectedStartNeverSettles`: a non-empty start URL that the filter rejects blocks the detection forever.
- `EmptyStartNeedsFilterOfEmpty`: with a filter that rejects `""`, an element with no background image at the start never settles, whatever URL its style later gets.
- `DefaultFilterBackgroundTakesFirstUrl`: with a filter that accepts `""`, such as the default, an empty start URL lets through the first URL that appears, whether or not the filter accepts that URL.

Two concrete cases use the filter `/\.png$/`:
- `PngAfterSvgStaysPending`: the start is `url("icon.svg")` and the style then changes to `url("icon.png")`. The code does not probe `icon.png`; the detection stays pending.
- `PngAfterNoneStaysPending`: there is no background image at the start and the style then becomes `url("a.png")`. The detection stays pending.

`/.?/` also matches `""`, so with the default filter a `src` notified as empty is accepted: `DefaultFilterAcceptsEmptySrcChange`.

## Model

| member | source | states |
|---|---|---|
| BackgroundUrl.GetBackgroundImageURL | index.mjs:133-139 | a URL it returns is non-empty, comes from a value that passes `hasBackgroundImageValue`, and is exactly the text between `url("` and `")`, with no line terminator |
| BackgroundUrl.MatchUrlPatternExact | index.mjs:137-138 | the regex match gives back `m` if and only if the value is `url("` + m + `")` with m non-empty and without line terminators |
| BackgroundUrl.GetBackgroundImageURLExact | index.mjs:133-139 | `getBackgroundImageURL` returns `m` if and only if the value is the string `url("` + m + `")` with m non-empty and single-line; every other value gives null |
| BackgroundUrl.ExtractWrapped | index.mjs:133-139 | round trip: extracting from `url("` + m + `")` gives back m for every non-empty single-line m |
| BackgroundUrl.AbsentValues | index.mjs:120-136 | a non-string, `""` and `none` give null |
| BackgroundUrl.GuardIsRedundantForStrings | index.mjs:133-138 | for strings the `hasBackgroundImageValue` guard never changes the result: the pattern alone already rejects `""` and `none` |
| BackgroundUrl.Samples | index.mjs:137-138 | `url("x.png")` gives `x.png`; `url("")`, `url('x.png')` and `url(x.png)` give null |
| AttributeWatch.FirstAccepted | index.mjs:158-165 | the first notified value the predicate accepts, with its result: every earlier value is rejected, and with no result every value is rejected |
| AttributeWatch.AttributeWatcher.constructor | index.mjs:157-170 | a new watcher is connected and has produced no effect |
| AttributeWatch.AttributeWatcher.Notify | index.mjs:158-166 | a connected watcher calls `onChange` once with the value; a falsy result keeps it connected; a truthy result disconnects and then fires the callback with that result; a disconnected watcher does nothing |
| AttributeWatch.AttributeWatcher.Deliver | index.mjs:158-166 | after a stream of notifications the watcher is connected if and only if nothing was accepted, and its effects are exactly `WatchTrace` of the stream |
| AttributeWatch.WatchTraceFiresOnce | index.mjs:162-165 | the callback fires once if some value is accepted and never otherwise; it is the last effect, right after the disconnect, and carries the first accepted result |
| AttributeWatch.WatchTraceCalls | index.mjs:158-165 | `onChange` sees the values in order, up to and including the first accepted one and none after it, then the disconnect and the callback follow |
| AttributeWatch.WatchAttributeP | index.mjs:188-198 | never rejects; stays pending if and only if no value is accepted; otherwise resolves with `{target: element, name: attrName, value: <accepted result>}` |
| LoadDetection.ListenLoad | index.mjs:61-68 | the first `load` resolves with the target and the first `error` rejects with the event, whichever comes first; with no event the promise stays pending; later events change nothing |
| LoadDetection.ImgLoaded | index.mjs:43-69 | the method's result equals `ImgLoadedSpec`: the `src` watch, then the `complete` check or the listeners |
| LoadDetection.BackgroundImageLoaded | index.mjs:84-107 | the URL loaded into the throwaway image is `ProbedURL`, and the result equals `BackgroundImageLoadedSpec`: the URL read or watched for, then the surrogate's first load event |
| LoadDetection.ImgNoWatchWhenAcceptable | index.mjs:45-59 | with a non-empty `src` that the filter accepts, no watch is set up: the outcome is the `complete` check on the image as it is, whatever notifications follow |
| LoadDetection.SrcWatchAcceptsFirstMatch | index.mjs:46-48 | the `src` watch accepts the first notified value the filter matches, with the result `true`, and accepts nothing if the filter matches none |
| LoadDetection.ImgWaitsForAcceptedSrc | index.mjs:45-52 | with an empty or rejected `src`: pending while no notified value passes the filter; otherwise on to the `complete` check with the image as it reports itself on resuming |
| LoadDetection.ImgFastPath | index.mjs:52-59 | a completed image resolves with itself if and only if both natural dimensions are non-zero, and otherwise rejects with `load failed: <src>`; load events play no part |
| LoadDetection.ImgListenerPath | index.mjs:61-68 | an image still loading settles by its first `load` (resolve with the image) or `error` (reject with the event) only |
| LoadDetection.ImgResolvesWithImg | index.mjs:55-63 | `imgLoaded` resolves only with the image it was given |
| LoadDetection.ImgScenarioSrcSetLater | index.mjs:43-69 | an image without `src` that gets `photo.jpg` and then loads resolves with the image |
| LoadDetection.BackgroundNoWatchWhenAcceptable | index.mjs:85-89 | a computed background whose URL is non-empty and accepted is probed at once, whatever `style` notifications follow |
| LoadDetection.BackgroundWatchAccepts | index.mjs:89-94 | otherwise a URL is probed if and only if the filter accepts the pre-watch URL and some notified style carries a URL; that URL is the one from the first notified style that has a URL |
| LoadDetection.RejectedStartNeverSettles | index.mjs:89-93 | a non-empty pre-watch URL that the filter rejects keeps the detection pending forever |
| LoadDetection.EmptyStartNeedsFilterOfEmpty | index.mjs:86-93 | with no URL at the start and a filter that rejects `""`, the detection stays pending whatever the style becomes |
| LoadDetection.PngAfterNoneStaysPending | index.mjs:86-93 | with no background at the start and a `.png` filter, a change to `url("a.png")` leaves the detection pending |
| LoadDetection.BackgroundProbeAndResult | index.mjs:94-105 | the probed URL is never empty, and success resolves with the original element, not the surrogate |
| LoadDetection.PngAfterSvgStaysPending | index.mjs:86-93 | starting at `url("icon.svg")` with a `.png` filter, a change to `url("icon.png")` leaves the detection pending |
| ImageLoaded.AwaitImageLoaded | index.mjs:19-29 | a non-`HTMLElement` throws `TypeError` for argument 0 before the filter is looked at; a non-`RegExp` filter throws for argument 1; otherwise it returns the `imgLoaded` promise for tag `IMG` and the `backgroundImageLoaded` promise for any other tag, with `/.?/` when the filter is omitted |
| ImageLoaded.DefaultFilterWatchesOnlyEmptySrc | index.mjs:45-49 | with the default filter an image waits for `src` if and only if it has none |
| ImageLoaded.DefaultFilterLoadedImage | index.mjs:52-55 | with the default filter, an image that has a source and has loaded with a non-zero size resolves at once with itself, whatever notifications or events follow |
| ImageLoaded.DefaultFilterBackgroundTakesFirstUrl | index.mjs:89-94 | with the default filter and no URL at first, the first notified style that carries a URL is probed |
| ImageLoaded.DefaultFilterAcceptsEmptySrcChange | index.mjs:45-49 | the default filter accepts a `src` notified as `""`, so detection goes on to the `complete` check |

## Left out

- `MutationObserver` delivery is an input. One notification stands for one batch of records. Its value is what the element's property reads when the batch is handled, so values that changed within a batch are never seen.
- The `this` binding of `onChange` and of the callback is not modelled. The element as receiver has no effect here.
- An `onChange` that throws is not modelled: predicates are pure and total.
- The JavaScript regular-expression engine is left out, and the caller's filter is an opaque pure predicate. A `RegExp` with the `g` or `y` flag, whose `test` is stateful through `lastIndex`, is not modelled. Only the fixed `url("...")` pattern is modelled concretely.
- Host services are inputs in `LoadDetection.Host`: `getComputedStyle`, the live properties of the element (`src` read as a string, `complete`, `naturalWidth`, `naturalHeight`), `document.createElement`, and the fetch and decode of an image. The surrogate image's events are `probeEvents` of the URL it is given.
- Promise and event-loop scheduling is not modelled. Awaiting is consuming the next item of a sequence, and a promise is observed once the host has delivered everything.
- The text of the `TypeError` messages is not modelled, because it embeds the JavaScript stringification of the argument. The error records which argument was bad.
- JavaScript strings are sequences of UTF-16 code units, whereas these strings are sequences of Unicode scalar values. Lone surrogates cannot be represented.
- dev.js (build and minification) is not part of this model.
