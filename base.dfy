/** Values shared by every part of the image-loaded detector: JavaScript-level
    options, the element reference, the errors a detection can fail with and
    the state of the promise a detection returns. */
module Base {

  datatype Option<+T> = None | Some(value: T)

  /** A live DOM element. Only its identity and its tag name matter to the
      detector; its changing properties (`src`, `complete`, natural size,
      computed style) are reported by the host, see `LoadDetection.Host`. */
  class Element {
    const tagName: string

    constructor (tagName: string)
      ensures this.tagName == tagName
    {
      this.tagName := tagName;
    }
  }

  /** A host value handed to the `error` listener of an image. */
  type ErrorEvent = nat

  /** The reasons a detection fails. */
  datatype Error =
    | TypeError(argument: nat)   // `Invalid arguments[<argument>]: ...`
    | LoadFailed(message: string) // `new Error("load failed: " + src)`
    | EventError(event: ErrorEvent) // the `error` event itself, propagated

  /** The notifications an image element dispatches once it has a source. */
  datatype LoadEvent = Load | LoadError(event: ErrorEvent)

  /** The state of a promise as an observer sees it once the host has
      delivered every notification it is going to deliver. */
  datatype Promise<+T> = Pending | Resolved(value: T) | Rejected(error: Error)

  /** The settled state of a promise whose only settling code is a `load`
      listener (resolving with `target`) and an `error` listener (rejecting
      with the event), each registered with `{once: true}`. */
  function FirstLoad(target: Element, events: seq<LoadEvent>): Promise<Element>
  {
    if |events| == 0 then Pending
    else match events[0]
      case Load => Resolved(target)
      case LoadError(e) => Rejected(EventError(e))
  }
}
