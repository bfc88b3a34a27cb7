/** The one-shot attribute watcher, `watchAttribute`, and its promise form,
    `watchAttributeP`. A notification stands for one batch of mutation
    records delivered by the host; its value is what the element's property
    reads when the batch is handled (the watcher reads `element[name]`, not
    the record). A predicate result of `None` is a falsy return value. */
module AttributeWatch {
  import opened Base

  /** The observable effects of a watcher, in the order they happen. */
  datatype WatchEffect<V, R> =
    | Changed(value: V)   // `onChange` was called with the value
    | Disconnected        // `mo.disconnect()`
    | Fired(result: R)    // the completion callback was called with the result

  /** What `watchAttributeP` resolves with. */
  datatype WatchResult<E, R> = WatchResult(target: E, name: string, value: R)

  /** The first notification the predicate accepts: its index and the
      predicate's result. */
  function FirstAccepted<V, R>(values: seq<V>, onChange: V -> Option<R>): (r: Option<(nat, R)>)
    ensures r.Some? ==> r.value.0 < |values| && onChange(values[r.value.0]) == Some(r.value.1)
    ensures r.Some? ==> forall j :: 0 <= j < r.value.0 ==> onChange(values[j]).None?
    ensures r.None? ==> forall j :: 0 <= j < |values| ==> onChange(values[j]).None?
  {
    if |values| == 0 then None
    else match onChange(values[0])
      case Some(x) => Some((0, x))
      case None =>
        match FirstAccepted(values[1..], onChange)
        case None => None
        case Some(found) => Some((found.0 + 1, found.1))
  }

  /** One `onChange` call per value, in order. */
  function Calls<V, R>(values: seq<V>): (t: seq<WatchEffect<V, R>>)
  {
    seq(|values|, i requires 0 <= i < |values| => Changed(values[i]))
  }

  /** The effects a connected watcher produces when `values` are delivered:
      `onChange` on each value up to and including the first accepted one,
      then the disconnect, then the callback with the accepted result. */
  function WatchTrace<V, R>(values: seq<V>, onChange: V -> Option<R>): seq<WatchEffect<V, R>>
  {
    match FirstAccepted(values, onChange)
    case None => Calls(values)
    case Some(found) => Calls(values[..found.0 + 1]) + [Disconnected, Fired(found.1)]
  }

  function FiredCount<V, R>(t: seq<WatchEffect<V, R>>): nat
  {
    if |t| == 0 then 0 else (if t[0].Fired? then 1 else 0) + FiredCount(t[1..])
  }

  lemma {:induction false} CallsFireNothing<V, R>(values: seq<V>)
    ensures FiredCount(Calls<V, R>(values)) == 0
  {
    if |values| > 0 {
      assert Calls<V, R>(values)[1..] == Calls<V, R>(values[1..]);
      CallsFireNothing<V, R>(values[1..]);
    }
  }

  lemma {:induction false} FiredCountAppend<V, R>(a: seq<WatchEffect<V, R>>, b: seq<WatchEffect<V, R>>)
    ensures FiredCount(a + b) == FiredCount(a) + FiredCount(b)
  {
    if |a| > 0 {
      assert (a + b)[1..] == a[1..] + b;
      FiredCountAppend(a[1..], b);
    } else {
      assert a + b == b;
    }
  }

  /** The callback fires exactly once if some value is accepted and never
      otherwise; when it fires it is the last effect, it comes right after
      the disconnect, and it carries the first accepted result. */
  lemma WatchTraceFiresOnce<V, R>(values: seq<V>, onChange: V -> Option<R>)
    ensures var t := WatchTrace(values, onChange);
      FiredCount(t) == (if FirstAccepted(values, onChange).Some? then 1 else 0)
    ensures var t := WatchTrace(values, onChange);
      forall i :: 0 <= i < |t| && t[i].Fired? ==>
        i == |t| - 1 && 1 <= i && t[i - 1] == Disconnected &&
        Some((FirstAccepted(values, onChange).value.0, t[i].result)) == FirstAccepted(values, onChange)
  {
    match FirstAccepted(values, onChange)
    case None =>
      CallsFireNothing<V, R>(values);
    case Some(found) =>
      var k, r := found.0, found.1;
      CallsFireNothing<V, R>(values[..k + 1]);
      var tail: seq<WatchEffect<V, R>> := [Disconnected, Fired(r)];
      FiredCountAppend(Calls<V, R>(values[..k + 1]), tail);
      assert FiredCount(tail) == 1 by {
        assert tail[1..] == [Fired(r)];
        assert tail[1..][1..] == [];
        assert FiredCount(tail[1..]) == 1;
      }
  }

  /** `onChange` sees the values in delivery order, up to and including the
      first accepted one, and none after it; with no acceptance it sees them
      all and the watch stays live. */
  lemma WatchTraceCalls<V, R>(values: seq<V>, onChange: V -> Option<R>)
    ensures var t := WatchTrace(values, onChange);
      match FirstAccepted(values, onChange)
      case None => |t| == |values| && forall i :: 0 <= i < |t| ==> t[i] == Changed(values[i])
      case Some(found) =>
        var k := found.0;
        |t| == k + 3 && (forall i :: 0 <= i <= k ==> t[i] == Changed(values[i])) &&
        t[k + 1] == Disconnected && t[k + 2] == Fired(onChange(values[k]).value)
  {
  }

  /** Delivering one more value to a watch that has accepted nothing so far. */
  lemma FirstAcceptedSnoc<V, R>(values: seq<V>, i: nat, onChange: V -> Option<R>)
    requires i < |values|
    ensures FirstAccepted(values[..i + 1], onChange) ==
            match FirstAccepted(values[..i], onChange)
            case Some(x) => Some(x)
            case None => match onChange(values[i]) case Some(r) => Some((i, r)) case None => None
  {
    var longer := FirstAccepted(values[..i + 1], onChange);
    var shorter := FirstAccepted(values[..i], onChange);
    assert forall j :: 0 <= j < i ==> values[..i + 1][j] == values[..i][j];
    if shorter.Some? {
      assert longer.Some?;
      assert longer.value.0 == shorter.value.0;
    } else if longer.Some? {
      assert longer.value.0 == i;
    }
  }

  /** The observer behind `watchAttribute`: connected from construction until
      the first value `onChange` accepts. */
  class AttributeWatcher<E, V, R> {
    const target: E
    const attrName: string
    const onChange: V -> Option<R>
    var connected: bool
    var trace: seq<WatchEffect<V, R>>

    /** `new MutationObserver(...)` followed by `mo.observe(element, ...)`. */
    constructor (target: E, attrName: string, onChange: V -> Option<R>)
      ensures this.target == target && this.attrName == attrName && this.onChange == onChange
      ensures connected && trace == []
    {
      this.target := target;
      this.attrName := attrName;
      this.onChange := onChange;
      connected := true;
      trace := [];
    }

    /** One notification batch, whose attribute now reads `value`. A
        disconnected observer receives nothing. */
    method Notify(value: V)
      modifies this
      ensures !old(connected) ==> !connected && trace == old(trace)
      ensures old(connected) && onChange(value).None? ==>
                connected && trace == old(trace) + [Changed(value)]
      ensures old(connected) && onChange(value).Some? ==>
                !connected && trace == old(trace) + [Changed(value), Disconnected, Fired(onChange(value).value)]
    {
      if connected {
        trace := trace + [Changed(value)];
        var result := onChange(value);
        if result.Some? {
          connected := false;
          trace := trace + [Disconnected];
          trace := trace + [Fired(result.value)];
        }
      }
    }

    /** The host delivering `values`, one notification each. */
    method Deliver(values: seq<V>)
      modifies this
      ensures connected == (old(connected) && FirstAccepted(values, onChange).None?)
      ensures trace == old(trace) + (if old(connected) then WatchTrace(values, onChange) else [])
    {
      var i := 0;
      while i < |values|
        invariant 0 <= i <= |values|
        invariant connected == (old(connected) && FirstAccepted(values[..i], onChange).None?)
        invariant trace == old(trace) + (if old(connected) then WatchTrace(values[..i], onChange) else [])
      {
        FirstAcceptedSnoc(values, i, onChange);
        assert Calls<V, R>(values[..i + 1]) == Calls<V, R>(values[..i]) + [Changed(values[i])];
        if FirstAccepted(values[..i], onChange).Some? {
          var k := FirstAccepted(values[..i], onChange).value.0;
          assert values[..i + 1][..k + 1] == values[..i][..k + 1];
        } else if onChange(values[i]).Some? {
          assert values[..i + 1][..i + 1] == values[..i + 1];
        }
        Notify(values[i]);
        i := i + 1;
      }
      assert values[..i] == values;
    }
  }

  /** `watchAttributeP`: a promise resolving with `{target, name, value}` when
      the first value is accepted, `value` being the predicate's result. It
      never rejects. */
  method WatchAttributeP<E, V, R>(element: E, attrName: string, onChange: V -> Option<R>, notifications: seq<V>)
    returns (p: Promise<WatchResult<E, R>>)
    ensures !p.Rejected?
    ensures p.Pending? <==> FirstAccepted(notifications, onChange).None?
    ensures p.Resolved? ==>
              p.value == WatchResult(element, attrName, FirstAccepted(notifications, onChange).value.1)
  {
    var watcher := new AttributeWatcher(element, attrName, onChange);
    watcher.Deliver(notifications);
    if watcher.connected {
      p := Pending;
    } else {
      WatchTraceCalls(notifications, onChange);
      var fired := watcher.trace[|watcher.trace| - 1];
      p := Resolved(WatchResult(element, attrName, fired.result));
    }
  }
}
