/**
 * The toast notification queue: one shared list of toasts and a counter
 * that hands out ids.  `addToast` takes the next id and appends a toast,
 * scheduling its removal when its duration is positive; `removeToast`
 * deletes the first toast carrying an id, if any.
 */
module Toasts {
  import opened Wrappers

  /** The argument object of `addToast`; `None` is a property left `undefined`. */
  datatype ToastOptions = ToastOptions(message: string, kind: Option<string>, duration: Option<int>)

  /** One notification; `duration` is in milliseconds, and 0 means it stays. */
  datatype Toast = Toast(id: nat, message: string, kind: string, duration: int)

  /** The module-level state: `idCounter` and the `toasts` list. */
  datatype Queue = Queue(counter: nat, list: seq<Toast>)

  /** A pending `setTimeout` that will call `removeToast(toastId)` after `delay` ms. */
  datatype Timer = Timer(toastId: nat, delay: int)

  /** What `addToast` leaves behind: the new state and the timer it started, if any. */
  datatype Added = Added(queue: Queue, timer: Option<Timer>)

  /** The user's request to the queue, or a timer firing. */
  datatype Event = Add(options: ToastOptions) | Remove(id: int)

  const DefaultKind: string := "info"
  const DefaultDuration: int := 3000

  /** The state when the module is loaded. */
  const Initial: Queue := Queue(0, [])

  /** Ids are below the counter and strictly increasing along the list. */
  predicate Valid(q: Queue)
  {
    && (forall i :: 0 <= i < |q.list| ==> q.list[i].id < q.counter)
    && (forall i, j :: 0 <= i < j < |q.list| ==> q.list[i].id < q.list[j].id)
  }

  /** `addToast`. */
  function AddToast(q: Queue, o: ToastOptions): (a: Added)
    ensures a.queue.counter == q.counter + 1
    ensures |a.queue.list| == |q.list| + 1 && a.queue.list[..|q.list|] == q.list
    ensures a.queue.list[|q.list|].id == q.counter
    ensures a.queue.list[|q.list|].message == o.message
    ensures a.queue.list[|q.list|].kind == (if o.kind.None? then "info" else o.kind.value)
    ensures a.queue.list[|q.list|].duration == (if o.duration.None? then 3000 else o.duration.value)
    ensures a.timer.Some? <==> a.queue.list[|q.list|].duration > 0
    ensures a.timer.Some? ==> a.timer.value.toastId == q.counter
    ensures a.timer.Some? ==> a.timer.value.delay == a.queue.list[|q.list|].duration
  {
    var kind := match o.kind case Some(k) => k case None => DefaultKind;
    var duration := match o.duration case Some(d) => d case None => DefaultDuration;
    var toast := Toast(q.counter, o.message, kind, duration);
    var timer := if duration > 0 then Some(Timer(toast.id, duration)) else None;
    Added(Queue(q.counter + 1, q.list + [toast]), timer)
  }

  /** `Array.prototype.findIndex` for `t.id === id`: the first match, or -1. */
  function FindIndex(list: seq<Toast>, id: int): (k: int)
    ensures -1 <= k < |list|
    ensures k == -1 <==> forall i :: 0 <= i < |list| ==> list[i].id != id
    ensures k >= 0 ==> list[k].id == id && forall i :: 0 <= i < k ==> list[i].id != id
  {
    if |list| == 0 then -1
    else if list[0].id == id then 0
    else
      var k := FindIndex(list[1..], id);
      if k == -1 then -1 else k + 1
  }

  /** `removeToast`: splice out the first toast with this id, if there is one. */
  function RemoveToast(q: Queue, id: int): (q': Queue)
    ensures q'.counter == q.counter
    ensures (forall i :: 0 <= i < |q.list| ==> q.list[i].id != id) ==> q' == q
    ensures (exists i :: 0 <= i < |q.list| && q.list[i].id == id) ==> |q'.list| == |q.list| - 1
  {
    var k := FindIndex(q.list, id);
    if k == -1 then q else Queue(q.counter, q.list[..k] + q.list[k + 1..])
  }

  /** Replay a history of additions, dismissals and timer expiries. */
  function Run(q: Queue, events: seq<Event>): Queue
    decreases |events|
  {
    if |events| == 0 then q
    else
      var next := match events[0]
        case Add(o) => AddToast(q, o).queue
        case Remove(id) => RemoveToast(q, id);
      Run(next, events[1..])
  }

  // ---------------------------------------------------------------------------
  // Reference behaviour of removal and the id invariant
  // ---------------------------------------------------------------------------

  /** The list with every toast of this id dropped, the others kept in order. */
  function Without(list: seq<Toast>, id: int): seq<Toast>
  {
    if |list| == 0 then []
    else if list[0].id == id then Without(list[1..], id)
    else [list[0]] + Without(list[1..], id)
  }

  lemma InitialValid()
    ensures Valid(Initial)
  {
  }

  /** A new toast's id is larger than every id already in the list, and the
      invariant is kept. */
  lemma AddToastKeepsValid(q: Queue, o: ToastOptions)
    requires Valid(q)
    ensures Valid(AddToast(q, o).queue)
    ensures forall i :: 0 <= i < |q.list| ==> q.list[i].id < AddToast(q, o).queue.list[|q.list|].id
  {
  }

  /** In a valid queue no two toasts share an id. */
  lemma ValidIdsDistinct(q: Queue)
    requires Valid(q)
    ensures forall i, j :: 0 <= i < |q.list| && 0 <= j < |q.list| && i != j ==> q.list[i].id != q.list[j].id
  {
  }

  /** A list with no toast of this id is its own filter. */
  lemma {:induction false} WithoutAbsent(list: seq<Toast>, id: int)
    requires forall i :: 0 <= i < |list| ==> list[i].id != id
    ensures Without(list, id) == list
  {
    if |list| > 0 {
      WithoutAbsent(list[1..], id);
    }
  }

  lemma {:induction false} WithoutConcat(a: seq<Toast>, b: seq<Toast>, id: int)
    ensures Without(a + b, id) == Without(a, id) + Without(b, id)
  {
    if |a| == 0 {
      assert a + b == b;
    } else {
      assert (a + b)[1..] == a[1..] + b;
      WithoutConcat(a[1..], b, id);
    }
  }

  /** Dropping the one toast of this id from the middle of a list. */
  lemma WithoutSplice(front: seq<Toast>, x: Toast, back: seq<Toast>, id: int)
    requires forall i :: 0 <= i < |front| ==> front[i].id != id
    requires forall i :: 0 <= i < |back| ==> back[i].id != id
    requires x.id == id
    ensures Without(front + [x] + back, id) == front + back
  {
    assert front + [x] + back == front + ([x] + back);
    WithoutConcat(front, [x] + back, id);
    assert ([x] + back)[1..] == back;
    WithoutAbsent(front, id);
    WithoutAbsent(back, id);
  }

  /** With unique ids, `removeToast` is the filter: exactly the toasts with
      that id go, the rest stay in their order. */
  lemma RemoveIsFilter(q: Queue, id: int)
    requires Valid(q)
    ensures RemoveToast(q, id).list == Without(q.list, id)
  {
    var k := FindIndex(q.list, id);
    if k == -1 {
      WithoutAbsent(q.list, id);
    } else {
      var front, back := q.list[..k], q.list[k + 1..];
      assert q.list == front + [q.list[k]] + back;
      forall i | 0 <= i < |back|
        ensures back[i].id != id
      {
        assert q.list[k].id < q.list[k + 1 + i].id;
      }
      WithoutSplice(front, q.list[k], back, id);
    }
  }

  /** Removal keeps the invariant. */
  lemma RemoveKeepsValid(q: Queue, id: int)
    requires Valid(q)
    ensures Valid(RemoveToast(q, id))
  {
  }

  /** Removing the same id a second time changes nothing: a timer that
      fires after its toast was dismissed is harmless. */
  lemma RemoveIdempotent(q: Queue, id: int)
    requires Valid(q)
    ensures RemoveToast(RemoveToast(q, id), id) == RemoveToast(q, id)
  {
  }

  /** A toast with a different id survives a removal unchanged. */
  lemma {:induction false} WithoutKeeps(list: seq<Toast>, id: int, t: Toast)
    ensures t in Without(list, id) <==> t in list && t.id != id
  {
    if |list| > 0 {
      WithoutKeeps(list[1..], id, t);
      assert list == [list[0]] + list[1..];
    }
  }

  /** Every reachable state keeps unique, increasing ids below the counter. */
  lemma {:induction false} RunKeepsValid(q: Queue, events: seq<Event>)
    requires Valid(q)
    ensures Valid(Run(q, events))
    ensures Run(q, events).counter >= q.counter
    decreases |events|
  {
    if |events| > 0 {
      match events[0]
      case Add(o) =>
        AddToastKeepsValid(q, o);
        RunKeepsValid(AddToast(q, o).queue, events[1..]);
      case Remove(id) =>
        RemoveKeepsValid(q, id);
        RunKeepsValid(RemoveToast(q, id), events[1..]);
    }
  }
}
