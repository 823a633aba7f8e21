/**
 * The global confirmation dialog: one shared state record.  `confirm`
 * fills the four texts (each falling back to a default when its option is
 * falsy), shows the dialog and parks the resolver of a new Promise in the
 * state; `onConfirm` and `onCancel` hide the dialog and answer the parked
 * resolver with true or false.
 *
 * A Promise is represented by the number of the `confirm` call that created
 * it; the parked resolver is the slot `resolve`, and an answer says which
 * request receives which boolean.
 */
module ConfirmDialog {
  import opened Wrappers

  /** The argument of `confirm`; `None` is a property left `undefined` or `null`. */
  datatype ConfirmOptions = ConfirmOptions(
    title: Option<string>, message: Option<string>,
    confirmText: Option<string>, cancelText: Option<string>)

  /** The reactive `state`, plus the number of Promises handed out so far. */
  datatype Dialog = Dialog(
    show: bool, title: string, message: string,
    confirmText: string, cancelText: string,
    resolve: Option<nat>, issued: nat)

  /** Request `request` is resolved with `value`. */
  datatype Answer = Answer(request: nat, value: bool)

  /** `confirm`'s result: the new state and the request its Promise stands for. */
  datatype Opened = Opened(dialog: Dialog, request: nat)

  /** The result of a button press: the new state and the answer delivered, if any. */
  datatype Closed = Closed(dialog: Dialog, answer: Option<Answer>)

  const DefaultTitle: string := "Confirm Action"
  const DefaultMessage: string := "Are you sure?"
  const DefaultConfirmText: string := "Confirm"
  const DefaultCancelText: string := "Cancel"

  /** The state when the module is loaded: hidden, no resolver parked. */
  const Initial: Dialog := Dialog(false, "", "", "Confirm", "Cancel", None, 0)

  /** JavaScript `option || fallback` for a string-valued option: `undefined`,
      `null` and the empty string are falsy. */
  function OrDefault(option: Option<string>, fallback: string): (s: string)
    ensures option.Some? && option.value != "" ==> s == option.value
    ensures option.None? || option.value == "" ==> s == fallback
  {
    match option
    case Some(v) => if v != "" then v else fallback
    case None => fallback
  }

  /** `confirm(options)`. */
  function Confirm(d: Dialog, o: ConfirmOptions): (r: Opened)
    ensures r.dialog.show
    ensures r.dialog.title == (if o.title.Some? && o.title.value != "" then o.title.value else "Confirm Action")
    ensures r.dialog.message == (if o.message.Some? && o.message.value != "" then o.message.value else "Are you sure?")
    ensures r.dialog.confirmText == (if o.confirmText.Some? && o.confirmText.value != "" then o.confirmText.value else "Confirm")
    ensures r.dialog.cancelText == (if o.cancelText.Some? && o.cancelText.value != "" then o.cancelText.value else "Cancel")
    ensures r.dialog.resolve == Some(r.request)
    ensures r.request == d.issued && r.dialog.issued == d.issued + 1
  {
    var request := d.issued;
    Opened(
      Dialog(true,
             OrDefault(o.title, DefaultTitle),
             OrDefault(o.message, DefaultMessage),
             OrDefault(o.confirmText, DefaultConfirmText),
             OrDefault(o.cancelText, DefaultCancelText),
             Some(request), d.issued + 1),
      request)
  }

  /** Shared body of the two buttons: hide, then answer the parked resolver. */
  function Close(d: Dialog, value: bool): (r: Closed)
    ensures !r.dialog.show
    ensures r.dialog == d.(show := false)
    ensures d.resolve.None? ==> r.answer.None?
    ensures d.resolve.Some? ==> r.answer == Some(Answer(d.resolve.value, value))
  {
    var answer := match d.resolve
      case Some(request) => Some(Answer(request, value))
      case None => None;
    Closed(d.(show := false), answer)
  }

  /** `onConfirm`. */
  function OnConfirm(d: Dialog): (r: Closed)
    ensures !r.dialog.show
    ensures r.dialog == d.(show := false)
    ensures r.answer.Some? <==> d.resolve.Some?
    ensures d.resolve.Some? ==> r.answer == Some(Answer(d.resolve.value, true))
  {
    Close(d, true)
  }

  /** `onCancel`. */
  function OnCancel(d: Dialog): (r: Closed)
    ensures !r.dialog.show
    ensures r.dialog == d.(show := false)
    ensures r.answer.Some? <==> d.resolve.Some?
    ensures d.resolve.Some? ==> r.answer == Some(Answer(d.resolve.value, false))
  {
    Close(d, false)
  }

  // ---------------------------------------------------------------------------
  // Properties across calls
  // ---------------------------------------------------------------------------

  /** A truthy option is shown as given; an empty one falls back, unlike a
      JavaScript default parameter which only replaces `undefined`. */
  lemma EmptyOptionFallsBack(o: ConfirmOptions)
    requires o.title == Some("") && o.message == Some("")
    ensures Confirm(Initial, o).dialog.title == DefaultTitle
    ensures Confirm(Initial, o).dialog.message == DefaultMessage
  {
  }

  /** Neither button touches the four texts, nor the parked resolver. */
  lemma ButtonsKeepTexts(d: Dialog, value: bool)
    ensures var e := Close(d, value).dialog;
            e.title == d.title && e.message == d.message
            && e.confirmText == d.confirmText && e.cancelText == d.cancelText
            && e.resolve == d.resolve
  {
  }

  /** Pressing a button right after `confirm` answers that very request. */
  lemma ConfirmThenAnswer(d: Dialog, o: ConfirmOptions, value: bool)
    ensures var op := Confirm(d, o);
            Close(op.dialog, value).answer == Some(Answer(op.request, value))
  {
  }

  /** A second `confirm` replaces the parked resolver: its request is new, and
      a later press answers only the newer request. */
  lemma SecondConfirmSupersedes(d: Dialog, o1: ConfirmOptions, o2: ConfirmOptions, value: bool)
    ensures var first := Confirm(d, o1);
            var second := Confirm(first.dialog, o2);
            && second.request != first.request
            && Close(second.dialog, value).answer == Some(Answer(second.request, value))
  {
  }

  /** Before any `confirm`, the buttons only hide the dialog. */
  lemma NoResolverOnlyHides(value: bool)
    ensures Close(Initial, value) == Closed(Initial, None)
  {
  }

  /** The resolver is not cleared after an answer, so a second press answers
      the same request again (a settled Promise ignores it). */
  lemma SecondPressSameRequest(d: Dialog, first: bool, second: bool)
    ensures var c1 := Close(d, first);
            var c2 := Close(c1.dialog, second);
            c1.answer.Some? ==> c2.answer == Some(Answer(c1.answer.value.request, second))
  {
  }

  // ---------------------------------------------------------------------------
  // Histories of calls
  // ---------------------------------------------------------------------------

  /** A call into the dialog: `confirm(options)`, or a button press. */
  datatype Event = Open(options: ConfirmOptions) | Press(value: bool)

  /** One event: `confirm` delivers nothing, a press is `Close`. */
  function Step(d: Dialog, e: Event): Closed
  {
    match e
    case Open(o) => Closed(Confirm(d, o).dialog, None)
    case Press(v) => Close(d, v)
  }

  /** What each event of a history delivers, in order. */
  function Replay(d: Dialog, events: seq<Event>): (outs: seq<Option<Answer>>)
    ensures |outs| == |events|
    decreases |events|
  {
    if |events| == 0 then []
    else
      var c := Step(d, events[0]);
      [c.answer] + Replay(c.dialog, events[1..])
  }

  function CountOpens(events: seq<Event>): nat
  {
    if |events| == 0 then 0 else (if events[0].Open? then 1 else 0) + CountOpens(events[1..])
  }

  /** The request a press answers after `events`, computed without running
      the dialog: the newest `confirm` among them, else what was parked. */
  function Pending(d: Dialog, events: seq<Event>): Option<nat>
  {
    var n := CountOpens(events);
    if n == 0 then d.resolve else Some(d.issued + n - 1)
  }

  /** Every press answers the newest request opened so far, with the button's
      value, and nothing else ever answers: superseded Promises stay pending. */
  lemma {:induction false} ReplayAnswersNewest(d: Dialog, events: seq<Event>)
    ensures forall i :: 0 <= i < |events| ==>
              Replay(d, events)[i]
              == if events[i].Press? && Pending(d, events[..i]).Some?
                 then Some(Answer(Pending(d, events[..i]).value, events[i].value))
                 else None
    decreases |events|
  {
    if |events| > 0 {
      var d' := Step(d, events[0]).dialog;
      ReplayAnswersNewest(d', events[1..]);
      forall i | 1 <= i < |events|
        ensures Pending(d, events[..i]) == Pending(d', events[1..][..i - 1])
      {
        assert events[..i][1..] == events[1..][..i - 1];
        assert events[..i][0] == events[0];
      }
      assert events[..0] == [];
    }
  }
}
