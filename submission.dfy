/**
 * The simulated submission of a form (`handleFormSubmit`, `showFormSuccess`,
 * `showFormError` and `createMessageContainer` in assets/js/script.js).
 *
 * The submit button and the `#formMsg` message element are objects whose
 * properties the handlers overwrite step by step. The timers the handlers
 * schedule are kept in a queue on a virtual clock; the browser's event loop
 * is the caller that picks the next timer to fire, and the value
 * `Math.random()` would return is passed in when a timer fires.
 */
module Submission {
  import opened Wrappers

  /** `CONFIG.formTimeout`: the delay standing in for the network round trip. */
  const FormTimeout: nat := 2000
  /** Delay after a success before the form is reset and the button restored. */
  const ResetDelay: nat := 1000
  /** Delay after a success before the message is hidden. */
  const HideDelay: nat := 5000
  /** A random draw above this value is a success (a 90 % success rate). */
  const FailureBelow: real := 0.1

  const SendingLabel := "Sending..."
  const ProcessingText := "Processing your request..."
  const SuccessMarkup := "\n            <strong>Success!</strong> Your request has been received. \n            We'll contact you within 24 hours to confirm.\n        "
  const ErrorMarkup := "\n            <strong>Error!</strong> Please try again or contact us directly.\n        "

  /** What a scheduled timer does when it fires. The button's label at
      submit time travels with the callbacks that give the button back. */
  datatype Callback =
    | Resolve(originalText: string)
    | RestoreButton(originalText: string)
    | HideMessage
  {
    /** Whether the callback is part of a submission still holding the button. */
    predicate HoldsButton() { !HideMessage? }
  }

  datatype Timer = Timer(due: nat, callback: Callback)

  /** Timer `k` is the one the event loop runs next: none is due earlier,
      and of those due at the same time it was scheduled first. */
  predicate IsNextDue(q: seq<Timer>, k: nat) {
    && k < |q|
    && (forall j | 0 <= j < |q| :: q[k].due <= q[j].due)
    && (forall j | 0 <= j < k :: q[k].due < q[j].due)
  }

  function RemoveAt(q: seq<Timer>, k: nat): (r: seq<Timer>)
    requires k < |q|
    ensures |r| == |q| - 1
    ensures forall j | 0 <= j < k :: r[j] == q[j]
    ensures forall j | k <= j < |r| :: r[j] == q[j + 1]
  {
    q[..k] + q[k + 1..]
  }

  /** The number of scheduled callbacks that still hold the submit button. */
  function InFlight(q: seq<Timer>): nat {
    if q == [] then 0 else (if q[0].callback.HoldsButton() then 1 else 0) + InFlight(q[1..])
  }

  lemma {:induction false} InFlightAppend(a: seq<Timer>, b: seq<Timer>)
    ensures InFlight(a + b) == InFlight(a) + InFlight(b)
  {
    if a != [] {
      assert (a + b)[1..] == a[1..] + b;
      InFlightAppend(a[1..], b);
    } else {
      assert a + b == b;
    }
  }

  lemma {:induction false} InFlightRemoveAt(q: seq<Timer>, k: nat)
    requires k < |q|
    ensures InFlight(RemoveAt(q, k)) + (if q[k].callback.HoldsButton() then 1 else 0) == InFlight(q)
  {
    if k == 0 {
      assert RemoveAt(q, 0) == q[1..];
    } else {
      assert RemoveAt(q, k)[1..] == RemoveAt(q[1..], k - 1);
      InFlightRemoveAt(q[1..], k - 1);
    }
  }

  /** The form's `button[type="submit"]`. */
  class SubmitButton {
    var disabled: bool
    var textContent: string
    var classes: set<string>

    constructor (textContent: string, classes: set<string>)
      ensures !disabled && this.textContent == textContent && this.classes == classes
    {
      disabled := false;
      this.textContent := textContent;
      this.classes := classes;
    }
  }

  /** The form's `#formMsg` element. */
  class MessageBox {
    var className: string
    var content: string
    var display: string
    var role: Option<string>
    var ariaLive: Option<string>

    constructor (className: string, content: string, display: string, role: Option<string>, ariaLive: Option<string>)
      ensures this.className == className && this.content == content && this.display == display
      ensures this.role == role && this.ariaLive == ariaLive
    {
      this.className := className;
      this.content := content;
      this.display := display;
      this.role := role;
      this.ariaLive := ariaLive;
    }
  }

  /** A form with an id and a submit button, on a virtual clock. */
  class BookingForm {
    const button: SubmitButton
    /** The form's `#formMsg`, or null while it has none. */
    var message: MessageBox?
    /** The current values of the form's controls, and the values `reset()` restores. */
    var values: seq<string>
    const defaults: seq<string>
    /** Milliseconds since the page was set up, and the timers not yet fired. */
    var now: nat
    var pending: seq<Timer>
    /** The button's label whenever no submission holds it. */
    ghost const idleLabel: string

    /** At most one submission holds the button; while it does the button is
        disabled and reads `Sending...`, and it carries the idle label to
        restore; otherwise the button is enabled and shows the idle label. */
    ghost predicate Valid()
      reads this, button, message
    {
      && (forall j | 0 <= j < |pending| :: now <= pending[j].due)
      && (forall j | 0 <= j < |pending| && pending[j].callback.HoldsButton() ::
            pending[j].callback.originalText == idleLabel)
      && InFlight(pending) <= 1
      && (button.disabled <==> InFlight(pending) == 1)
      && (button.disabled ==> button.textContent == SendingLabel && "disabled" in button.classes)
      && (!button.disabled ==> button.textContent == idleLabel)
      && (pending != [] ==> message != null)
    }

    constructor (buttonText: string, buttonClasses: set<string>, formMsg: MessageBox?, values: seq<string>, defaults: seq<string>)
      ensures Valid() && idleLabel == buttonText
      ensures fresh(button) && !button.disabled && button.textContent == buttonText && button.classes == buttonClasses
      ensures message == formMsg && this.values == values && this.defaults == defaults
      ensures now == 0 && pending == []
    {
      button := new SubmitButton(buttonText, buttonClasses);
      message := formMsg;
      this.values := values;
      this.defaults := defaults;
      now := 0;
      pending := [];
      idleLabel := buttonText;
    }

    /** `createMessageContainer`: a new `#formMsg` marked as a polite live region. */
    method CreateMessageContainer() returns (msg: MessageBox)
      requires message == null
      modifies this`message
      ensures fresh(msg) && message == msg
      ensures msg.role == Some("status") && msg.ariaLive == Some("polite")
      ensures msg.className == "" && msg.content == "" && msg.display == ""
    {
      msg := new MessageBox("", "", "", None, None);
      msg.role := Some("status");
      msg.ariaLive := Some("polite");
      message := msg;
    }

    /** `handleFormSubmit`, run when the form is submitted. The browser only
        submits through a submit button that is not disabled. */
    method Submit() returns (defaultPrevented: bool)
      requires Valid() && !button.disabled
      modifies this, button, message
      ensures Valid()
      ensures defaultPrevented
      ensures button.disabled && button.textContent == SendingLabel
      ensures button.classes == old(button.classes) + {"disabled"}
      ensures old(message) != null ==> message == old(message) && message.role == old(message.role) && message.ariaLive == old(message.ariaLive)
      ensures old(message) == null ==> fresh(message) && message.role == Some("status") && message.ariaLive == Some("polite")
      ensures message != null && message.className == "alert alert-info" && message.content == ProcessingText && message.display == "block"
      ensures pending == old(pending) + [Timer(now + FormTimeout, Resolve(old(button.textContent)))]
      ensures now == old(now) && values == old(values)
    {
      defaultPrevented := true;
      var originalText := button.textContent;
      var msg := message;
      if msg == null {
        msg := CreateMessageContainer();
      }
      button.disabled := true;
      button.textContent := SendingLabel;
      button.classes := button.classes + {"disabled"};
      msg.className := "alert alert-info";
      msg.content := ProcessingText;
      msg.display := "block";
      InFlightAppend(pending, [Timer(now + FormTimeout, Resolve(originalText))]);
      pending := pending + [Timer(now + FormTimeout, Resolve(originalText))];
    }

    /** `showFormSuccess`: the success message at once; the reset and the
        hiding are scheduled. */
    method ShowFormSuccess(originalText: string)
      requires message != null
      modifies this`pending, message
      ensures message.className == "alert alert-success" && message.content == SuccessMarkup
      ensures message.display == old(message.display) && message.role == old(message.role) && message.ariaLive == old(message.ariaLive)
      ensures pending == old(pending) + [Timer(now + ResetDelay, RestoreButton(originalText)), Timer(now + HideDelay, HideMessage)]
    {
      message.className := "alert alert-success";
      message.content := SuccessMarkup;
      pending := pending + [Timer(now + ResetDelay, RestoreButton(originalText)), Timer(now + HideDelay, HideMessage)];
    }

    /** `showFormError`: the error message, and the button given back at once
        without touching the form's values. */
    method ShowFormError(originalText: string)
      requires message != null
      modifies button, message
      ensures message.className == "alert alert-danger" && message.content == ErrorMarkup
      ensures message.display == old(message.display) && message.role == old(message.role) && message.ariaLive == old(message.ariaLive)
      ensures !button.disabled && button.textContent == originalText && button.classes == old(button.classes) - {"disabled"}
    {
      message.className := "alert alert-danger";
      message.content := ErrorMarkup;
      button.disabled := false;
      button.textContent := originalText;
      button.classes := button.classes - {"disabled"};
    }

    /** The callback `showFormSuccess` schedules after `ResetDelay`: the form's
        values go back to their defaults and the button is given back. */
    method ResetAndRestore(originalText: string)
      modifies this`values, button
      ensures values == defaults
      ensures !button.disabled && button.textContent == originalText && button.classes == old(button.classes) - {"disabled"}
    {
      values := defaults;
      button.disabled := false;
      button.textContent := originalText;
      button.classes := button.classes - {"disabled"};
    }

    /** Time passes up to `t` without any timer falling due before it. */
    method Wait(t: nat)
      requires Valid() && now <= t
      requires forall j | 0 <= j < |pending| :: t <= pending[j].due
      modifies this`now
      ensures Valid() && now == t
    {
      now := t;
    }

    /** The timer `handleFormSubmit` scheduled fires as the next one due:
        the draw `Math.random()` returns decides between `showFormSuccess`
        and `showFormError`. */
    method RunResolve(k: nat, draw: real)
      requires Valid() && IsNextDue(pending, k) && pending[k].callback.Resolve?
      requires 0.0 <= draw < 1.0
      modifies this, button, message
      ensures Valid() && now == old(pending[k].due) && values == old(values)
      ensures message == old(message) && message != null && message.display == old(message.display)
      ensures message.role == old(message.role) && message.ariaLive == old(message.ariaLive)
      ensures draw > FailureBelow ==>
        && message.className == "alert alert-success" && message.content == SuccessMarkup
        && unchanged(button)
        && pending == old(RemoveAt(pending, k)) + [Timer(now + ResetDelay, RestoreButton(old(pending[k].callback.originalText))), Timer(now + HideDelay, HideMessage)]
      ensures draw <= FailureBelow ==>
        && message.className == "alert alert-danger" && message.content == ErrorMarkup
        && !button.disabled && button.textContent == old(pending[k].callback.originalText)
        && button.classes == old(button.classes) - {"disabled"}
        && pending == old(RemoveAt(pending, k))
    {
      var originalText := pending[k].callback.originalText;
      InFlightRemoveAt(pending, k);
      now := pending[k].due;
      pending := RemoveAt(pending, k);
      var success := draw > FailureBelow;
      if success {
        var scheduled := [Timer(now + ResetDelay, RestoreButton(originalText)), Timer(now + HideDelay, HideMessage)];
        assert InFlight(scheduled) == 1 by {
          assert scheduled[1..] == [scheduled[1]] && scheduled[1..][1..] == [];
          assert InFlight(scheduled[1..]) == 0;
        }
        InFlightAppend(pending, scheduled);
        ShowFormSuccess(originalText);
      } else {
        ShowFormError(originalText);
      }
    }

    /** The reset timer `showFormSuccess` scheduled fires as the next one due. */
    method RunRestore(k: nat)
      requires Valid() && IsNextDue(pending, k) && pending[k].callback.RestoreButton?
      modifies this, button
      ensures Valid() && now == old(pending[k].due) && message == old(message)
      ensures values == defaults && pending == old(RemoveAt(pending, k))
      ensures !button.disabled && button.textContent == old(pending[k].callback.originalText)
      ensures button.classes == old(button.classes) - {"disabled"}
    {
      var originalText := pending[k].callback.originalText;
      InFlightRemoveAt(pending, k);
      now := pending[k].due;
      pending := RemoveAt(pending, k);
      ResetAndRestore(originalText);
    }

    /** The hide timer `showFormSuccess` scheduled fires as the next one due. */
    method RunHide(k: nat)
      requires Valid() && IsNextDue(pending, k) && pending[k].callback.HideMessage?
      modifies this, message
      ensures Valid() && now == old(pending[k].due) && message == old(message) && message != null
      ensures message.display == "none" && message.className == old(message.className) && message.content == old(message.content)
      ensures message.role == old(message.role) && message.ariaLive == old(message.ariaLive)
      ensures values == old(values) && pending == old(RemoveAt(pending, k))
    {
      InFlightRemoveAt(pending, k);
      now := pending[k].due;
      pending := RemoveAt(pending, k);
      message.display := "none";
    }
  }

  /** A submission that succeeds: the button reads `Sending...`, stays
      disabled when the success message appears at 2000 ms, is given back
      with its label and the form reset at 3000 ms, and the message is hidden
      at 7000 ms. */
  method SuccessfulSubmission(buttonText: string, buttonClasses: set<string>, values: seq<string>, defaults: seq<string>, draw: real)
    returns (sendingLabel: string, disabledOnSuccess: bool, successClass: string,
             restoredLabel: string, restoredClasses: set<string>, restoredAt: nat, valuesAfterReset: seq<string>,
             hiddenAt: nat, finalDisplay: string, role: Option<string>)
    requires FailureBelow < draw < 1.0
    ensures sendingLabel == SendingLabel
    ensures disabledOnSuccess && successClass == "alert alert-success"
    ensures restoredLabel == buttonText && restoredClasses == buttonClasses - {"disabled"}
    ensures restoredAt == FormTimeout + ResetDelay && valuesAfterReset == defaults
    ensures hiddenAt == FormTimeout + HideDelay && finalDisplay == "none"
    ensures role == Some("status")
  {
    var form := new BookingForm(buttonText, buttonClasses, null, values, defaults);
    var _ := form.Submit();
    sendingLabel := form.button.textContent;
    form.RunResolve(0, draw);
    disabledOnSuccess := form.button.disabled;
    successClass := form.message.className;
    form.RunRestore(0);
    restoredLabel := form.button.textContent;
    restoredClasses := form.button.classes;
    restoredAt := form.now;
    valuesAfterReset := form.values;
    form.RunHide(0);
    hiddenAt := form.now;
    finalDisplay := form.message.display;
    role := form.message.role;
  }

  /** A submission that fails: at 2000 ms the error message shows, the button
      is enabled again with its label, the form keeps its values, and no
      timer is left. An existing `#formMsg` is reused as it is. */
  method FailedSubmission(buttonText: string, buttonClasses: set<string>, values: seq<string>, defaults: seq<string>, draw: real)
    returns (errorClass: string, display: string, enabled: bool, restoredLabel: string,
             valuesAfter: seq<string>, settledAt: nat, timersLeft: nat, role: Option<string>)
    requires 0.0 <= draw <= FailureBelow
    ensures errorClass == "alert alert-danger" && display == "block"
    ensures enabled && restoredLabel == buttonText && valuesAfter == values
    ensures settledAt == FormTimeout && timersLeft == 0
    ensures role == None
  {
    var msg := new MessageBox("", "", "none", None, None);
    var form := new BookingForm(buttonText, buttonClasses, msg, values, defaults);
    var _ := form.Submit();
    form.RunResolve(0, draw);
    errorClass := form.message.className;
    display := form.message.display;
    enabled := !form.button.disabled;
    restoredLabel := form.button.textContent;
    valuesAfter := form.values;
    settledAt := form.now;
    timersLeft := |form.pending|;
    role := form.message.role;
  }

  /** Timers are never cancelled: after a success, a second submission at
      4000 ms that fails at 6000 ms has its error message hidden at 7000 ms
      by the hide timer the first success scheduled. */
  method StaleHideAfterResubmit(buttonText: string, values: seq<string>, first: real, second: real)
    returns (classAtHide: string, displayAtHide: string, hiddenAt: nat, enabled: bool)
    requires FailureBelow < first < 1.0 && 0.0 <= second <= FailureBelow
    ensures classAtHide == "alert alert-danger" && displayAtHide == "none"
    ensures hiddenAt == FormTimeout + HideDelay && enabled
  {
    var form := new BookingForm(buttonText, {}, null, values, values);
    SucceedAndRestore(form, first);
    form.Wait(4000);
    ResubmitAndFail(form, second);
    form.RunHide(0);
    classAtHide := form.message.className;
    displayAtHide := form.message.display;
    hiddenAt := form.now;
    enabled := !form.button.disabled;
  }

  /** First stage of `StaleHideAfterResubmit`: an idle form is submitted,
      succeeds, and is given back, leaving only its hide timer. */
  method SucceedAndRestore(form: BookingForm, draw: real)
    requires form.Valid() && form.pending == [] && form.now == 0 && !form.button.disabled
    requires FailureBelow < draw < 1.0
    modifies form, form.button, form.message
    ensures form.Valid() && form.now == FormTimeout + ResetDelay && !form.button.disabled
    ensures form.pending == [Timer(FormTimeout + HideDelay, HideMessage)]
    ensures old(form.message) == null ==> fresh(form.message)
    ensures old(form.message) != null ==> form.message == old(form.message)
  {
    var prevented := form.Submit();
    assert form.pending == [Timer(FormTimeout, Resolve(form.idleLabel))];
    form.RunResolve(0, draw);
    form.RunRestore(0);
  }

  /** Second stage of `StaleHideAfterResubmit`: the form is submitted again at
      4000 ms and fails at 6000 ms, before the old hide timer is due. */
  method ResubmitAndFail(form: BookingForm, draw: real)
    requires form.Valid() && form.now == 4000 && !form.button.disabled && form.message != null
    requires form.pending == [Timer(FormTimeout + HideDelay, HideMessage)]
    requires 0.0 <= draw <= FailureBelow
    modifies form, form.button, form.message
    ensures form.Valid() && form.now == 4000 + FormTimeout && !form.button.disabled
    ensures form.pending == [Timer(FormTimeout + HideDelay, HideMessage)]
    ensures form.message == old(form.message) && form.message.className == "alert alert-danger"
  {
    var prevented := form.Submit();
    assert form.pending == [Timer(FormTimeout + HideDelay, HideMessage), Timer(4000 + FormTimeout, Resolve(form.idleLabel))];
    form.RunResolve(1, draw);
  }
}
