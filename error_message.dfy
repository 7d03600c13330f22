/**
 * The ErrorMessage component: a red banner with the message, an optional
 * Retry button, and an error toast guarded by one boolean ref, so that a
 * toast fires at most once until Retry clears the flag.
 */
module ErrorMessage {

  /** What the component renders: nothing, or the banner with or without a Retry button. */
  datatype Banner = Nothing | Shown(message: string, retryButton: bool)

  /** The render result: an empty message renders nothing. */
  function RenderBanner(message: string, hasRetry: bool): (r: Banner)
    ensures r == Nothing <==> message == ""
    ensures r.Shown? ==> r.message == message && (r.retryButton <==> hasRetry)
  {
    if message == "" then Nothing else Shown(message, hasRetry)
  }

  class ErrorToast {
    /** The `message` prop. */
    var message: string
    /** Whether an `onRetry` prop was passed. */
    const hasRetry: bool
    /** The `toastShown` ref. */
    var toastShown: bool
    /** Every `toast.error` call so far, in order. */
    var toasts: seq<string>
    /** How many toasts had fired when Retry was last clicked (0 before any). */
    ghost var toastsAtRetry: nat

    /** At most one toast since the last retry, and the flag says whether there was one. */
    ghost predicate Valid()
      reads this
    {
      toastsAtRetry <= |toasts| &&
      |toasts| - toastsAtRetry == (if toastShown then 1 else 0)
    }

    /** The effect body: toast once if there is a message and no toast was shown yet. */
    method ToastOnce()
      requires Valid()
      modifies this`toastShown, this`toasts
      ensures Valid()
      ensures message != "" && !old(toastShown) ==> toasts == old(toasts) + [message] && toastShown
      ensures message == "" || old(toastShown) ==> toasts == old(toasts) && toastShown == old(toastShown)
    {
      if message != "" && !toastShown {
        toasts := toasts + [message];
        toastShown := true;
      }
    }

    /** Mount: the ref starts clear and the effect runs once. */
    constructor (message: string, hasRetry: bool)
      ensures Valid() && this.message == message && this.hasRetry == hasRetry
      ensures toasts == (if message != "" then [message] else [])
      ensures toastShown <==> message != ""
    {
      this.message := message;
      this.hasRetry := hasRetry;
      toastShown := false;
      toasts := [];
      toastsAtRetry := 0;
      new;
      ToastOnce();
    }

    /** A re-render with a (possibly new) message: the effect runs only if the message changed. */
    method Rerender(newMessage: string)
      requires Valid()
      modifies this`message, this`toastShown, this`toasts
      ensures Valid() && message == newMessage
      ensures newMessage != old(message) && newMessage != "" && !old(toastShown) ==>
                toasts == old(toasts) + [newMessage] && toastShown
      ensures newMessage == old(message) || newMessage == "" || old(toastShown) ==>
                toasts == old(toasts) && toastShown == old(toastShown)
    {
      var changed := newMessage != message;
      message := newMessage;
      if changed {
        ToastOnce();
      }
    }

    /** The Retry button (rendered only with an onRetry prop): clear the flag, then call onRetry. */
    method Retry()
      requires Valid() && hasRetry && message != ""
      modifies this`toastShown, this`toastsAtRetry
      ensures Valid() && !toastShown
      ensures toastsAtRetry == |toasts|
    {
      toastShown := false;
      toastsAtRetry := |toasts|;
    }

    function Render(): Banner
      reads this
    {
      RenderBanner(message, hasRetry)
    }
  }
}
