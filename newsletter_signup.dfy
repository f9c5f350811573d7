/**
 * The newsletter box: an email field and a Subscribe button that, once a
 * subscription has gone through, give way to a thank-you panel for good.
 */
module NewsletterSignup {
  import opened JsString

  /** The submit guard: the email is not empty once trimmed. */
  predicate Accepts(email: string)
  {
    Trim(email) != ""
  }

  /** An email is accepted exactly when it holds something other than white
      space and line terminators. */
  lemma AcceptsIffNotBlank(email: string)
    ensures Accepts(email) <==> !IsBlank(email)
  {
    TrimEmptyIffBlank(email);
  }

  /** What the box shows: the thank-you panel, or the form with the email as
      typed and a button that is disabled, and relabelled, while a
      subscription is under way. */
  datatype View =
    | Welcome
    | Form(email: string, buttonLabel: string, buttonEnabled: bool)

  class Signup {
    var email: string
    var isSubmitting: bool
    var isSubscribed: bool

    constructor ()
      ensures email == "" && !isSubmitting && !isSubscribed
    {
      email := "";
      isSubmitting := false;
      isSubscribed := false;
    }

    /** The email field's `onChange`. */
    method SetEmail(value: string)
      modifies this
      ensures email == value
      ensures isSubmitting == old(isSubmitting) && isSubscribed == old(isSubscribed)
    {
      email := value;
    }

    /** `handleSubmit` up to the wait: a blank email changes nothing;
        otherwise the box turns to submitting. */
    method BeginSubmit() returns (accepted: bool)
      modifies this
      ensures accepted <==> Accepts(old(email))
      ensures !accepted ==> isSubmitting == old(isSubmitting)
      ensures accepted ==> isSubmitting
      ensures email == old(email) && isSubscribed == old(isSubscribed)
    {
      if !Accepts(email) {
        return false;
      }
      isSubmitting := true;
      accepted := true;
    }

    /** `handleSubmit` after the wait: subscribed, the field cleared and the
        box no longer submitting. */
    method CompleteSubmit()
      modifies this
      ensures isSubscribed && email == "" && !isSubmitting
      ensures Render() == Welcome
    {
      isSubscribed := true;
      email := "";
      isSubmitting := false;
    }

    /** The thank-you panel replaces the form as soon as the reader is
        subscribed; it has no field and no button, so nothing can be
        submitted from it. */
    function Render(): (v: View)
      reads this
      ensures v.Welcome? <==> isSubscribed
      ensures v.Form? ==> v.email == email && (v.buttonEnabled <==> !isSubmitting)
      ensures v.Form? ==> (v.buttonLabel == "Subscribing..." <==> isSubmitting)
      ensures v.Form? && !isSubmitting ==> v.buttonLabel == "Subscribe"
    {
      if isSubscribed then Welcome
      else Form(email, if isSubmitting then "Subscribing..." else "Subscribe", !isSubmitting)
    }
  }
}
