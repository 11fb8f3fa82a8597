/** The review form of frontend/src/components/ReviewForm.jsx: the star
    rating (0 while none is chosen) and comment the form holds, the guards
    before the request, the error message shown on failure, and the reset
    after success. */
module ReviewForm {
  import opened Wrappers
  import opened Text
  import ReviewRoutes

  /** What `handleSubmit` does before any request. */
  datatype SubmitStep = LoginFirst | NeedRating | NeedComment | Send(rating: int, comment: string)

  /** The guards run in order: signed in, a rating chosen, a comment that is
      not blank; the comment is sent trimmed. */
  function Submit(authenticated: bool, rating: int, comment: string): (r: SubmitStep)
    ensures !authenticated ==> r == LoginFirst
    ensures authenticated && rating == 0 ==> r == NeedRating
    ensures authenticated && rating != 0 && IsBlank(comment) ==> r == NeedComment
    ensures r.Send? <==> authenticated && rating != 0 && !IsBlank(comment)
    ensures r.Send? ==> r.rating == rating && r.comment == Trim(comment) && r.comment != ""
  {
    if !authenticated then LoginFirst
    else if rating == 0 then NeedRating
    else if Trim(comment) == "" then NeedComment
    else Send(rating, Trim(comment))
  }

  /** A request the form sends with a star rating passes both input guards
      of the server, and the comment the server stores after its own trim is
      the one sent: only a missing product or an earlier review by the same
      user can still refuse it. */
  lemma SentPassesServerGuards(authenticated: bool, rating: int, comment: string)
    requires 0 <= rating <= 5
    requires Submit(authenticated, rating, comment).Send?
    ensures var s := Submit(authenticated, rating, comment);
      && !ReviewRoutes.MissingInput(Some(s.rating as real), s.comment)
      && 1.0 <= s.rating as real <= 5.0
      && Trim(s.comment) == s.comment && s.comment != ""
  {
    TrimIdempotent(comment);
  }

  /** The message shown when the request fails; `status` is
      `error.response?.status` and `serverMessage` the body's message, ""
      when absent. */
  method ErrorMessage(status: Option<int>, serverMessage: string) returns (message: string)
    ensures status == Some(400) && serverMessage != "" ==> message == serverMessage
    ensures status == Some(400) && serverMessage == "" ==> message == "You have already reviewed this product"
    ensures status == Some(401) ==> message == "Please login again"
    ensures status == Some(404) ==> message == "Product not found"
    ensures status !in {Some(400), Some(401), Some(404)} ==> message == "Failed to submit review"
    ensures message != ""
  {
    message := "Failed to submit review";
    if status == Some(400) {
      message := if serverMessage != "" then serverMessage else "You have already reviewed this product";
    } else if status == Some(401) {
      message := "Please login again";
    } else if status == Some(404) {
      message := "Product not found";
    }
  }

  /** The form's state. */
  class FormState {
    var rating: int
    var comment: string
    var submitting: bool

    constructor()
      ensures rating == 0 && comment == "" && !submitting
    {
      rating := 0;
      comment := "";
      submitting := false;
    }

    /** The stars offer 1 to 5, so the rating stays in 0..5. */
    predicate Valid()
      reads this
    {
      0 <= rating <= 5
    }

    /** `disabled={submitting || rating === 0 || !comment.trim()}`. */
    predicate Disabled()
      reads this
    {
      submitting || rating == 0 || IsBlank(comment)
    }

    /** Clicking a star. */
    method Choose(star: int)
      requires 1 <= star <= 5
      modifies this
      ensures rating == star && comment == old(comment) && submitting == old(submitting)
      ensures Valid()
    {
      rating := star;
    }

    /** Typing in the comment box. */
    method Type(text: string)
      modifies this
      ensures comment == text && rating == old(rating) && submitting == old(submitting)
    {
      comment := text;
    }

    /** The start of `handleSubmit`: the guards run on the current rating
        and comment; only a request that is sent marks the form as
        submitting, and nothing else changes. */
    method Start(authenticated: bool) returns (step: SubmitStep)
      modifies this
      ensures step == Submit(authenticated, old(rating), old(comment))
      ensures submitting == (step.Send? || old(submitting))
      ensures rating == old(rating) && comment == old(comment)
      ensures old(Valid()) ==> Valid()
    {
      step := Submit(authenticated, rating, comment);
      if step.Send? {
        submitting := true;
      }
    }

    /** The request's end: on success the form is reset; either way it is no
        longer submitting. */
    method Finish(succeeded: bool)
      modifies this
      ensures !submitting
      ensures succeeded ==> rating == 0 && comment == ""
      ensures !succeeded ==> rating == old(rating) && comment == old(comment)
      ensures old(Valid()) ==> Valid()
    {
      if succeeded {
        rating := 0;
        comment := "";
      }
      submitting := false;
    }
  }

  /** For a signed-in user the button is enabled exactly when submitting
      would send, unless a request is already running. */
  lemma DisabledMatchesGuards(f: FormState)
    ensures !f.submitting ==> (f.Disabled() <==> !Submit(true, f.rating, f.comment).Send?)
  {
  }
}
