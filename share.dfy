/** The "Share to Channel" control attached to a private summary
    (main.py:13-37). Activating it posts the summary card publicly, disables
    the button and replaces the private card with a confirmation; if
    anything raises, the requester is told privately instead. The handler
    never reads `disabled` itself: a second post is prevented only because
    the platform does not deliver clicks on a button it shows as disabled,
    or on a control whose 300-second timeout has passed. That guarantee is
    the precondition of ShareSummary. */
module Share {
  import opened Wrappers
  import opened Summarise

  const SharedTitle: string := "✅ Summary Shared!"
  const SharedDescription: string := "Your summary has been posted to the channel."
  const ShareFailurePrefix: string := "❌ " + "Failed to share summary: "

  /** The confirmation card the private message shows after a share. */
  function SharedEmbed(): Embed
  {
    Embed(SharedTitle, SharedDescription, None)
  }

  function ShareFailureText(error: string): string
  {
    ShareFailurePrefix + error
  }

  class ShareSummaryView {
    /** The summary card this control publishes. */
    const summaryEmbed: Embed
    /** The button's `disabled` attribute, as the handler's object holds it. */
    var disabled: bool
    /** Whether the 300-second timeout has passed. */
    var expired: bool
    /** The cards this control has posted to the channel, oldest first. */
    var posts: seq<Embed>
    /** The card the requester's private message currently shows, and
        whether the button shown with it is disabled. */
    var card: Embed
    var cardDisabled: bool
    /** Private failure messages sent to the requester, oldest first. */
    var notices: seq<string>

    /** Every post is the summary; the flag is set exactly when something
        was posted; the private message shows a disabled button only beside
        the confirmation card, and shows the summary otherwise. */
    ghost predicate Valid()
      reads this
    {
      (forall k :: 0 <= k < |posts| ==> posts[k] == summaryEmbed) &&
      (disabled <==> |posts| >= 1) &&
      (cardDisabled ==> disabled && card == SharedEmbed()) &&
      (!cardDisabled ==> card == summaryEmbed)
    }

    /** The platform delivers a click only to a button it shows enabled,
        before the timeout. */
    predicate Armed()
      reads this
    {
      !cardDisabled && !expired
    }

    constructor (summary: Embed)
      ensures Valid() && Armed()
      ensures summaryEmbed == summary && card == summary
      ensures !disabled && !cardDisabled && !expired
      ensures posts == [] && notices == []
    {
      summaryEmbed := summary;
      disabled := false;
      expired := false;
      posts := [];
      card := summary;
      cardDisabled := false;
      notices := [];
    }

    /** One click on "Share to Channel". `post` is how sending the summary
        to the channel ended, `edit` how replacing the private message
        ended (it is attempted only after a delivered post). */
    method ShareSummary(post: Delivery, edit: Delivery)
      requires Valid() && Armed()
      modifies this
      ensures Valid()
      ensures expired == old(expired)
      ensures post.Raised? ==>
        disabled == old(disabled) && posts == old(posts) &&
        card == old(card) && cardDisabled == old(cardDisabled) &&
        notices == old(notices) + [ShareFailureText(post.error)]
      ensures post.Delivered? ==> posts == old(posts) + [summaryEmbed] && disabled
      ensures post.Delivered? && edit.Delivered? ==>
        card == SharedEmbed() && cardDisabled && notices == old(notices) && !Armed()
      ensures post.Delivered? && edit.Raised? ==>
        card == old(card) && cardDisabled == old(cardDisabled) &&
        notices == old(notices) + [ShareFailureText(edit.error)]
    {
      match post {
        case Raised(e) =>
          notices := notices + [ShareFailureText(e)];
        case Delivered =>
          posts := posts + [summaryEmbed];
          var confirmation := SharedEmbed();
          disabled := true;
          match edit {
            case Delivered =>
              card, cardDisabled := confirmation, disabled;
            case Raised(e) =>
              notices := notices + [ShareFailureText(e)];
          }
      }
    }

    /** The timeout passes: the control is inert from then on. */
    method Expire()
      requires Valid()
      modifies this`expired
      ensures Valid() && expired && !Armed()
    {
      expired := true;
    }
  }

  /** A share that succeeds from a fresh control posts the summary exactly
      once and leaves nothing to click. */
  method ShareOnce(summary: Embed) returns (posted: seq<Embed>, shown: Embed, armed: bool)
    ensures posted == [summary]
    ensures shown == SharedEmbed()
    ensures !armed
  {
    var view := new ShareSummaryView(summary);
    view.ShareSummary(Delivered, Delivered);
    posted, shown, armed := view.posts, view.card, view.Armed();
  }

  /** A failed post changes nothing but the private failure message; the
      button stays live and a later click can still share. */
  method FailedPostThenRetry(summary: Embed, error: string)
    returns (notices: seq<string>, postedAfterFailure: seq<Embed>, postedAfterRetry: seq<Embed>)
    ensures notices == [ShareFailureText(error)]
    ensures postedAfterFailure == []
    ensures postedAfterRetry == [summary]
  {
    var view := new ShareSummaryView(summary);
    view.ShareSummary(Raised(error), Delivered);
    notices, postedAfterFailure := view.notices, view.posts;
    view.ShareSummary(Delivered, Delivered);
    postedAfterRetry := view.posts;
  }

  /** When the confirmation edit raises after the post went out, the
      requester is told the share failed, the button is still shown
      enabled, and a second click posts the summary a second time: the
      at-most-once guarantee rests on the edit succeeding. */
  method FailedEditAllowsSecondPost(summary: Embed, error: string)
    returns (notices: seq<string>, posted: seq<Embed>)
    ensures notices == [ShareFailureText(error)]
    ensures posted == [summary, summary]
  {
    var view := new ShareSummaryView(summary);
    view.ShareSummary(Delivered, Raised(error));
    notices := view.notices;
    view.ShareSummary(Delivered, Delivered);
    posted := view.posts;
  }

  /** Once the timeout has passed, no click is delivered. */
  method ExpiredIsInert(summary: Embed) returns (armed: bool, posted: seq<Embed>)
    ensures !armed && posted == []
  {
    var view := new ShareSummaryView(summary);
    view.Expire();
    armed, posted := view.Armed(), view.posts;
  }
}
