/**
 * The `revenuecat-webhook` edge function: the check on `app_user_id` and the mapping from
 * a RevenueCat event type to the subscription status written to the user's profile.
 */
module RevenueCat {
  import opened Common

  /** The event types that grant the subscription. */
  predicate IsPremiumEvent(t: string) {
    t == "INITIAL_PURCHASE" || t == "RENEWAL" || t == "PRODUCT_CHANGE"
  }

  /** The event types that end it. */
  predicate IsCancelEvent(t: string) {
    t == "CANCELLATION" || t == "EXPIRATION"
  }

  predicate IsTrialEvent(t: string) {
    t == "TRIAL_STARTED"
  }

  /** Every status the webhook writes. */
  predicate IsStatus(s: string) {
    s == "premium" || s == "cancelled" || s == "trialing" || s == "free"
  }

  /**
   * `subscriptionStatus`: "free" unless the event type is one of the six recognised names;
   * each status is chosen by exactly its own event types, and an absent type gives "free".
   */
  function SubscriptionStatus(eventType: Option<string>): (s: string)
    ensures IsStatus(s)
    ensures s == "premium" <==> eventType.Some? && IsPremiumEvent(eventType.value)
    ensures s == "cancelled" <==> eventType.Some? && IsCancelEvent(eventType.value)
    ensures s == "trialing" <==> eventType.Some? && IsTrialEvent(eventType.value)
    ensures s == "free" <==> (eventType.None? ||
      !(IsPremiumEvent(eventType.value) || IsCancelEvent(eventType.value) || IsTrialEvent(eventType.value)))
  {
    if eventType.Some? && IsPremiumEvent(eventType.value) then "premium"
    else if eventType.Some? && IsCancelEvent(eventType.value) then "cancelled"
    else if eventType.Some? && IsTrialEvent(eventType.value) then "trialing"
    else "free"
  }

  /** What the webhook does: reject the event, or write a status to one profile. */
  datatype WebhookOutcome =
    | BadRequest(error: string)
    | UpdateProfile(userId: string, subscriptionStatus: string)

  /** The handler up to the profile update; an absent or non-string `app_user_id` is `None`. */
  function Webhook(appUserId: Option<string>, eventType: Option<string>): (o: WebhookOutcome)
    ensures !Truthy(appUserId) <==> o == BadRequest("app_user_id required")
    ensures Truthy(appUserId) ==> o == UpdateProfile(appUserId.value, SubscriptionStatus(eventType))
  {
    if !Truthy(appUserId) then BadRequest("app_user_id required")
    else UpdateProfile(appUserId.value, SubscriptionStatus(eventType))
  }

  /** Event types are matched exactly: any change of spelling or case falls through to "free". */
  lemma CaseMatters()
    ensures SubscriptionStatus(Some("renewal")) == "free"
    ensures SubscriptionStatus(Some("RENEWAL")) == "premium"
    ensures SubscriptionStatus(Some("")) == "free"
  {
  }
}
