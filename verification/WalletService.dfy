/** The wallet's webhook handler, on top of the repository. */
module WalletService {
  import opened Common
  import opened Wallet
  import opened Topups
  import opened LocalServices

  class Service {
    const repo: LocalServiceRepository

    constructor (repo: LocalServiceRepository)
      ensures this.repo == repo
    {
      this.repo := repo;
    }

    method TopupFor(intent: string, topupRef: Option<TopupId>) returns (found: Option<TopupId>)
      requires IntentsUnique(repo.topups)
      ensures found == FindTopup(repo.topups, intent, topupRef)
    {
      if intent != "" {
        if id :| id in repo.topups && repo.topups[id].intent == Some(intent) {
          return Some(id);
        }
      }
      return if topupRef.Some? && topupRef.value in repo.topups then topupRef else None;
    }

    /** One webhook: look the top-up up, check the payment against it, then commit. */
    method HandlePaymentWebhook(ev: Webhook)
      requires IntentsUnique(repo.topups)
      modifies repo
      ensures IntentsUnique(repo.topups) && repo.listings == old(repo.listings)
      ensures repo.State().till ==
              var decision := Decide(old(repo.topups), ev);
              if decision.Some? then Receive(old(repo.State().till), decision.value) else old(repo.State().till)
    {
      ghost var till := repo.State().till;
      match ev {
        case Succeeded(intent, confirmed, topupRef, provider, amount, currency) =>
          if !confirmed {
            return;
          }
          var found := TopupFor(intent, topupRef);
          if found.None? {
            return;
          }
          var t := repo.topups[found.value];
          if !PaymentAgrees(t, intent, amount, currency) || (provider.Some? && provider.value != t.provider) {
            return;
          }
          var _ := repo.MarkTopupPaid(found.value, intent, amount, currency);
          ReceiveIntentsUnique(till, Pay(found.value, intent, amount, currency));
        case PaymentFailed(intent, topupRef) =>
          var found := TopupFor(intent, topupRef);
          if found.Some? {
            repo.MarkTopup(found.value, TopupFailed);
          }
        case PaymentCanceled(intent, topupRef) =>
          var found := TopupFor(intent, topupRef);
          if found.Some? {
            repo.MarkTopup(found.value, TopupExpired);
          }
        case ChargeRefunded(intent, refunded) =>
          if intent == "" || !refunded {
            return;
          }
          var _ := repo.MarkTopupRefundedByPaymentIntent(intent);
          ReceiveIntentsUnique(till, RefundIntent(intent));
      }
    }
  }
}
