/** Who made a request and who owns a provider profile never changes, and the unique indexes on both hold. */
module Identities {
  import opened Common
  import opened Wallet
  import opened Topups
  import opened ServiceRequest
  import opened Marketplace
  import opened Refunds

  ghost predicate OwnersDistinct(accounts: map<ProviderId, Account>) {
    forall p, q :: p in accounts && q in accounts && accounts[p].owner == accounts[q].owner ==> p == q
  }

  predicate SameKey(a: Request, b: Request) {
    a.clientId.Some? && a.clientId == b.clientId && a.customer == b.customer
  }

  /** At most one request of a customer for each of its client ids. */
  ghost predicate ClientIdsDistinct(listings: map<RequestId, Listing>) {
    forall i, j :: i in listings && j in listings && SameKey(listings[i].row, listings[j].row) ==> i == j
  }

  ghost predicate SameOwners(a: map<ProviderId, Account>, b: map<ProviderId, Account>) {
    a.Keys <= b.Keys && forall p :: p in a ==> b[p].owner == a[p].owner
  }

  ghost predicate SameSenders(a: map<RequestId, Listing>, b: map<RequestId, Listing>) {
    && a.Keys <= b.Keys
    && forall rid :: rid in a ==>
         b[rid].row.customer == a[rid].row.customer && b[rid].row.clientId == a[rid].row.clientId
  }

  /** Everybody known to the first database is the same person in the second. */
  ghost predicate SamePeople(a: Db, b: Db) {
    SameOwners(a.till.purse.accounts, b.till.purse.accounts) && SameSenders(a.listings, b.listings)
  }

  lemma ApplyOwners(w: Purse, e: Entry)
    requires Apply(w, e).Ok?
    ensures SameOwners(w.accounts, Apply(w, e).value.0.accounts) && Apply(w, e).value.0.accounts.Keys == w.accounts.Keys
  {
  }

  lemma OpenOwners(w: Purse, p: ProviderId, owner: UserId, welcome: int)
    requires OwnersDistinct(w.accounts) && Wallet.Open(w, p, owner, welcome).Ok?
    ensures var accounts := Wallet.Open(w, p, owner, welcome).value.accounts;
            SameOwners(w.accounts, accounts) && OwnersDistinct(accounts)
  {
    var created := w.(accounts := w.accounts[p := Account(owner, true, 0)]);
    assert OwnersDistinct(created.accounts);
    var e := Entry(p, WelcomeCredit, welcome, WelcomeKey(p));
    if welcome > 0 && Apply(created, e).Ok? {
      ApplyOwners(created, e);
    }
  }

  lemma ReceiveOwners(till: Till, m: Message)
    ensures SameOwners(till.purse.accounts, Receive(till, m).purse.accounts)
    ensures Receive(till, m).purse.accounts.Keys == till.purse.accounts.Keys
  {
  }

  lemma ExecOwners(db: Db, call: Call, now: Time)
    requires OwnersDistinct(db.till.purse.accounts)
    ensures var accounts := Exec(db, call, now).till.purse.accounts;
            SameOwners(db.till.purse.accounts, accounts) && OwnersDistinct(accounts)
  {
    hide Apply, Lock, UpsertStep, SelectStep, RejectStep, AcceptStep, TransitionStep, CancelStep, Receive;
    var w := db.till.purse;
    match call
    case CallCreateProvider(p, owner, welcome) =>
      if CreateProvider(db, p, owner, welcome).Ok? { OpenOwners(w, p, owner, welcome); }
    case CallAcceptOffer(o, _, fee, _) =>
      if Apply(w, FeeEntry(o, fee)).Ok? { ApplyOwners(w, FeeEntry(o, fee)); }
    case CallCancel(c) =>
      if c.refund.Some? && Apply(w, c.refund.value).Ok? { ApplyOwners(w, c.refund.value); }
    case CallAdjustCredit(p, amount, operation) =>
      var e := Entry(p, AdminAdjustment, amount, AdjustmentKey(operation));
      if Apply(w, e).Ok? { ApplyOwners(w, e); }
    case CallReceive(m) => ReceiveOwners(db.till, m);
    case _ =>
  }

  lemma StepSender(l: Listing, op: Op, now: Time)
    ensures Step(l, op, now).0.row.customer == l.row.customer && Step(l, op, now).0.row.clientId == l.row.clientId
  {
  }

  lemma ExecSenders(db: Db, call: Call, now: Time)
    requires ClientIdsDistinct(db.listings)
    ensures SameSenders(db.listings, Exec(db, call, now).listings) && ClientIdsDistinct(Exec(db, call, now).listings)
  {
    ExecListings(db, call, now);
    hide Exec, Step;
    var s := StepOf(db, call, now);
    if s.Some? && s.value.0 in db.listings {
      StepSender(db.listings[s.value.0], s.value.1, now);
    }
  }

  lemma {:induction false} RunPeople(db: Db, calls: seq<Timed>)
    requires OwnersDistinct(db.till.purse.accounts) && ClientIdsDistinct(db.listings)
    ensures SamePeople(db, ExecAll(db, calls))
    ensures OwnersDistinct(ExecAll(db, calls).till.purse.accounts) && ClientIdsDistinct(ExecAll(db, calls).listings)
    decreases |calls|
  {
    if calls != [] {
      var prefix, last := calls[..|calls| - 1], calls[|calls| - 1];
      RunPeople(db, prefix);
      ExecOwners(ExecAll(db, prefix), last.call, last.at);
      ExecSenders(ExecAll(db, prefix), last.call, last.at);
    }
  }

  /** In every run, whatever order the calls come in, an owner has one profile and a customer's client
      id names one request. */
  lemma {:induction false} IdentitiesAreUnique(calls: seq<Timed>)
    ensures OwnersDistinct(ExecAll(EMPTY, calls).till.purse.accounts)
    ensures ClientIdsDistinct(ExecAll(EMPTY, calls).listings)
  {
    RunPeople(EMPTY, calls);
  }
}
