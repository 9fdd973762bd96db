/**
 The provider credit wallet: an append-only ledger and the cached balances kept beside it.
 One ledger row per economic event, identified by an idempotency key.
 */
module Wallet {
  import opened Common

  type ProviderId = nat
  type RequestId = nat
  type TopupId = nat
  type UserId = nat

  /** service_offers is UNIQUE on (request, provider), so that pair identifies an offer. A match
      is identified by its offer, which service_matches declares UNIQUE. */
  datatype OfferId = OfferId(request: RequestId, provider: ProviderId)

  datatype Kind = WelcomeCredit | TopUp | MatchFee | Refund | AdminAdjustment

  /** Idempotency keys, one constructor per key builder. */
  datatype Key =
    | WelcomeKey(provider: ProviderId)
    | MatchFeeKey(offer: OfferId)
    | RefundKey(match_: OfferId)
    | TopUpKey(topup: TopupId)
    | AdjustmentKey(operation: nat)

  datatype Entry = Entry(provider: ProviderId, kind: Kind, amount: int, key: Key)

  datatype Row = Row(provider: ProviderId, kind: Kind, amount: int, balanceAfter: int, key: Key)

  datatype Account = Account(owner: UserId, active: bool, balance: int)

  datatype Purse = Purse(accounts: map<ProviderId, Account>, ledger: seq<Row>)

  datatype LedgerError = NoSuchProvider | InsufficientCredit(balance: int, needed: int) | RowForbidden | ProfileExists

  /** The table's CHECK constraints on a row's sign. */
  predicate RowAllowed(kind: Kind, amount: int) {
    match kind
    case WelcomeCredit | TopUp | Refund => amount > 0
    case MatchFee => amount < 0
    case AdminAdjustment => amount != 0
  }

  predicate Posted(ledger: seq<Row>, key: Key) {
    exists i :: 0 <= i < |ledger| && ledger[i].key == key
  }

  /** Appends one row and moves the balance by the same amount; a key already posted changes nothing. */
  function Apply(w: Purse, e: Entry): Result<(Purse, bool), LedgerError> {
    if e.provider !in w.accounts then Err(NoSuchProvider)
    else
      var account := w.accounts[e.provider];
      var next := account.balance + e.amount;
      if next < 0 then Err(InsufficientCredit(account.balance, -e.amount))
      else if !RowAllowed(e.kind, e.amount) then Err(RowForbidden)
      else if Posted(w.ledger, e.key) then Ok((w, false))
      else
        Ok((Purse(w.accounts[e.provider := account.(balance := next)],
                  w.ledger + [Row(e.provider, e.kind, e.amount, next, e.key)]), true))
  }

  /** Creates the account with a zero balance and grants the welcome credit, or changes nothing. */
  function Open(w: Purse, p: ProviderId, owner: UserId, welcome: int): Result<Purse, LedgerError> {
    if p in w.accounts || (exists q :: q in w.accounts && w.accounts[q].owner == owner) then Err(ProfileExists)
    else
      var created := w.(accounts := w.accounts[p := Account(owner, true, 0)]);
      if welcome <= 0 then Ok(created)
      else
        match Apply(created, Entry(p, WelcomeCredit, welcome, WelcomeKey(p)))
        case Ok((granted, _)) => Ok(granted)
        case Err(e) => Err(e)
  }

  /** The sum of a provider's rows: what the balance is meant to cache. */
  function Total(ledger: seq<Row>, p: ProviderId): int {
    if ledger == [] then 0
    else
      var last := ledger[|ledger| - 1];
      Total(ledger[..|ledger| - 1], p) + if last.provider == p then last.amount else 0
  }

  ghost predicate KeysDistinct(ledger: seq<Row>) {
    forall i, j :: 0 <= i < j < |ledger| ==> ledger[i].key != ledger[j].key
  }

  ghost predicate RowSound(ledger: seq<Row>, i: nat)
    requires i < |ledger|
  {
    && ledger[i].balanceAfter == Total(ledger[..i + 1], ledger[i].provider)
    && ledger[i].balanceAfter >= 0
    && RowAllowed(ledger[i].kind, ledger[i].amount)
  }

  /** Balances are sums, every row carries its prefix sum, nothing is negative, no key repeats. */
  ghost predicate Sound(w: Purse) {
    && (forall p :: p in w.accounts ==> w.accounts[p].balance == Total(w.ledger, p) && w.accounts[p].balance >= 0)
    && (forall i :: 0 <= i < |w.ledger| ==> w.ledger[i].provider in w.accounts)
    && (forall i :: 0 <= i < |w.ledger| ==> RowSound(w.ledger, i))
    && KeysDistinct(w.ledger)
  }

  lemma TotalAppend(ledger: seq<Row>, row: Row, p: ProviderId)
    ensures Total(ledger + [row], p) == Total(ledger, p) + if row.provider == p then row.amount else 0
  {
  }

  lemma {:induction false} TotalAbsent(ledger: seq<Row>, p: ProviderId)
    requires forall i :: 0 <= i < |ledger| ==> ledger[i].provider != p
    ensures Total(ledger, p) == 0
  {
    if ledger != [] {
      TotalAbsent(ledger[..|ledger| - 1], p);
    }
  }

  lemma AppendedRowSound(w: Purse, row: Row)
    requires Sound(w) && row.provider in w.accounts
    requires row.balanceAfter == w.accounts[row.provider].balance + row.amount >= 0
    requires RowAllowed(row.kind, row.amount)
    ensures forall i :: 0 <= i <= |w.ledger| ==> RowSound(w.ledger + [row], i)
  {
    var ledger := w.ledger + [row];
    forall i | 0 <= i <= |w.ledger|
      ensures RowSound(ledger, i)
    {
      if i < |w.ledger| {
        assert RowSound(w.ledger, i);
        assert ledger[..i + 1] == w.ledger[..i + 1];
      } else {
        TotalAppend(w.ledger, row, row.provider);
        assert ledger[..i + 1] == ledger;
      }
    }
  }

  lemma ApplySound(w: Purse, e: Entry)
    requires Sound(w)
    ensures Apply(w, e).Ok? ==> Sound(Apply(w, e).value.0)
  {
    if Apply(w, e).Ok? && Apply(w, e).value.1 {
      var w' := Apply(w, e).value.0;
      var row := Row(e.provider, e.kind, e.amount, w.accounts[e.provider].balance + e.amount, e.key);
      AppendedRowSound(w, row);
      forall p | p in w'.accounts
        ensures w'.accounts[p].balance == Total(w'.ledger, p)
      {
        TotalAppend(w.ledger, row, p);
      }
    }
  }

  /** What one ledger write does: exactly one row and the same movement of one balance, or nothing. */
  lemma ApplyMoves(w: Purse, e: Entry)
    requires Apply(w, e).Ok?
    ensures var (w', applied) := Apply(w, e).value;
            && applied == !Posted(w.ledger, e.key)
            && (!applied ==> w' == w)
            && w'.accounts.Keys == w.accounts.Keys
            && (forall k :: Posted(w'.ledger, k) <==> Posted(w.ledger, k) || k == e.key)
            && (forall p :: p in w.accounts ==>
                  && w'.accounts[p].owner == w.accounts[p].owner
                  && w'.accounts[p].active == w.accounts[p].active
                  && var moved := if applied && p == e.provider then e.amount else 0;
                     w'.accounts[p].balance == w.accounts[p].balance + moved)
  {
    var (w', applied) := Apply(w, e).value;
    if applied {
      forall k
        ensures Posted(w'.ledger, k) <==> Posted(w.ledger, k) || k == e.key
      {
        if Posted(w.ledger, k) {
          var i :| 0 <= i < |w.ledger| && w.ledger[i].key == k;
          assert w'.ledger[i].key == k;
        }
        assert w'.ledger[|w.ledger|].key == e.key;
      }
    }
  }

  lemma OpenSound(w: Purse, p: ProviderId, owner: UserId, welcome: int)
    requires Sound(w)
    ensures Open(w, p, owner, welcome).Ok? ==> Sound(Open(w, p, owner, welcome).value)
  {
    if Open(w, p, owner, welcome).Ok? {
      TotalAbsent(w.ledger, p);
      var created := w.(accounts := w.accounts[p := Account(owner, true, 0)]);
      assert Sound(created);
      ApplySound(created, Entry(p, WelcomeCredit, welcome, WelcomeKey(p)));
    }
  }
}
