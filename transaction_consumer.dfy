/** The transaction-event consumer: each completed, successful transaction
    moves the balance of its receiver wallet, one message after another. */
module TransactionConsumer {
  import opened WalletTypes
  import opened WalletStore

  /** The gate every message passes first. */
  predicate Accepted(e: TransactionEvent)
  {
    e.kind == "transaction_completed" && e.status == "SUCCESS"
  }

  /** What an event is worth to its receiver: a credit for the two transfer
      kinds and deposits, a debit for withdrawals, nothing otherwise. */
  function EventDelta(e: TransactionEvent): (d: int)
    ensures !Accepted(e) ==> d == 0
    ensures Accepted(e) && e.transactionType in {"P2P", "P2M", "Deposit"} ==> d == e.amount
    ensures Accepted(e) && e.transactionType == "Withdrawal" ==> d == -e.amount
    ensures e.transactionType !in {"P2P", "P2M", "Deposit", "Withdrawal"} ==> d == 0
  {
    if !Accepted(e) then 0
    else if e.transactionType == "Withdrawal" then -e.amount
    else if e.transactionType in {"P2P", "P2M", "Deposit"} then e.amount
    else 0
  }

  /** `findByIdAndUpdate(id, {$inc: {balance: delta}})`: a missing id matches
      nothing and changes nothing. */
  function Inc(ws: map<WalletId, Wallet>, id: WalletId, delta: int): (r: map<WalletId, Wallet>)
    ensures OnlyWalletChanged(ws, r, id)
    ensures id in ws ==> r[id] == ws[id].(balance := ws[id].balance + delta)
    ensures id !in ws ==> r == ws
    ensures Consistent(ws) ==> Consistent(r)
  {
    if id in ws then
      var w := ws[id].(balance := ws[id].balance + delta);
      ReplaceKeeps(ws, id, w);
      ws[id := w]
    else ws
  }

  /** One message, branch by branch as the handler takes it. */
  function ApplyEvent(ws: map<WalletId, Wallet>, e: TransactionEvent): (r: map<WalletId, Wallet>)
    ensures OnlyWalletChanged(ws, r, e.receiverWalletId)
    ensures e.receiverWalletId in ws ==>
      r[e.receiverWalletId] == ws[e.receiverWalletId].(balance := ws[e.receiverWalletId].balance + EventDelta(e))
    ensures !Accepted(e) || e.receiverWalletId !in ws ==> r == ws
    ensures Consistent(ws) ==> Consistent(r)
  {
    if !Accepted(e) then ws
    else if e.transactionType == "P2P" || e.transactionType == "P2M" then Inc(ws, e.receiverWalletId, e.amount)
    else if e.transactionType == "Deposit" then Inc(ws, e.receiverWalletId, e.amount)
    else if e.transactionType == "Withdrawal" then Inc(ws, e.receiverWalletId, -e.amount)
    else ws
  }

  /** The messages of a partition, applied in order. */
  function ApplyEvents(ws: map<WalletId, Wallet>, es: seq<TransactionEvent>): (r: map<WalletId, Wallet>)
    ensures r.Keys == ws.Keys
    ensures Consistent(ws) ==> Consistent(r)
  {
    if es == [] then ws
    else ApplyEvent(ApplyEvents(ws, es[..|es| - 1]), es[|es| - 1])
  }

  /** The sum of the deltas of the events addressed to `id`. */
  function TotalDelta(es: seq<TransactionEvent>, id: WalletId): int
  {
    if es == [] then 0
    else
      var last := es[|es| - 1];
      TotalDelta(es[..|es| - 1], id) + (if last.receiverWalletId == id then EventDelta(last) else 0)
  }

  /** `findByIdAndUpdate(id, {$inc: {balance: delta}})` on the store. */
  method IncBalance(store: Store, id: WalletId, delta: int)
    requires store.Valid()
    modifies store`wallets
    ensures store.Valid() && store.order == old(store.order)
    ensures store.wallets == Inc(old(store.wallets), id, delta)
  {
    var updated := store.FindByIdAndUpdate(id, (w: Wallet) => w.(balance := w.balance + delta));
  }

  /** The `eachMessage` handler on one decoded event. A missing receiver is a
      no-op and the consumer moves on. */
  method EachMessage(store: Store, e: TransactionEvent)
    requires store.Valid()
    modifies store`wallets
    ensures store.Valid() && store.order == old(store.order)
    ensures store.wallets == ApplyEvent(old(store.wallets), e)
  {
    if e.kind == "transaction_completed" && e.status == "SUCCESS" {
      if e.transactionType == "P2P" || e.transactionType == "P2M" {
        IncBalance(store, e.receiverWalletId, e.amount);
      } else if e.transactionType == "Deposit" {
        IncBalance(store, e.receiverWalletId, e.amount);
      } else if e.transactionType == "Withdrawal" {
        IncBalance(store, e.receiverWalletId, -e.amount);
      }
    }
  }

  /** The consumer run: every message of the sequence, in order. */
  method ConsumeAll(store: Store, events: seq<TransactionEvent>)
    requires store.Valid()
    modifies store`wallets
    ensures store.Valid() && store.order == old(store.order)
    ensures store.wallets == ApplyEvents(old(store.wallets), events)
  {
    var i := 0;
    while i < |events|
      invariant 0 <= i <= |events|
      invariant store.Valid() && store.order == old(store.order)
      invariant store.wallets == ApplyEvents(old(store.wallets), events[..i])
    {
      EachMessage(store, events[i]);
      assert events[..i + 1][..i] == events[..i];
      i := i + 1;
    }
    assert events[..i] == events;
  }

  /** After a run, a wallet's balance has moved by the sum of the deltas of
      the events addressed to it, and nothing else about it has changed. */
  lemma {:induction false} ApplyEventsBalance(ws: map<WalletId, Wallet>, es: seq<TransactionEvent>, id: WalletId)
    requires id in ws
    ensures id in ApplyEvents(ws, es)
    ensures ApplyEvents(ws, es)[id] == ws[id].(balance := ws[id].balance + TotalDelta(es, id))
  {
    if es != [] {
      ApplyEventsBalance(ws, es[..|es| - 1], id);
    }
  }

  /** Applying two runs one after the other is applying their concatenation. */
  lemma {:induction false} ApplyEventsAppend(ws: map<WalletId, Wallet>, a: seq<TransactionEvent>, b: seq<TransactionEvent>)
    ensures ApplyEvents(ws, a + b) == ApplyEvents(ApplyEvents(ws, a), b)
  {
    if b == [] {
      assert a + b == a;
    } else {
      assert (a + b)[..|a + b| - 1] == a + b[..|b| - 1];
      ApplyEventsAppend(ws, a, b[..|b| - 1]);
    }
  }

  lemma {:induction false} TotalDeltaAppend(a: seq<TransactionEvent>, b: seq<TransactionEvent>, id: WalletId)
    ensures TotalDelta(a + b, id) == TotalDelta(a, id) + TotalDelta(b, id)
  {
    if b == [] {
      assert a + b == a;
    } else {
      assert (a + b)[..|a + b| - 1] == a + b[..|b| - 1];
      TotalDeltaAppend(a, b[..|b| - 1], id);
    }
  }

  /** There is no ledger of processed transaction ids: a run delivered twice
      moves every balance twice. */
  lemma RedeliveryDoublesEffect(ws: map<WalletId, Wallet>, es: seq<TransactionEvent>, id: WalletId)
    requires id in ws
    ensures ApplyEvents(ws, es + es)[id].balance == ws[id].balance + 2 * TotalDelta(es, id)
  {
    ApplyEventsBalance(ws, es + es, id);
    TotalDeltaAppend(es, es, id);
  }

  /** A run made only of events that are filtered out or whose receiver is
      not stored leaves the collection as it was. */
  lemma {:induction false} IgnoredEventsNoEffect(ws: map<WalletId, Wallet>, es: seq<TransactionEvent>)
    requires forall i :: 0 <= i < |es| ==> !Accepted(es[i]) || es[i].receiverWalletId !in ws
    ensures ApplyEvents(ws, es) == ws
  {
    if es != [] {
      IgnoredEventsNoEffect(ws, es[..|es| - 1]);
    }
  }

  /** A withdrawal larger than the receiver's balance is applied in full, so
      the balance goes below zero. */
  lemma WithdrawalMayOverdraw(ws: map<WalletId, Wallet>, e: TransactionEvent)
    requires Accepted(e) && e.transactionType == "Withdrawal"
    requires e.receiverWalletId in ws && ws[e.receiverWalletId].balance < e.amount
    ensures ApplyEvent(ws, e)[e.receiverWalletId].balance < 0
    ensures !Solvent(ApplyEvent(ws, e))
  {
  }

  /** Only withdrawals can take a balance down, so a run without accepted
      withdrawals and with non-negative amounts keeps every balance non-negative. */
  lemma {:induction false} CreditsKeepSolvent(ws: map<WalletId, Wallet>, es: seq<TransactionEvent>)
    requires Solvent(ws)
    requires forall i :: 0 <= i < |es| ==> es[i].amount >= 0 && es[i].transactionType != "Withdrawal"
    ensures Solvent(ApplyEvents(ws, es))
  {
    if es != [] {
      CreditsKeepSolvent(ws, es[..|es| - 1]);
      assert EventDelta(es[|es| - 1]) >= 0;
    }
  }
}
