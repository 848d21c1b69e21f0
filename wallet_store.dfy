/** The wallet collection as the handlers and the event consumer see it: a
    map from `_id` to document, the natural order in which documents were
    inserted, the two query forms the service uses (`findOne` and `find`
    with a filter document) and the two writes (`save` of a new document,
    `findByIdAndUpdate` with `{new: true}`). */
module WalletStore {
  import opened WalletTypes

  /** The filter documents the service passes to `findOne` and `find`. */
  datatype Filter =
    | ByUserId(userId: string)                    // {userId}
    | ByCode(code: string)                        // {code: contactCode}
    | ByNameOrCode(matches: string -> bool)       // {$or: [{userName: regex}, {code: regex}]}

  predicate Satisfies(w: Wallet, f: Filter)
  {
    match f
    case ByUserId(u) => w.userId == u
    case ByCode(c) => w.code == c
    case ByNameOrCode(m) => m(w.userName) || m(w.code)
  }

  ghost predicate Distinct(ids: seq<WalletId>)
  {
    forall i, j :: 0 <= i < j < |ids| ==> ids[i] != ids[j]
  }

  /** `findOne(filter)`: the first stored document, in natural order, that
      satisfies the filter. */
  function FirstMatch(ids: seq<WalletId>, ws: map<WalletId, Wallet>, f: Filter): (r: Option<WalletId>)
    ensures r.Some? ==> r.value in ids && r.value in ws && Satisfies(ws[r.value], f)
    ensures r.None? <==> forall i :: 0 <= i < |ids| && ids[i] in ws ==> !Satisfies(ws[ids[i]], f)
    ensures r.Some? ==>
      exists k :: 0 <= k < |ids| && ids[k] == r.value && forall j :: 0 <= j < k ==> !(ids[j] in ws && Satisfies(ws[ids[j]], f))
  {
    if ids == [] then None
    else if ids[0] in ws && Satisfies(ws[ids[0]], f) then Some(ids[0])
    else
      var r := FirstMatch(ids[1..], ws, f);
      assert forall i :: 1 <= i < |ids| ==> ids[i] == ids[1..][i - 1];
      if r.Some? then
        var k :| 0 <= k < |ids[1..]| && ids[1..][k] == r.value && forall j :: 0 <= j < k ==> !(ids[1..][j] in ws && Satisfies(ws[ids[1..][j]], f));
        assert ids[k + 1] == r.value && forall j :: 0 <= j < k + 1 ==> !(ids[j] in ws && Satisfies(ws[ids[j]], f));
        r
      else r
  }

  /** `find(filter)`: every stored document that satisfies the filter, in
      natural order. */
  function Matching(ids: seq<WalletId>, ws: map<WalletId, Wallet>, f: Filter): (r: seq<WalletId>)
    ensures forall id :: id in r <==> id in ids && id in ws && Satisfies(ws[id], f)
    ensures |r| <= |ids|
    ensures Distinct(ids) ==> Distinct(r)
    ensures forall i, j :: 0 <= i < j < |r| ==> Before(ids, r[i], r[j])
  {
    if ids == [] then []
    else
      var rest := Matching(ids[1..], ws, f);
      assert forall id :: id in ids <==> id == ids[0] || id in ids[1..];
      BeforeInTail(ids);
      if ids[0] in ws && Satisfies(ws[ids[0]], f) then
        assert Distinct(ids) ==> ids[0] !in ids[1..];
        var r := [ids[0]] + rest;
        forall i, j | 0 <= i < j < |r| ensures Before(ids, r[i], r[j]) {
          if i == 0 {
            assert r[j] == rest[j - 1] && rest[j - 1] in ids[1..];
            var q :| 0 <= q < |ids[1..]| && ids[1..][q] == r[j];
            assert ids[0] == r[i] && ids[q + 1] == r[j];
          } else {
            assert Before(ids[1..], rest[i - 1], rest[j - 1]);
          }
        }
        r
      else rest
  }

  /** `a` occurs in `ids` at an earlier position than `b`. */
  ghost predicate Before(ids: seq<WalletId>, a: WalletId, b: WalletId)
  {
    exists p, q :: 0 <= p < q < |ids| && ids[p] == a && ids[q] == b
  }

  lemma BeforeInTail(ids: seq<WalletId>)
    requires ids != []
    ensures forall a, b :: Before(ids[1..], a, b) ==> Before(ids, a, b)
  {
    forall a, b | Before(ids[1..], a, b) ensures Before(ids, a, b) {
      var p, q :| 0 <= p < q < |ids[1..]| && ids[1..][p] == a && ids[1..][q] == b;
      assert ids[p + 1] == a && ids[q + 1] == b;
    }
  }

  /** `find` over two stretches of the natural order answers the matches of
      the first stretch, then those of the second. */
  lemma {:induction false} MatchingAppend(a: seq<WalletId>, b: seq<WalletId>, ws: map<WalletId, Wallet>, f: Filter)
    ensures Matching(a + b, ws, f) == Matching(a, ws, f) + Matching(b, ws, f)
  {
    if a == [] {
      assert a + b == b;
    } else {
      assert (a + b)[1..] == a[1..] + b;
      MatchingAppend(a[1..], b, ws, f);
      MatchingHead(a + b, ws, f);
    }
  }

  /** One step of `find`: the first listed id, when it matches, then the
      matches of the rest. */
  lemma MatchingHead(ids: seq<WalletId>, ws: map<WalletId, Wallet>, f: Filter)
    requires ids != []
    ensures Matching(ids, ws, f) == (if ids[0] in ws && Satisfies(ws[ids[0]], f) then [ids[0]] else []) + Matching(ids[1..], ws, f)
  {
    if !(ids[0] in ws && Satisfies(ws[ids[0]], f)) {
      assert [] + Matching(ids[1..], ws, f) == Matching(ids[1..], ws, f);
    }
  }

  /** Some stored document satisfies the filter. */
  ghost predicate AnyStored(ws: map<WalletId, Wallet>, f: Filter)
  {
    exists id :: id in ws && Satisfies(ws[id], f)
  }

  /** When every stored id is listed, `findOne` misses exactly when no
      stored document satisfies the filter. */
  lemma FirstMatchFindsStored(ids: seq<WalletId>, ws: map<WalletId, Wallet>, f: Filter)
    requires forall id :: id in ws ==> id in ids
    ensures FirstMatch(ids, ws, f).None? <==> !AnyStored(ws, f)
  {
    if AnyStored(ws, f) {
      var id :| id in ws && Satisfies(ws[id], f);
      var i :| 0 <= i < |ids| && ids[i] == id;
    }
  }

  /** One wallet per user. */
  ghost predicate UniqueUsers(ws: map<WalletId, Wallet>)
  {
    forall a, b :: a in ws && b in ws && ws[a].userId == ws[b].userId ==> a == b
  }

  /** No wallet lists the same contact code twice. */
  ghost predicate ContactsDistinct(ws: map<WalletId, Wallet>)
  {
    forall id :: id in ws ==> DistinctCodes(ws[id].contacts)
  }

  /** What every operation, request or event, keeps. */
  ghost predicate Consistent(ws: map<WalletId, Wallet>)
  {
    UniqueUsers(ws) && ContactsDistinct(ws)
  }

  /** No balance is negative. */
  ghost predicate Solvent(ws: map<WalletId, Wallet>)
  {
    forall id :: id in ws ==> ws[id].balance >= 0
  }

  /** Storing a wallet under a new id keeps the invariants when its user has
      no wallet yet, its codes are distinct and its balance is not negative. */
  lemma InsertKeeps(ws: map<WalletId, Wallet>, id: WalletId, w: Wallet)
    requires id !in ws && !AnyStored(ws, ByUserId(w.userId))
    ensures Consistent(ws) && DistinctCodes(w.contacts) ==> Consistent(ws[id := w])
    ensures Solvent(ws) && w.balance >= 0 ==> Solvent(ws[id := w])
  {
  }

  /** Rewriting a stored wallet keeps the invariants when its user stays the
      same, its codes stay distinct and its balance does not go negative. */
  lemma ReplaceKeeps(ws: map<WalletId, Wallet>, id: WalletId, w: Wallet)
    requires id in ws && w.userId == ws[id].userId
    ensures Consistent(ws) && DistinctCodes(w.contacts) ==> Consistent(ws[id := w])
    ensures Solvent(ws) && w.balance >= 0 ==> Solvent(ws[id := w])
  {
  }

  /** `after` holds the same ids as `before` and differs from it at most at `id`. */
  ghost predicate OnlyWalletChanged(before: map<WalletId, Wallet>, after: map<WalletId, Wallet>, id: WalletId)
  {
    && after.Keys == before.Keys
    && forall other :: other in before && other != id ==> after[other] == before[other]
  }

  class Store {
    var wallets: map<WalletId, Wallet>
    /** Natural order: the ids in the order their documents were saved. */
    var order: seq<WalletId>

    ghost predicate Valid()
      reads this
    {
      && (forall id :: id in wallets <==> id in order)
      && Distinct(order)
    }

    constructor ()
      ensures Valid() && wallets == map[] && order == []
    {
      wallets := map[];
      order := [];
    }

    /** `document.save()` of a new document; a taken `_id` is a duplicate-key
        error and writes nothing. */
    method Save(id: WalletId, w: Wallet) returns (saved: bool)
      requires Valid()
      modifies this
      ensures Valid()
      ensures saved <==> id !in old(wallets)
      ensures saved ==> wallets == old(wallets)[id := w] && order == old(order) + [id]
      ensures !saved ==> wallets == old(wallets) && order == old(order)
    {
      if id in wallets {
        return false;
      }
      wallets := wallets[id := w];
      order := order + [id];
      saved := true;
    }

    /** `findByIdAndUpdate(id, update, {new: true})`: rewrites one document
        and answers the new version, or answers nothing when the id is not
        stored. */
    method FindByIdAndUpdate(id: WalletId, update: Wallet -> Wallet) returns (updated: Option<Wallet>)
      requires Valid()
      modifies this`wallets
      ensures Valid() && order == old(order)
      ensures id in old(wallets) ==>
        && updated == Some(update(old(wallets)[id]))
        && wallets == old(wallets)[id := update(old(wallets)[id])]
      ensures id !in old(wallets) ==> updated == None && wallets == old(wallets)
    {
      if id !in wallets {
        return None;
      }
      var w := update(wallets[id]);
      wallets := wallets[id := w];
      updated := Some(w);
    }
  }
}
