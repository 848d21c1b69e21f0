/** The restricted view a wallet search answers with. */
module Search {
  import opened WalletTypes

  /** `wallets.map(wallet => ({_id, walletId, code, userId, userName, userImage, status}))`. */
  function Project(ids: seq<WalletId>, ws: map<WalletId, Wallet>): (r: seq<SearchEntry>)
    requires forall id :: id in ids ==> id in ws
    ensures |r| == |ids|
    ensures forall i :: 0 <= i < |ids| ==>
      && r[i].id == ids[i] && r[i].walletId == ids[i]
      && r[i].code == ws[ids[i]].code
      && r[i].userId == ws[ids[i]].userId
      && r[i].userName == ws[ids[i]].userName
      && r[i].userImage == ws[ids[i]].userImage
      && r[i].status == ws[ids[i]].status
  {
    if ids == [] then []
    else
      var w := ws[ids[0]];
      var rest := Project(ids[1..], ws);
      assert forall i :: 1 <= i < |ids| ==> ids[i] == ids[1..][i - 1];
      [SearchEntryOf(ids[0], w)] + rest
  }

  /** The entry the projection makes of one stored document. */
  function SearchEntryOf(id: WalletId, w: Wallet): SearchEntry
  {
    SearchEntry(id, id, w.code, w.userId, w.userName, w.userImage, w.status)
  }

  /** Two documents that agree on everything a search shows. */
  ghost predicate SameShownFields(a: Wallet, b: Wallet)
  {
    a.(balance := 0, currency := "", contacts := []) == b.(balance := 0, currency := "", contacts := [])
  }

  /** The projection reveals nothing of balance, currency or contacts: stores
      that differ only there project to the same list. */
  lemma ProjectHidesBalanceAndContacts(ids: seq<WalletId>, ws1: map<WalletId, Wallet>, ws2: map<WalletId, Wallet>)
    requires forall id :: id in ids ==> id in ws1 && id in ws2 && SameShownFields(ws1[id], ws2[id])
    ensures Project(ids, ws1) == Project(ids, ws2)
  {
    var r1, r2 := Project(ids, ws1), Project(ids, ws2);
    forall i | 0 <= i < |ids| ensures r1[i] == r2[i] {
      assert SameShownFields(ws1[ids[i]], ws2[ids[i]]);
    }
  }
}
