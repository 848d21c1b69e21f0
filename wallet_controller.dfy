/** The request handlers of the wallet service. Lookups are functions of the
    store; each handler that writes is a method that takes the `Store` and
    changes it, specified by a function that gives the response it sends and
    the collection it leaves behind. */
module WalletController {
  import opened WalletTypes
  import opened WalletStore
  import opened WalletCode
  import opened Contacts
  import opened Search
  import opened WalletValidation

  /** A handler's response together with the collection after it ran. */
  datatype Outcome = Outcome(response: Response, wallets: map<WalletId, Wallet>)

  /** The schema's `required` check on a string path: present and non-empty. */
  predicate RequiredString(v: Option<string>)
  {
    v.Some? && v.value != ""
  }

  /** The document `new Wallet({userId, userName, userImage, code})` saves,
      with the schema defaults for balance, currency and status. */
  function NewWallet(userId: string, userName: string, userImage: Option<string>, code: string): Wallet
  {
    Wallet(userId, userName, userImage, DefaultBalance, DefaultCurrency, ActiveStatus, code, [])
  }

  // ---------------------------------------------------------------- createWallet

  /** createWallet validates the user id only: the other validated fields are never passed. */
  function ValidateCreate(userId: Option<string>, isValidId: string -> bool): (v: Validation)
    ensures v.valid <==> !MissingOrBlank(userId) && isValidId(userId.value)
    ensures v.errors.Keys <= {UserIdKey}
  {
    CreateWalletValidation(CreateWalletRequest(userId, None, None), isValidId)
  }

  ghost function CreateEffect(ws: map<WalletId, Wallet>, userId: Option<string>, userName: Option<string>,
                              userImage: Option<string>, newId: WalletId, code: string,
                              isValidId: string -> bool): (o: Outcome)
    ensures o.response.Created? <==>
      && ValidateCreate(userId, isValidId).valid
      && !AnyStored(ws, ByUserId(userId.value))
      && RequiredString(userName)
      && newId !in ws
    ensures o.response.Created? ==> userId.Some? && userName.Some?
    ensures !ValidateCreate(userId, isValidId).valid ==> o.response == Invalid(ValidateCreate(userId, isValidId).errors)
    ensures ValidateCreate(userId, isValidId).valid && AnyStored(ws, ByUserId(userId.value)) ==>
      o.response == BadRequest("User has an existing wallet")
    ensures !o.response.Created? ==> o.wallets == ws
    ensures o.response.Created? ==>
      && o.wallets == ws[newId := o.response.wallet]
      && o.wallets.Keys == ws.Keys + {newId}
      && o.response.wallet.userId == userId.value
      && o.response.wallet.userName == userName.value
      && o.response.wallet.userImage == userImage
      && o.response.wallet.code == code
      && o.response.wallet.balance == 0
      && o.response.wallet.currency == "GHS"
      && o.response.wallet.status == "active"
      && o.response.wallet.contacts == []
    ensures Consistent(ws) ==> Consistent(o.wallets)
    ensures Solvent(ws) ==> Solvent(o.wallets)
  {
    var v := ValidateCreate(userId, isValidId);
    if !v.valid then Outcome(Invalid(v.errors), ws)
    else if AnyStored(ws, ByUserId(userId.value)) then Outcome(BadRequest("User has an existing wallet"), ws)
    else if !RequiredString(userName) || newId in ws then Outcome(InternalError, ws)
    else
      var w := NewWallet(userId.value, userName.value, userImage, code);
      InsertKeeps(ws, newId, w);
      assert ws[newId := w].Keys == ws.Keys + {newId};
      Outcome(Created(w), ws[newId := w])
  }

  /** createWallet: `newId` is the `_id` the store assigns to the new document
      and `randomBytes` what the random source yields for the code. The code
      drawn, once the request gets that far, is returned as `code`. */
  method CreateWallet(store: Store, userId: Option<string>, userName: Option<string>, userImage: Option<string>,
                      newId: WalletId, randomBytes: seq<byte>, isValidId: string -> bool)
    returns (r: Response, code: string)
    requires store.Valid()
    requires |randomBytes| == CodeLength
    modifies store
    ensures store.Valid()
    ensures Outcome(r, store.wallets) == CreateEffect(old(store.wallets), userId, userName, userImage, newId, code, isValidId)
    ensures r.Created? ==> store.order == old(store.order) + [newId] && GetWallet(store, newId) == Ok(r.wallet)
    ensures !r.Created? ==> store.order == old(store.order)
    ensures r.Created? || r == InternalError ==>
      && |code| == CodeLength
      && forall i :: 0 <= i < |code| ==> code[i] == Alphabet[randomBytes[i] as int % |Alphabet|]
  {
    var v := ValidateCreate(userId, isValidId);
    if !v.valid {
      return Invalid(v.errors), "";
    }
    var uid := userId.value;
    var existing := FirstMatch(store.order, store.wallets, ByUserId(uid));
    FirstMatchFindsStored(store.order, store.wallets, ByUserId(uid));
    if existing.Some? {
      return BadRequest("User has an existing wallet"), "";
    }
    code := GenerateWalletCode(randomBytes);
    if !RequiredString(userName) {
      // the schema rejects the document on save
      return InternalError, code;
    }
    var saved := store.Save(newId, NewWallet(uid, userName.value, userImage, code));
    if !saved {
      return InternalError, code;
    }
    r := Created(NewWallet(uid, userName.value, userImage, code));
  }

  // ---------------------------------------------------------------- lookups

  /** getWallet: `findById`. */
  function GetWallet(store: Store, walletId: WalletId): (r: Response)
    reads store
    ensures r.Ok? <==> walletId in store.wallets
    ensures r.Ok? ==> r.wallet == store.wallets[walletId]
    ensures !r.Ok? ==> r == NotFound("Wallet not found")
  {
    if walletId in store.wallets then Ok(store.wallets[walletId]) else NotFound("Wallet not found")
  }

  /** getUserWallet: `findOne({userId})`. */
  function GetUserWallet(store: Store, userId: string): (r: Response)
    reads store
    requires store.Valid()
    ensures r.Ok? <==> AnyStored(store.wallets, ByUserId(userId))
    ensures r.Ok? ==> r.wallet.userId == userId && r.wallet in store.wallets.Values
    ensures r.Ok? && UniqueUsers(store.wallets) ==>
      forall id :: id in store.wallets && store.wallets[id].userId == userId ==> r.wallet == store.wallets[id]
    ensures !r.Ok? ==> r == NotFound("Wallet not found")
  {
    FirstMatchFindsStored(store.order, store.wallets, ByUserId(userId));
    match FirstMatch(store.order, store.wallets, ByUserId(userId))
    case None => NotFound("Wallet not found")
    case Some(id) => Ok(store.wallets[id])
  }

  /** getWalletByNameOrWalletCode: `find` with the name-or-code filter, then
      the projection. `pattern` is the case-insensitive test compiled from the
      request, or `None` when the text is not a valid pattern: the compile
      throws and the handler answers 500. The `!wallets` guard can never fire
      on a list, so no match is an empty 200. */
  function SearchWallets(store: Store, pattern: Option<string -> bool>): (r: Response)
    reads store
    requires store.Valid()
    ensures r.Listed? <==> pattern.Some?
    ensures pattern.None? ==> r == InternalError
    ensures pattern.Some? ==>
      forall id :: id in store.wallets && Satisfies(store.wallets[id], ByNameOrCode(pattern.value)) <==>
        exists i :: 0 <= i < |r.entries| && r.entries[i].walletId == id
    ensures r.Listed? ==> forall i, j :: 0 <= i < j < |r.entries| ==> r.entries[i].walletId != r.entries[j].walletId
    ensures r.Listed? ==> forall i, j :: 0 <= i < j < |r.entries| ==>
      Before(store.order, r.entries[i].walletId, r.entries[j].walletId)
    ensures r.Listed? ==> forall i :: 0 <= i < |r.entries| ==>
      var id := r.entries[i].walletId;
      && id in store.wallets
      && r.entries[i].id == id
      && r.entries[i].code == store.wallets[id].code
      && r.entries[i].userId == store.wallets[id].userId
      && r.entries[i].userName == store.wallets[id].userName
      && r.entries[i].userImage == store.wallets[id].userImage
      && r.entries[i].status == store.wallets[id].status
    ensures pattern.Some? && !AnyStored(store.wallets, ByNameOrCode(pattern.value)) ==> r == Listed([])
  {
    match pattern
    case None => InternalError
    case Some(matches) =>
      var found := Matching(store.order, store.wallets, ByNameOrCode(matches));
      FoundEntries(store.order, store.wallets, ByNameOrCode(matches));
      Listed(Project(found, store.wallets))
  }

  /** What the projection of a `find` answer lists, over a whole collection. */
  lemma FoundEntries(order: seq<WalletId>, ws: map<WalletId, Wallet>, f: Filter)
    requires (forall id :: id in ws <==> id in order) && Distinct(order)
    ensures var es := Project(Matching(order, ws, f), ws);
      && (forall id :: id in ws && Satisfies(ws[id], f) <==> exists i :: 0 <= i < |es| && es[i].walletId == id)
      && (forall i, j :: 0 <= i < j < |es| ==> es[i].walletId != es[j].walletId)
      && (forall i, j :: 0 <= i < j < |es| ==> Before(order, es[i].walletId, es[j].walletId))
      && (forall i :: 0 <= i < |es| ==> es[i].walletId in ws && es[i].id == es[i].walletId)
      && (forall i :: 0 <= i < |es| ==> SearchEntryOf(es[i].walletId, ws[es[i].walletId]) == es[i])
      && (!AnyStored(ws, f) ==> es == [])
  {
    var found := Matching(order, ws, f);
    var es := Project(found, ws);
    forall id | id in ws && Satisfies(ws[id], f)
      ensures exists i :: 0 <= i < |es| && es[i].walletId == id
    {
      var i :| 0 <= i < |found| && found[i] == id;
      assert es[i].walletId == id;
    }
    forall i | 0 <= i < |es|
      ensures es[i].walletId in ws && Satisfies(ws[es[i].walletId], f)
    {
      assert found[i] in found;
    }
  }

  /** Whatever differs between two stores only in balance, currency or
      contacts, a search answers the same on both. */
  lemma SearchHidesBalanceAndContacts(s1: Store, s2: Store, pattern: Option<string -> bool>)
    requires s1.Valid() && s2.Valid()
    requires s1.order == s2.order && s1.wallets.Keys == s2.wallets.Keys
    requires forall id :: id in s1.wallets ==> SameShownFields(s1.wallets[id], s2.wallets[id])
    ensures SearchWallets(s1, pattern) == SearchWallets(s2, pattern)
  {
    if pattern.Some? {
      var f := ByNameOrCode(pattern.value);
      MatchingOnShownFields(s1.order, s1.wallets, s2.wallets, pattern.value);
      var found := Matching(s1.order, s1.wallets, f);
      ProjectHidesBalanceAndContacts(found, s1.wallets, s2.wallets);
    }
  }

  lemma {:induction false} MatchingOnShownFields(ids: seq<WalletId>, ws1: map<WalletId, Wallet>, ws2: map<WalletId, Wallet>,
                                                 matches: string -> bool)
    requires ws1.Keys == ws2.Keys
    requires forall id :: id in ws1 ==> SameShownFields(ws1[id], ws2[id])
    ensures Matching(ids, ws1, ByNameOrCode(matches)) == Matching(ids, ws2, ByNameOrCode(matches))
  {
    if ids != [] {
      MatchingOnShownFields(ids[1..], ws1, ws2, matches);
      if ids[0] in ws1 {
        assert SameShownFields(ws1[ids[0]], ws2[ids[0]]);
        assert ws1[ids[0]].userName == ws2[ids[0]].userName && ws1[ids[0]].code == ws2[ids[0]].code;
      }
    }
  }

  // ---------------------------------------------------------------- updateWallet

  /** The balance change updateWallet makes once its input is accepted. */
  function AdjustEffect(ws: map<WalletId, Wallet>, walletId: WalletId, amount: int, transactionType: string): (o: Outcome)
    ensures walletId !in ws ==> o == Outcome(NotFound("Wallet not found"), ws)
    ensures o.response.Ok? <==>
      walletId in ws && (transactionType == "credit" || (transactionType == "debit" && ws[walletId].balance >= amount))
    ensures walletId in ws && transactionType == "debit" && ws[walletId].balance < amount ==>
      o.response == BadRequest("Insufficient balance")
    ensures walletId in ws && transactionType != "credit" && transactionType != "debit" ==> o.response == NoResponse
    ensures !o.response.Ok? ==> o.wallets == ws
    ensures o.response.Ok? ==>
      && OnlyWalletChanged(ws, o.wallets, walletId)
      && o.response.wallet == o.wallets[walletId]
      && o.wallets[walletId].(balance := ws[walletId].balance) == ws[walletId]
    ensures o.response.Ok? && transactionType == "credit" ==> o.wallets[walletId].balance == ws[walletId].balance + amount
    ensures o.response.Ok? && transactionType == "debit" ==> o.wallets[walletId].balance == ws[walletId].balance - amount >= 0
    ensures Consistent(ws) ==> Consistent(o.wallets)
    ensures Solvent(ws) && amount >= 0 ==> Solvent(o.wallets)
  {
    if walletId !in ws then Outcome(NotFound("Wallet not found"), ws)
    else
      var w := ws[walletId];
      if transactionType == "credit" then
        var w' := w.(balance := w.balance + amount);
        ReplaceKeeps(ws, walletId, w');
        Outcome(Ok(w'), ws[walletId := w'])
      else if transactionType == "debit" then
        if w.balance < amount then Outcome(BadRequest("Insufficient balance"), ws)
        else
          var w' := w.(balance := w.balance - amount);
          ReplaceKeeps(ws, walletId, w');
          Outcome(Ok(w'), ws[walletId := w'])
      else Outcome(NoResponse, ws)
  }

  /** The body of updateWallet after validation: look the wallet up, then
      credit, or debit when the balance covers the amount. */
  method ApplyUpdate(store: Store, walletId: WalletId, amount: int, transactionType: string) returns (r: Response)
    requires store.Valid()
    modifies store
    ensures store.Valid() && store.order == old(store.order)
    ensures Outcome(r, store.wallets) == AdjustEffect(old(store.wallets), walletId, amount, transactionType)
    ensures r.Ok? ==> GetWallet(store, walletId) == r
  {
    if walletId !in store.wallets {
      return NotFound("Wallet not found");
    }
    var wallet := store.wallets[walletId];
    if transactionType == "credit" {
      var updated := store.FindByIdAndUpdate(walletId, (w: Wallet) => w.(balance := w.balance + amount));
      return Ok(updated.value);
    }
    if transactionType == "debit" {
      if wallet.balance < amount {
        return BadRequest("Insufficient balance");
      }
      var updated := store.FindByIdAndUpdate(walletId, (w: Wallet) => w.(balance := w.balance - amount));
      return Ok(updated.value);
    }
    r := NoResponse;
  }

  /** The validation step exactly as updateWallet calls it: the request's
      userId is not passed on, so the validator always finds it missing. */
  function ValidateAsCalled(req: UpdateWalletRequest, isValidId: string -> bool): (v: Validation)
    ensures !v.valid
    ensures UserIdKey in v.errors && v.errors[UserIdKey] == "User id is required"
  {
    UpdateWalletValidation(req.(userId := None), isValidId)
  }

  /** updateWallet with the whole request passed to the validator. */
  method UpdateWallet(store: Store, req: UpdateWalletRequest, isValidId: string -> bool) returns (r: Response)
    requires store.Valid()
    modifies store
    ensures store.Valid() && store.order == old(store.order)
    ensures !UpdateWalletValidation(req, isValidId).valid ==>
      r == Invalid(UpdateWalletValidation(req, isValidId).errors) && store.wallets == old(store.wallets)
    ensures UpdateWalletValidation(req, isValidId).valid ==>
      Outcome(r, store.wallets) == AdjustEffect(old(store.wallets), req.walletId.value, req.amount.value, req.transactionType.value)
    ensures r.Ok? ==> GetWallet(store, req.walletId.value) == r
    ensures r != NoResponse
    ensures old(Solvent(store.wallets)) ==> Solvent(store.wallets)
  {
    var v := UpdateWalletValidation(req, isValidId);
    if !v.valid {
      return Invalid(v.errors);
    }
    UpdateWalletAcceptance(req, isValidId);
    r := ApplyUpdate(store, req.walletId.value, req.amount.value, req.transactionType.value);
  }

  // ---------------------------------------------------------------- updateWalletStatus

  function StatusEffect(ws: map<WalletId, Wallet>, walletId: WalletId, status: string): (o: Outcome)
    ensures walletId !in ws ==> o == Outcome(NotFound("Wallet not found"), ws)
    ensures OnlyWalletChanged(ws, o.wallets, walletId)
    ensures walletId in ws ==>
      && o.response.Ok?
      && o.response.wallet == o.wallets[walletId]
      && o.wallets[walletId].status == status
      && o.wallets[walletId].(status := ws[walletId].status) == ws[walletId]
    ensures Consistent(ws) ==> Consistent(o.wallets)
    ensures Solvent(ws) ==> Solvent(o.wallets)
  {
    if walletId !in ws then Outcome(NotFound("Wallet not found"), ws)
    else
      var w := ws[walletId].(status := status);
      ReplaceKeeps(ws, walletId, w);
      Outcome(Ok(w), ws[walletId := w])
  }

  /** The body of updateWalletStatus after validation: any status may replace any other. */
  method UpdateWalletStatus(store: Store, walletId: WalletId, status: string) returns (r: Response)
    requires store.Valid()
    modifies store
    ensures store.Valid() && store.order == old(store.order)
    ensures Outcome(r, store.wallets) == StatusEffect(old(store.wallets), walletId, status)
    ensures r.Ok? ==> GetWallet(store, walletId) == r
  {
    if walletId !in store.wallets {
      return NotFound("Wallet not found");
    }
    var updated := store.FindByIdAndUpdate(walletId, (w: Wallet) => w.(status := status));
    r := Ok(updated.value);
  }

  // ---------------------------------------------------------------- addContact

  function AddContactEffect(order: seq<WalletId>, ws: map<WalletId, Wallet>, walletId: WalletId, contactCode: string): (o: Outcome)
    requires forall id :: id in ws ==> id in order
    ensures walletId !in ws ==> o == Outcome(NotFound("Wallet not found"), ws)
    ensures walletId in ws && !AnyStored(ws, ByCode(contactCode)) ==>
      o == Outcome(NotFound("New contact wallet not found"), ws)
    ensures walletId in ws && AnyStored(ws, ByCode(contactCode)) && HasCode(ws[walletId].contacts, contactCode) ==>
      o == Outcome(BadRequest("Wallet is already a contact"), ws)
    ensures o.response.Ok? <==>
      walletId in ws && AnyStored(ws, ByCode(contactCode)) && !HasCode(ws[walletId].contacts, contactCode)
    ensures !o.response.Ok? ==> o.wallets == ws
    ensures o.response.Ok? ==>
      && OnlyWalletChanged(ws, o.wallets, walletId)
      && o.response.wallet == o.wallets[walletId]
      && exists cid :: cid in ws && ws[cid].code == contactCode &&
           o.wallets[walletId] == ws[walletId].(contacts := ws[walletId].contacts + [Snapshot(cid, ws[cid])])
    ensures Consistent(ws) ==> Consistent(o.wallets)
    ensures Solvent(ws) ==> Solvent(o.wallets)
  {
    FirstMatchFindsStored(order, ws, ByCode(contactCode));
    if walletId !in ws then Outcome(NotFound("Wallet not found"), ws)
    else
      match FirstMatch(order, ws, ByCode(contactCode))
      case None => Outcome(NotFound("New contact wallet not found"), ws)
      case Some(cid) =>
        if HasCode(ws[walletId].contacts, contactCode) then Outcome(BadRequest("Wallet is already a contact"), ws)
        else
          var cs := ws[walletId].contacts;
          var w := ws[walletId].(contacts := cs + [Snapshot(cid, ws[cid])]);
          assert DistinctCodes(cs) ==> DistinctCodes(w.contacts) by {
            if DistinctCodes(cs) {
              forall i | 0 <= i < |cs| ensures cs[i].code != contactCode {
              }
            }
          }
          ReplaceKeeps(ws, walletId, w);
          Outcome(Ok(w), ws[walletId := w])
  }

  /** The body of addContact after validation. The contact wallet is the
      first stored wallet whose code is `contactCode`. */
  method AddContact(store: Store, walletId: WalletId, contactCode: string) returns (r: Response)
    requires store.Valid()
    modifies store
    ensures store.Valid() && store.order == old(store.order)
    ensures Outcome(r, store.wallets) == AddContactEffect(old(store.order), old(store.wallets), walletId, contactCode)
    ensures r.Ok? ==> GetWallet(store, walletId) == r
  {
    if walletId !in store.wallets {
      return NotFound("Wallet not found");
    }
    var wallet := store.wallets[walletId];
    var contactId := FirstMatch(store.order, store.wallets, ByCode(contactCode));
    if contactId.None? {
      return NotFound("New contact wallet not found");
    }
    var contactWallet := store.wallets[contactId.value];
    var existing := FindContact(wallet.contacts, contactCode);
    if existing.Some? {
      return BadRequest("Wallet is already a contact");
    }
    var newContact := Snapshot(contactId.value, contactWallet);
    var updated := store.FindByIdAndUpdate(walletId, (w: Wallet) => w.(contacts := w.contacts + [newContact]));
    r := Ok(updated.value);
  }

  // ---------------------------------------------------------------- removeContact

  function RemoveContactEffect(ws: map<WalletId, Wallet>, walletId: WalletId, contactCode: string): (o: Outcome)
    ensures walletId !in ws ==> o == Outcome(NotFound("Wallet not found"), ws)
    ensures walletId in ws && !HasCode(ws[walletId].contacts, contactCode) ==>
      o == Outcome(BadRequest("Wallet is not a contact"), ws)
    ensures o.response.Ok? <==> walletId in ws && HasCode(ws[walletId].contacts, contactCode)
    ensures !o.response.Ok? ==> o.wallets == ws
    ensures o.response.Ok? ==>
      && OnlyWalletChanged(ws, o.wallets, walletId)
      && o.response.wallet == o.wallets[walletId]
      && o.wallets[walletId].(contacts := ws[walletId].contacts) == ws[walletId]
      && o.wallets[walletId].contacts == WithoutCode(ws[walletId].contacts, contactCode)
      && !HasCode(o.wallets[walletId].contacts, contactCode)
      && (forall c :: c in o.wallets[walletId].contacts <==> c in ws[walletId].contacts && c.code != contactCode)
    ensures o.response.Ok? && DistinctCodes(ws[walletId].contacts) ==>
      |o.wallets[walletId].contacts| == |ws[walletId].contacts| - 1
    ensures Consistent(ws) ==> Consistent(o.wallets)
    ensures Solvent(ws) ==> Solvent(o.wallets)
  {
    if walletId !in ws then Outcome(NotFound("Wallet not found"), ws)
    else if !HasCode(ws[walletId].contacts, contactCode) then Outcome(BadRequest("Wallet is not a contact"), ws)
    else
      var cs := ws[walletId].contacts;
      assert DistinctCodes(cs) ==> |WithoutCode(cs, contactCode)| == |cs| - 1 by {
        if DistinctCodes(cs) {
          WithoutCodeRemovesOne(cs, contactCode);
        }
      }
      var w := ws[walletId].(contacts := WithoutCode(cs, contactCode));
      ReplaceKeeps(ws, walletId, w);
      Outcome(Ok(w), ws[walletId := w])
  }

  /** removeContact: drop every entry carrying the code, keep the rest in order. */
  method RemoveContact(store: Store, walletId: WalletId, contactCode: string) returns (r: Response)
    requires store.Valid()
    modifies store
    ensures store.Valid() && store.order == old(store.order)
    ensures Outcome(r, store.wallets) == RemoveContactEffect(old(store.wallets), walletId, contactCode)
    ensures r.Ok? ==> GetWallet(store, walletId) == r
  {
    if walletId !in store.wallets {
      return NotFound("Wallet not found");
    }
    var wallet := store.wallets[walletId];
    var existing := FindContact(wallet.contacts, contactCode);
    if existing.None? {
      return BadRequest("Wallet is not a contact");
    }
    var remaining := WithoutCode(wallet.contacts, contactCode);
    var updated := store.FindByIdAndUpdate(walletId, (w: Wallet) => w.(contacts := remaining));
    r := Ok(updated.value);
  }
}
