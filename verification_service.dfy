/**
 * Exchange settlement and the URL guard of backlink verification
 * (services/verificationService.ts). The provider earns, and the recipient
 * pays, the Domain Authority of the source site; the stamped transaction goes
 * to the front of the log.
 */
module VerificationService {
  import opened Wrappers
  import opened Types
  import opened Ledger
  import opened MockDatabase

  /** The balances after the two writes of an exchange: debit the recipient, then credit the provider. */
  function Settle(users: seq<User>, providerId: Id, recipientId: Id, pointValue: int): (r: seq<User>)
    ensures |r| == |users|
    ensures forall j :: 0 <= j < |r| ==> r[j] == users[j].(points := r[j].points)
  {
    AddPoints(AddPoints(users, recipientId, -pointValue), providerId, pointValue)
  }

  /** The transaction as recorded: status verified and the points actually moved; every other field as given. */
  function Stamp(tx: Transaction, pointValue: int): (r: Transaction)
    ensures r.status == Verified && r.pointsTransferred == pointValue
    ensures r.(status := tx.status, pointsTransferred := tx.pointsTransferred) == tx
  {
    tx.(status := Verified, pointsTransferred := pointValue)
  }

  /**
   * executeExchange: the recipient pays the source site's Domain Authority and
   * the provider earns it, by two separate balance updates; the transaction is
   * stamped and put at the head of the log. There is no precondition on the
   * balances and no check that either account exists. Websites are untouched.
   */
  method ExecuteExchange(db: MockDB, providerId: Id, recipientId: Id, sourceWebsiteDA: int, transaction: Transaction)
    returns (recorded: Transaction)
    requires db.Valid()
    modifies db
    ensures db.Valid()
    ensures db.users == Settle(old(db.users), providerId, recipientId, sourceWebsiteDA)
    ensures db.websites == old(db.websites)
    ensures recorded == Stamp(transaction, sourceWebsiteDA)
    ensures db.transactions == [recorded] + old(db.transactions)
  {
    var pointValue := sourceWebsiteDA;
    db.UpdateUserPoints(recipientId, -pointValue);
    db.UpdateUserPoints(providerId, pointValue);
    recorded := Stamp(transaction, pointValue);
    db.AddTransaction(recorded);
  }

  /**
   * The total of all balances moves by +v if the provider exists and by -v if
   * the recipient exists.
   */
  lemma SettleTotal(users: seq<User>, providerId: Id, recipientId: Id, v: int)
    ensures Total(Settle(users, providerId, recipientId, v)) ==
      Total(users) + (if HasUser(users, providerId) then v else 0) - (if HasUser(users, recipientId) then v else 0)
  {
    var debited := AddPoints(users, recipientId, -v);
    TotalAddPoints(users, recipientId, -v);
    AddPointsKeepsLookup(users, recipientId, -v, providerId);
    assert HasUser(debited, providerId) == HasUser(users, providerId);
    TotalAddPoints(debited, providerId, v);
  }

  /** With both accounts present the transfer conserves the total number of points. */
  lemma SettleConserves(users: seq<User>, providerId: Id, recipientId: Id, v: int)
    requires HasUser(users, providerId) && HasUser(users, recipientId)
    ensures Total(Settle(users, providerId, recipientId, v)) == Total(users)
  {
    SettleTotal(users, providerId, recipientId, v);
  }

  /**
   * The writes are not atomic: when exactly one party exists, that party is
   * still updated and the total changes by +v (only the provider exists) or
   * -v (only the recipient exists).
   */
  lemma SettleOneSided(users: seq<User>, providerId: Id, recipientId: Id, v: int)
    requires HasUser(users, providerId) != HasUser(users, recipientId)
    ensures Total(Settle(users, providerId, recipientId, v)) ==
      Total(users) + (if HasUser(users, providerId) then v else -v)
  {
    SettleTotal(users, providerId, recipientId, v);
  }

  /**
   * Two distinct existing parties: the recipient's balance falls by exactly v
   * and the provider's rises by exactly v, with no floor on the result.
   */
  lemma SettleMovesPoints(users: seq<User>, providerId: Id, recipientId: Id, v: int)
    requires providerId != recipientId
    requires HasUser(users, providerId) && HasUser(users, recipientId)
    ensures var s := Settle(users, providerId, recipientId, v);
      var ip := FirstIndex(users, ById(providerId)).value;
      var ir := FirstIndex(users, ById(recipientId)).value;
      ip != ir &&
      s[ip] == users[ip].(points := users[ip].points + v) &&
      s[ir] == users[ir].(points := users[ir].points - v)
  {
    var ip := FirstIndex(users, ById(providerId)).value;
    var ir := FirstIndex(users, ById(recipientId)).value;
    var debited := AddPoints(users, recipientId, -v);
    assert ip != ir by {
      assert users[ip].id == providerId && users[ir].id == recipientId;
    }
    assert debited[ip] == users[ip];
    assert debited[ir] == users[ir].(points := users[ir].points - v);
    AddPointsKeepsLookup(users, recipientId, -v, providerId);
    var settled := AddPoints(debited, providerId, v);
    assert settled[ip] == debited[ip].(points := debited[ip].points + v);
    assert settled[ir] == debited[ir];
  }

  /**
   * Every user other than the first one with the provider's id and the first
   * one with the recipient's id keeps its record; the table keeps its length.
   */
  lemma SettleLeavesOthers(users: seq<User>, providerId: Id, recipientId: Id, v: int)
    ensures var s := Settle(users, providerId, recipientId, v);
      |s| == |users| &&
      forall j ::
        (0 <= j < |users| && FirstIndex(users, ById(providerId)) != Some(j) &&
         FirstIndex(users, ById(recipientId)) != Some(j)) ==> s[j] == users[j]
  {
    AddPointsKeepsLookup(users, recipientId, -v, providerId);
  }

  /** Trading with oneself: the debit and the credit cancel and the table is unchanged. */
  lemma SettleSelf(users: seq<User>, id: Id, v: int)
    ensures Settle(users, id, id, v) == users
  {
    var s := Settle(users, id, id, v);
    AddPointsKeepsLookup(users, id, -v, id);
    forall j | 0 <= j < |users|
      ensures s[j] == users[j]
    {
    }
  }

  /**
   * On the seed data, Alex SEO (u1) providing a link on techcrunch.com (DA 92)
   * to Marketing Pro (u3, 12 points) leaves u3 at -80 and u1 at 242.
   */
  lemma SeedExchangeOverdraws()
    ensures var s := Settle(InitialUsers(), "u1", "u3", 92);
      s[2].points == -80 && s[0].points == 242 && s[1] == InitialUsers()[1] &&
      Total(s) == Total(InitialUsers())
  {
    var users := InitialUsers();
    assert FirstIndex(users, ById("u3")) == Some(2) by {
      assert users[0].id != "u3" && users[1].id != "u3";
    }
    assert FirstIndex(users, ById("u1")) == Some(0);
    SettleConserves(users, "u1", "u3", 92);
  }

  /** The reply of verifyBacklink. */
  datatype VerifyResult = VerifyResult(success: bool, error: Option<string>)

  /** String.prototype.startsWith: the first |prefix| characters of `s` are `prefix`. */
  function StartsWith(s: string, prefix: string): (b: bool)
    ensures b <==> |prefix| <= |s| && forall j :: 0 <= j < |prefix| ==> s[j] == prefix[j]
  {
    prefix <= s
  }

  /**
   * The synchronous guard at the top of verifyBacklink: a source URL that does
   * not begin with "http" is refused at once with "Invalid URL" (Some); any
   * other goes on to the simulated crawl (None).
   */
  function SourceUrlGuard(sourceUrl: string): (r: Option<VerifyResult>)
    ensures r.None? <==>
      |sourceUrl| >= 4 && sourceUrl[0] == 'h' && sourceUrl[1] == 't' && sourceUrl[2] == 't' && sourceUrl[3] == 'p'
    ensures r.Some? ==> r.value == VerifyResult(false, Some("Invalid URL"))
  {
    if !StartsWith(sourceUrl, "http") then Some(VerifyResult(false, Some("Invalid URL"))) else None
  }

  /** The URL the exchange screen builds from a source domain always passes the guard. */
  lemma CallerUrlPassesGuard(domain: string)
    ensures SourceUrlGuard("https://" + domain + "/blog/guest-post-feature") == None
  {
    var url := "https://" + domain + "/blog/guest-post-feature";
    assert url[..4] == "http";
  }

  /** The guard is a prefix test only: "not-a-url" is refused, but "httpnot-a-url" passes. */
  lemma GuardIsPrefixOnly()
    ensures SourceUrlGuard("not-a-url") == Some(VerifyResult(false, Some("Invalid URL")))
    ensures SourceUrlGuard("httpnot-a-url") == None
  {
    assert "httpnot-a-url"[..4] == "http";
  }
}
