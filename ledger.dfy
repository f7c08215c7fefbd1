/**
 * The users table of the store as a value, and the operations the store
 * performs on it (services/mockDatabase.ts): lookup of the first matching
 * user, find-or-create by email, and adding a delta to a balance. These
 * functions are the specifications the MockDB methods are proved against.
 */
module Ledger {
  import opened Wrappers
  import opened Types

  /** What `users.find` compares on: the email (signup) or the id (balance updates). */
  datatype Key = ByEmail(email: string) | ById(id: Id)

  predicate Matches(u: User, k: Key) {
    match k
    case ByEmail(e) => u.email == e
    case ById(i) => u.id == i
  }

  /**
   * The index of the first user matching `k`, the one `Array.prototype.find`
   * returns, or None when no user matches.
   */
  function FirstIndex(users: seq<User>, k: Key): (r: Option<nat>)
    ensures r.Some? ==> r.value < |users| && Matches(users[r.value], k)
    ensures r.Some? ==> forall j :: 0 <= j < r.value ==> !Matches(users[j], k)
    ensures r.None? ==> forall j :: 0 <= j < |users| ==> !Matches(users[j], k)
  {
    FirstIndexFrom(users, k, 0)
  }

  /** The first match at or after position `from`. */
  function FirstIndexFrom(users: seq<User>, k: Key, from: nat): (r: Option<nat>)
    requires from <= |users|
    ensures r.Some? ==> from <= r.value < |users| && Matches(users[r.value], k)
    ensures r.Some? ==> forall j :: from <= j < r.value ==> !Matches(users[j], k)
    ensures r.None? ==> forall j :: from <= j < |users| ==> !Matches(users[j], k)
    decreases |users| - from
  {
    if from == |users| then None
    else if Matches(users[from], k) then Some(from)
    else FirstIndexFrom(users, k, from + 1)
  }

  /** Some user carries this id. */
  predicate HasUser(users: seq<User>, id: Id) {
    FirstIndex(users, ById(id)).Some?
  }

  /**
   * The table after `user.points += delta` on the first user with this id;
   * the table is unchanged when no user has it.
   */
  function AddPoints(users: seq<User>, id: Id, delta: int): (r: seq<User>)
    ensures |r| == |users|
    ensures forall j :: 0 <= j < |r| ==> r[j] == users[j].(points := r[j].points)
    ensures !HasUser(users, id) ==> r == users
    ensures HasUser(users, id) ==>
      var i := FirstIndex(users, ById(id)).value;
      r[i].points == users[i].points + delta &&
      forall j :: 0 <= j < |r| && j != i ==> r[j] == users[j]
  {
    match FirstIndex(users, ById(id))
    case None => users
    case Some(i) => users[i := users[i].(points := users[i].points + delta)]
  }

  /** The sum of all balances. */
  function Total(users: seq<User>): (t: int) {
    if users == [] then 0 else users[0].points + Total(users[1..])
  }

  /** Replacing one user's record moves the total by the change in that user's balance. */
  lemma {:induction false} TotalUpdate(users: seq<User>, i: nat, u: User)
    requires i < |users|
    ensures Total(users[i := u]) == Total(users) - users[i].points + u.points
  {
    if i > 0 {
      TotalUpdate(users[1..], i - 1, u);
      assert users[i := u][1..] == users[1..][i - 1 := u];
    }
  }

  /** A balance update moves the total by exactly the delta, or not at all when the id is unknown. */
  lemma TotalAddPoints(users: seq<User>, id: Id, delta: int)
    ensures Total(AddPoints(users, id, delta)) == Total(users) + (if HasUser(users, id) then delta else 0)
  {
    if HasUser(users, id) {
      var i := FirstIndex(users, ById(id)).value;
      TotalUpdate(users, i, users[i].(points := users[i].points + delta));
    }
  }

  /** Two tables with the same ids in the same order agree on every id lookup. */
  lemma SameIdsSameFirstIndex(a: seq<User>, b: seq<User>, id: Id)
    requires |a| == |b|
    requires forall j :: 0 <= j < |a| ==> a[j].id == b[j].id
    ensures FirstIndex(a, ById(id)) == FirstIndex(b, ById(id))
  {
    var ra, rb := FirstIndex(a, ById(id)), FirstIndex(b, ById(id));
    if ra.Some? && rb.Some? {
      if ra.value < rb.value {
        assert Matches(b[ra.value], ById(id));
      } else if rb.value < ra.value {
        assert Matches(a[rb.value], ById(id));
      }
    } else if ra.Some? {
      assert Matches(b[ra.value], ById(id));
    }
  }

  /** Balance updates never change which user an id lookup finds. */
  lemma AddPointsKeepsLookup(users: seq<User>, id: Id, delta: int, other: Id)
    ensures FirstIndex(AddPoints(users, id, delta), ById(other)) == FirstIndex(users, ById(other))
  {
    SameIdsSameFirstIndex(AddPoints(users, id, delta), users, other);
  }

  /** Appending a user leaves earlier matches in place and makes the new user the first match otherwise. */
  lemma FirstIndexAppend(users: seq<User>, u: User, k: Key)
    ensures FirstIndex(users + [u], k) ==
      if FirstIndex(users, k).Some? then FirstIndex(users, k)
      else if Matches(u, k) then Some(|users|)
      else None
  {
    var before, after := FirstIndex(users, k), FirstIndex(users + [u], k);
    if before.Some? {
      assert (users + [u])[before.value] == users[before.value];
    } else {
      assert (users + [u])[|users|] == u;
    }
  }

  /** The starting balance of an account created at signup ("New user bonus"). */
  const NewUserBonus: int := 100

  function DigitChar(d: nat): (c: char)
    requires d < 10
    ensures '0' <= c <= '9'
    ensures (c as int) - ('0' as int) == d
  {
    (('0' as int) + d) as char
  }

  /** Every character is a decimal digit. */
  predicate AllDigits(s: string) {
    forall j :: 0 <= j < |s| ==> '0' <= s[j] <= '9'
  }

  /** The number a decimal numeral denotes, most significant digit first. */
  function DigitsValue(s: string): (v: nat)
    requires AllDigits(s)
  {
    if s == [] then 0
    else DigitsValue(s[..|s| - 1]) * 10 + ((s[|s| - 1] as int) - ('0' as int))
  }

  /**
   * The decimal numeral of `n`, as a template literal prints a non-negative
   * integer: it denotes `n` and has no leading zero.
   */
  function Decimal(n: nat): (s: string)
    ensures |s| >= 1 && AllDigits(s)
    ensures DigitsValue(s) == n
    ensures s[0] == '0' <==> n == 0
  {
    if n < 10 then [DigitChar(n)]
    else
      var prefix, last := Decimal(n / 10), DigitChar(n % 10);
      assert (prefix + [last])[..|prefix + [last]| - 1] == prefix;
      prefix + [last]
  }

  /** The id of a user created at clock reading `now`: "u" followed by Date.now(). */
  function NewUserId(now: nat): (id: Id)
    ensures |id| >= 2 && id[0] == 'u'
    ensures id[1..] == Decimal(now)
  {
    "u" + Decimal(now)
  }

  /** Accounts created at different clock readings get different ids. */
  lemma NewUserIdInjective(a: nat, b: nat)
    requires a != b
    ensures NewUserId(a) != NewUserId(b)
  {
  }

  /** The user findOrCreateUser returns, with the users table it leaves. */
  datatype Lookup = Lookup(user: User, users: seq<User>)

  /**
   * findOrCreateUser on a table value: the first user with this email, or a new
   * account with 100 points appended at the end.
   */
  function FindOrCreate(users: seq<User>, name: string, email: string, avatar: Option<string>, now: nat): (r: Lookup)
    ensures r.user.email == email
    ensures users <= r.users && |r.users| <= |users| + 1
    ensures (|r.users| == |users| + 1) <==> FirstIndex(users, ByEmail(email)).None?
    ensures FirstIndex(r.users, ByEmail(email)).Some?
    ensures r.users[FirstIndex(r.users, ByEmail(email)).value] == r.user
  {
    match FirstIndex(users, ByEmail(email))
    case Some(i) => Lookup(users[i], users)
    case None =>
      var u := User(NewUserId(now), name, email, NewUserBonus, avatar);
      FirstIndexAppend(users, u, ByEmail(email));
      Lookup(u, users + [u])
  }

  /** An existing email: the first user with it is returned and the table is untouched. */
  lemma FindOrCreateFinds(users: seq<User>, name: string, email: string, avatar: Option<string>, now: nat, i: nat)
    requires i < |users| && users[i].email == email
    requires forall j :: 0 <= j < i ==> users[j].email != email
    ensures FindOrCreate(users, name, email, avatar, now) == Lookup(users[i], users)
  {
    assert Matches(users[i], ByEmail(email));
  }

  /**
   * An unknown email: exactly one user is appended, with the given name, email
   * and avatar, 100 points and an id made from the clock; earlier users keep
   * their places.
   */
  lemma FindOrCreateAppends(users: seq<User>, name: string, email: string, avatar: Option<string>, now: nat)
    requires forall j :: 0 <= j < |users| ==> users[j].email != email
    ensures var r := FindOrCreate(users, name, email, avatar, now);
      r.users == users + [r.user] &&
      r.user == User(NewUserId(now), name, email, NewUserBonus, avatar)
  {
  }

  /**
   * Calling find-or-create again with the same email (whatever the name, avatar
   * or clock) returns the same user, hence the same id, and adds no record.
   */
  lemma FindOrCreateIdempotent(
    users: seq<User>, email: string,
    name: string, avatar: Option<string>, now: nat,
    name': string, avatar': Option<string>, now': nat)
    ensures var first := FindOrCreate(users, name, email, avatar, now);
      FindOrCreate(first.users, name', email, avatar', now') == first
  {
    var first := FindOrCreate(users, name, email, avatar, now);
    var k := FirstIndex(first.users, ByEmail(email)).value;
    FindOrCreateFinds(first.users, name', email, avatar', now', k);
  }

  /** No two users share an email. */
  predicate DistinctEmails(users: seq<User>) {
    forall i, j :: 0 <= i < j < |users| ==> users[i].email != users[j].email
  }

  /** Find-or-create never introduces a second account for an email. */
  lemma FindOrCreateKeepsEmailsDistinct(users: seq<User>, name: string, email: string, avatar: Option<string>, now: nat)
    requires DistinctEmails(users)
    ensures DistinctEmails(FindOrCreate(users, name, email, avatar, now).users)
  {
    var r := FindOrCreate(users, name, email, avatar, now);
    if FirstIndex(users, ByEmail(email)).None? {
      FindOrCreateAppends(users, name, email, avatar, now);
      forall i, j | 0 <= i < j < |r.users|
        ensures r.users[i].email != r.users[j].email
      {
        if j == |users| {
          assert r.users[i] == users[i];
          assert !Matches(users[i], ByEmail(email));
        }
      }
    }
  }
}
