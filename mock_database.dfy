/**
 * The in-memory store (services/mockDatabase.ts): class MockDB with its three
 * tables, which its mutators change in place. The browser's localStorage is
 * the ghost field `stored`: the snapshot the store last wrote, which every
 * mutator that calls save() brings up to date.
 */
module MockDatabase {
  import opened Wrappers
  import opened Types
  import opened Ledger

  /** The JSON object kept under the storage key "linkauthority_db". */
  datatype Snapshot = Snapshot(users: seq<User>, websites: seq<Website>, transactions: seq<Transaction>)

  /** The seed accounts of a fresh store. */
  function InitialUsers(): (r: seq<User>)
    ensures |r| == 3 && DistinctEmails(r)
    ensures Total(r) == 242
  {
    [ User("u1", "Alex SEO", "alex@example.com", 150, None),
      User("u2", "Dev Solutions", "dev@example.com", 80, None),
      User("u3", "Marketing Pro", "pro@example.com", 12, None) ]
  }

  /** The seed websites of a fresh store, one per seed account. */
  function InitialWebsites(): (r: seq<Website>)
    ensures forall j :: 0 <= j < |r| ==>
      HasUser(InitialUsers(), r[j].ownerId) && 1 <= r[j].domainAuthority <= 100
  {
    [ Website("w1", "u1", "techcrunch.com", 92, "Tech News and Analysis", "Technology"),
      Website("w2", "u2", "mydevblog.io", 35, "Personal coding tutorials", "Education"),
      Website("w3", "u3", "healthyliving.net", 25, "Lifestyle and nutrition tips", "Health") ]
  }

  class MockDB {
    var users: seq<User>
    var websites: seq<Website>
    var transactions: seq<Transaction>
    /** What localStorage holds for the store. */
    ghost var stored: Snapshot

    ghost function Current(): Snapshot
      reads this
    {
      Snapshot(users, websites, transactions)
    }

    /** The persisted copy mirrors the tables in memory. */
    ghost predicate Valid()
      reads this
    {
      stored == Current()
    }

    /**
     * load(): the saved snapshot when the storage key is present (`saved`
     * stands for what localStorage.getItem returned, already parsed),
     * otherwise the seed users and websites with an empty log, then written back.
     */
    constructor (saved: Option<Snapshot>)
      ensures Valid()
      ensures saved.Some? ==> Current() == saved.value
      ensures saved.None? ==> Current() == Snapshot(InitialUsers(), InitialWebsites(), [])
    {
      if saved.Some? {
        users := saved.value.users;
        websites := saved.value.websites;
        transactions := saved.value.transactions;
        stored := saved.value;
      } else {
        users := InitialUsers();
        websites := InitialWebsites();
        transactions := [];
        stored := Snapshot(InitialUsers(), InitialWebsites(), []);
      }
    }

    /** save(): rewrite the whole persisted copy from memory. */
    ghost method Save()
      modifies this`stored
      ensures Valid()
    {
      stored := Current();
    }

    /** The live table; when the store is valid it is also what was last persisted. */
    function GetUsers(): (r: seq<User>)
      reads this
      ensures r == users
      ensures Valid() ==> r == stored.users
    {
      users
    }

    /** The live table; when the store is valid it is also what was last persisted. */
    function GetWebsites(): (r: seq<Website>)
      reads this
      ensures r == websites
      ensures Valid() ==> r == stored.websites
    {
      websites
    }

    /** The live table; when the store is valid it is also what was last persisted. */
    function GetTransactions(): (r: seq<Transaction>)
      reads this
      ensures r == transactions
      ensures Valid() ==> r == stored.transactions
    {
      transactions
    }

    /** `users.find(...)`: scan from the front for the first user matching `k`. */
    method Find(k: Key) returns (r: Option<nat>)
      ensures r == FirstIndex(users, k)
    {
      var i := 0;
      while i < |users|
        invariant 0 <= i <= |users|
        invariant forall j :: 0 <= j < i ==> !Matches(users[j], k)
      {
        if Matches(users[i], k) {
          return Some(i);
        }
        i := i + 1;
      }
      return None;
    }

    /**
     * findOrCreateUser: the first user with this email; otherwise a new
     * account (id from the clock reading `now`, 100 points) pushed at the end
     * and saved. Websites and transactions are untouched.
     */
    method FindOrCreateUser(name: string, email: string, avatar: Option<string>, now: nat) returns (user: User)
      requires Valid()
      modifies this
      ensures Valid()
      ensures Lookup(user, users) == FindOrCreate(old(users), name, email, avatar, now)
      ensures websites == old(websites) && transactions == old(transactions)
    {
      var found := Find(ByEmail(email));
      if found.None? {
        user := User(NewUserId(now), name, email, NewUserBonus, avatar);
        users := users + [user];
        Save();
      } else {
        user := users[found.value];
      }
    }

    /**
     * updateUserPoints: add `delta` to the first user with this id and save;
     * nothing happens when no user has it. Websites and transactions are untouched.
     */
    method UpdateUserPoints(userId: Id, delta: int)
      requires Valid()
      modifies this
      ensures Valid()
      ensures users == AddPoints(old(users), userId, delta)
      ensures websites == old(websites) && transactions == old(transactions)
    {
      var found := Find(ById(userId));
      if found.Some? {
        var i := found.value;
        users := users[i := users[i].(points := users[i].points + delta)];
        Save();
      }
    }

    /** addTransaction: `unshift`, so the newest record is at index 0. */
    method AddTransaction(tx: Transaction)
      requires Valid()
      modifies this
      ensures Valid()
      ensures transactions == [tx] + old(transactions)
      ensures users == old(users) && websites == old(websites)
    {
      transactions := [tx] + transactions;
      Save();
    }

    /** addWebsite: `push`, so the newest site is last. */
    method AddWebsite(web: Website)
      requires Valid()
      modifies this
      ensures Valid()
      ensures websites == old(websites) + [web]
      ensures users == old(users) && transactions == old(transactions)
    {
      websites := websites + [web];
      Save();
    }
  }
}
