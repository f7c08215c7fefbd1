/**
 * The records of the LinkAuthority store (types.ts): users, their websites and
 * the log of completed backlink exchanges.
 */
module Types {
  import opened Wrappers

  /** Identifiers are strings such as "u1", "w2" or "tx1700000000000". */
  type Id = string

  /** A JavaScript `Date`, kept opaque as milliseconds since the epoch. */
  type Timestamp = int

  /**
   * An account. `points` is the trading balance; it is a whole number and may
   * fall below zero. `avatar` is stored by findOrCreateUser although the
   * interface in types.ts does not declare it.
   */
  datatype User = User(id: Id, name: string, email: string, points: int, avatar: Option<string>)

  /** A registered site; `domainAuthority` is its price in points. */
  datatype Website = Website(
    id: Id,
    ownerId: Id,
    domain: string,
    domainAuthority: int,
    description: string,
    category: string)

  /** The three states a transaction may be declared in (types.ts:26). */
  datatype Status = Pending | Verified | Failed

  /** One exchange: the provider places a link on the source site for the recipient. */
  datatype Transaction = Transaction(
    id: Id,
    sourceWebsiteId: Id,
    targetWebsiteId: Id,
    recipientUserId: Id,
    providerUserId: Id,
    sourceUrl: string,
    pointsTransferred: int,
    status: Status,
    timestamp: Timestamp)
}
