/**
 * Tickets of the ASIO transport layer: a caller-visible handle on one
 * pending read or write of a session. An `ASIOTicket` holds a weak
 * reference to its session, the session's id and an expiration date, all
 * fixed at construction. The weak reference is resolved against the set of
 * sessions that are still alive, so a ticket whose session has been
 * destroyed reports that instead of reaching a dead object.
 */
module AsioTicket {
  import opened Base

  type SessionId = nat

  /** `Date_t`: milliseconds since the epoch, a signed 64-bit count. */
  const MinDate: int := -0x8000_0000_0000_0000
  const MaxDate: int := 0x7FFF_FFFF_FFFF_FFFF
  type Date = d: int | MinDate <= d <= MaxDate

  /** `Ticket::kNoExpirationDate`, `Date_t::max()`: the default of `sourceMessage` and `sinkMessage`. */
  const kNoExpirationDate: Date := MaxDate

  /** A `std::weak_ptr<ASIOSession>`: it names a session but does not keep it alive. */
  datatype WeakRef = WeakRef(target: SessionId)

  /** `ASIOTicket`: three const members and their accessors. */
  datatype ASIOTicket = ASIOTicket(session: WeakRef, id: SessionId, expires: Date) {
    function SessionIdOf(): SessionId { id }
    function Expiration(): Date { expires }
  }

  /** The `ASIOTicket` constructor: weak reference, id and expiration of the given session. */
  function MakeTicket(session: SessionId, expiration: Date): (t: ASIOTicket)
    ensures t.SessionIdOf() == session && t.Expiration() == expiration
    ensures t.session == WeakRef(session)
  {
    ASIOTicket(WeakRef(session), session, expiration)
  }

  /**
   * `getSession()`: locks the weak reference, giving the session while it
   * is alive and nothing once it has been destroyed.
   */
  function GetSession(t: ASIOTicket, live: set<SessionId>): (r: Option<SessionId>)
    ensures r.Some? <==> t.session.target in live
    ensures r.Some? ==> r.value == t.session.target
  {
    if t.session.target in live then Some(t.session.target) else None
  }

  /**
   * A ticket made for a session resolves to that session exactly as long as
   * the session is alive; destroying any other session does not affect it.
   */
  lemma {:induction false} TicketFollowsSessionLifetime(s: SessionId, e: Date, live: set<SessionId>, other: SessionId)
    requires other != s
    ensures GetSession(MakeTicket(s, e), live) == (if s in live then Some(s) else None)
    ensures GetSession(MakeTicket(s, e), live - {s}) == None
    ensures GetSession(MakeTicket(s, e), live - {other}) == GetSession(MakeTicket(s, e), live)
  {
    var t := MakeTicket(s, e);
    assert t.session.target == s;
    assert (s in live - {other}) == (s in live);
  }

  /**
   * `transport::Ticket`: owns its implementation through a unique pointer;
   * a ticket that has been moved from holds none.
   */
  datatype Ticket = Ticket(impl: Option<ASIOTicket>) {
    /** The ticket left behind by `Ticket owned(std::move(ticket))`. */
    function MovedFrom(): Ticket { Ticket(None) }
  }
}
