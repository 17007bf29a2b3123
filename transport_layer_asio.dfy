/**
 * The ASIO transport layer: the guard chains of `wait` and `asyncWait`,
 * `start`, the accept handler that registers new sessions, and
 * `sourceMessage` / `sinkMessage`, which start a transfer on a session and
 * hand back a ticket for it.
 *
 * Which sessions are still alive is a parameter (`live`): the transport
 * only holds weak references, so their lifetime is decided elsewhere.
 * Time is a parameter too (`now`).
 */
module TransportLayerAsio {
  import opened Base
  import opened AsioTicket
  import opened AsioSession

  /**
   * The three statuses the guards return. Their codes and reasons are
   * defined in the transport layer's and the ticket's own sources, which
   * are not part of this model; the model only needs them to be distinct.
   */
  const ShutdownStatus: Status := Status(ShutdownInProgress, "shutdown in progress")
  const ExpiredStatus: Status := Status(ExceededTimeLimit, "ticket has expired")
  const TicketSessionClosedStatus: Status := Status(TransportSessionClosed, "ticket's session is closed")

  /** The refusal of a second `start()`. */
  const AlreadyRunningStatus: Status := Status(InternalError, "TransportLayer is already running")

  /** How `wait` ends: with a status of its own, or by waiting on the session. */
  datatype WaitResult =
    | Returned(status: Status)
    | WaitOnSession(session: SessionId)

  /**
   * `wait`: takes the ticket over and checks, in order, that the transport
   * is running, that the ticket has not expired, and that its session is
   * still alive; only then does it hand over to the session.
   */
  function Wait(running: bool, ticket: Ticket, now: Date, live: set<SessionId>): (r: WaitResult)
    requires ticket.impl.Some?
    ensures !running ==> r == Returned(ShutdownStatus)
    ensures running && ticket.impl.value.Expiration() < now ==> r == Returned(ExpiredStatus)
    ensures running && now <= ticket.impl.value.Expiration() && ticket.impl.value.session.target !in live ==>
      r == Returned(TicketSessionClosedStatus)
    ensures r.WaitOnSession? <==>
      running && now <= ticket.impl.value.Expiration() && ticket.impl.value.session.target in live
    ensures r.WaitOnSession? ==> r.session == ticket.impl.value.session.target
  {
    var owned := ticket;
    if !running then Returned(ShutdownStatus)
    else if owned.impl.value.Expiration() < now then Returned(ExpiredStatus)
    else match GetSession(owned.impl.value, live)
      case None => Returned(TicketSessionClosedStatus)
      case Some(session) => WaitOnSession(session)
  }

  /**
   * How `asyncWait` ends: the callback run with a status of the guards,
   * the session's `closed()` reached (it is unreachable in this code, so
   * the process aborts there), or, as written, a read through the ticket
   * that was moved from.
   */
  datatype AsyncWaitResult =
    | CallbackRun(status: Status)
    | ClosedCheckReached(session: SessionId)
    | MovedFromTicketRead

  /**
   * `asyncWait` with its checks made on the ticket it has taken over: the
   * same guards in the same order as `wait`, each reported to the
   * callback.
   */
  function AsyncWait(running: bool, ticket: Ticket, now: Date, live: set<SessionId>): (r: AsyncWaitResult)
    requires ticket.impl.Some?
    ensures r.CallbackRun? <==> Wait(running, ticket, now, live).Returned?
    ensures r.CallbackRun? ==> r.status == Wait(running, ticket, now, live).status
    ensures r.ClosedCheckReached? ==> r.session == Wait(running, ticket, now, live).session
    ensures !r.MovedFromTicketRead?
  {
    var owned := ticket;
    if !running then CallbackRun(ShutdownStatus)
    else if owned.impl.value.Expiration() < now then CallbackRun(ExpiredStatus)
    else match GetSession(owned.impl.value, live)
      case None => CallbackRun(TicketSessionClosedStatus)
      case Some(session) => ClosedCheckReached(session)
  }

  /**
   * `asyncWait` as written: after `Ticket ownedTicket(std::move(ticket))`
   * the expiration and the session are read from `ticket`, which no longer
   * holds an implementation.
   */
  function AsyncWaitAsWritten(running: bool, ticket: Ticket, now: Date, live: set<SessionId>): (r: AsyncWaitResult)
    requires ticket.impl.Some?
    ensures running <==> r == MovedFromTicketRead
  {
    // The owned ticket is never read again: every later check reads what
    // the move left behind in `ticket`, which holds no implementation.
    var leftBehind := ticket.MovedFrom();
    if !running then CallbackRun(ShutdownStatus)
    else assert leftBehind.impl.None?; MovedFromTicketRead
  }

  /**
   * On a running transport, every ticket makes `asyncWait` as written read
   * the moved-from ticket, whatever its expiration or session, where the
   * checks on the owned ticket would have reported expiry or a closed
   * session to the callback.
   */
  lemma AsWrittenAsyncWaitReadsMovedFromTicket(session: SessionId, expiration: Date, now: Date)
    requires expiration < now
    ensures var t := Ticket(Some(MakeTicket(session, expiration)));
      AsyncWaitAsWritten(true, t, now, {}) == MovedFromTicketRead &&
      AsyncWait(true, t, now, {}) == CallbackRun(ExpiredStatus) &&
      AsyncWait(true, t, expiration, {}) == CallbackRun(TicketSessionClosedStatus)
  {
  }

  /**
   * A ticket made with the default expiration never expires: the guards
   * decide on running and liveness alone.
   */
  lemma {:induction false} DefaultExpirationNeverExpires(running: bool, session: SessionId, now: Date, live: set<SessionId>)
    ensures var t := Ticket(Some(MakeTicket(session, kNoExpirationDate)));
      Wait(running, t, now, live) ==
        if !running then Returned(ShutdownStatus)
        else if session in live then WaitOnSession(session)
        else Returned(TicketSessionClosedStatus)
  {
    var t := Ticket(Some(MakeTicket(session, kNoExpirationDate)));
    assert now <= t.impl.value.Expiration();
  }

  /** An acceptor `start()` opens. */
  datatype Acceptor =
    | TcpAcceptor(port: nat)
    | LocalAcceptor(path: string)

  const TcpPort: nat := 28017
  const LocalSocketPath: string := "/tmp/mongodb-28017.sock"

  /** A node of the session registry: a weak reference to one session. */
  datatype RegistryEntry = RegistryEntry(node: nat, session: WeakRef)

  function Nodes(entries: seq<RegistryEntry>): set<nat>
  {
    set e | e in entries :: e.node
  }

  class TransportLayerASIO {
    var running: bool
    /** How many permanent `io_service` worker threads have been started. */
    var permanentWorkers: nat
    var acceptors: seq<Acceptor>
    /** The indices of the acceptors with an `async_accept` outstanding, one entry per accept. */
    var armed: seq<nat>
    /** `_sessions`: the registry, newest session first. */
    var sessions: seq<RegistryEntry>
    /** The sessions handed to the service entry point, in order. */
    var startedSessions: seq<SessionId>
    var nextSessionId: SessionId
    var nextNode: nat

    ghost predicate Valid()
      reads this
    {
      (forall k :: 0 <= k < |armed| ==> armed[k] < |acceptors|) &&
      (forall e :: e in sessions ==> e.node < nextNode && e.session.target < nextSessionId)
    }

    constructor ()
      ensures Valid() && !running && permanentWorkers == 0
      ensures acceptors == [] && armed == [] && sessions == [] && startedSessions == []
    {
      running, permanentWorkers := false, 0;
      acceptors, armed := [], [];
      sessions, startedSessions := [], [];
      nextSessionId, nextNode := 0, 0;
    }

    /**
     * `start()`: sets running and refuses if it already was. Otherwise it
     * starts one worker, opens the TCP acceptor and then the local one,
     * returning the failure of the first that cannot be opened, and
     * finally arms an accept on every acceptor. Running stays set even when
     * an acceptor fails.
     */
    method Start(tcpOpened: Status, localOpened: Status) returns (r: Status)
      requires Valid()
      modifies this`running, this`permanentWorkers, this`acceptors, this`armed
      ensures Valid() && running
      ensures old(running) ==>
        r == AlreadyRunningStatus && permanentWorkers == old(permanentWorkers) &&
        acceptors == old(acceptors) && armed == old(armed)
      ensures !old(running) ==> permanentWorkers == old(permanentWorkers) + 1
      ensures !old(running) && !tcpOpened.IsOK() ==>
        r == tcpOpened && acceptors == old(acceptors) && armed == old(armed)
      ensures !old(running) && tcpOpened.IsOK() && !localOpened.IsOK() ==>
        r == localOpened && acceptors == old(acceptors) + [TcpAcceptor(TcpPort)] && armed == old(armed)
      ensures !old(running) && tcpOpened.IsOK() && localOpened.IsOK() ==>
        r == StatusOK &&
        acceptors == old(acceptors) + [TcpAcceptor(TcpPort), LocalAcceptor(LocalSocketPath)] &&
        |armed| == |old(armed)| + |acceptors| &&
        armed[..|old(armed)|] == old(armed) &&
        forall k :: |old(armed)| <= k < |armed| ==> armed[k] == k - |old(armed)|
    {
      var wasRunning := running;
      running := true;
      if wasRunning {
        return AlreadyRunningStatus;
      }
      permanentWorkers := permanentWorkers + 1;
      if !tcpOpened.IsOK() {
        return tcpOpened;
      }
      acceptors := acceptors + [TcpAcceptor(TcpPort)];
      if !localOpened.IsOK() {
        return localOpened;
      }
      acceptors := acceptors + [LocalAcceptor(LocalSocketPath)];
      var i := 0;
      while i < |acceptors|
        invariant 0 <= i <= |acceptors|
        invariant Valid() && running && permanentWorkers == old(permanentWorkers) + 1
        invariant acceptors == old(acceptors) + [TcpAcceptor(TcpPort), LocalAcceptor(LocalSocketPath)]
        invariant |armed| == |old(armed)| + i && armed[..|old(armed)|] == old(armed)
        invariant forall k :: |old(armed)| <= k < |armed| ==> armed[k] == k - |old(armed)|
      {
        BeginAccept(i);
        i := i + 1;
      }
      return StatusOK;
    }

    /** `_begin_accept`: arms one accept on the acceptor. */
    method BeginAccept(acceptor: nat)
      requires Valid() && acceptor < |acceptors|
      modifies this`armed
      ensures Valid() && armed == old(armed) + [acceptor]
    {
      armed := armed + [acceptor];
    }

    /**
     * The accept handler (its error code is not looked at): a new session
     * is put at the front of the registry under a new node that the
     * session records, the session is handed to the service entry point,
     * and the acceptor's accept is armed again.
     */
    method OnAccept(k: nat) returns (session: ASIOSession)
      requires Valid() && k < |armed|
      modifies this`armed, this`sessions, this`startedSessions, this`nextSessionId, this`nextNode
      ensures Valid() && fresh(session) && session.Valid()
      ensures session.id == old(nextSessionId) && session.id !in set e | e in old(sessions) :: e.session.target
      ensures session.entry.Some? && session.entry.value !in Nodes(old(sessions))
      ensures sessions == [RegistryEntry(session.entry.value, WeakRef(session.id))] + old(sessions)
      ensures startedSessions == old(startedSessions) + [session.id]
      ensures multiset(armed) == multiset(old(armed))
      ensures armed == old(armed[..k]) + old(armed[k + 1..]) + [old(armed[k])]
    {
      var acceptor := armed[k];
      armed := armed[..k] + armed[k + 1..];
      session := new ASIOSession(nextSessionId);
      nextSessionId := nextSessionId + 1;
      var node := nextNode;
      nextNode := nextNode + 1;
      session.SetIter(node);
      sessions := [RegistryEntry(node, WeakRef(session.id))] + sessions;
      startedSessions := startedSessions + [session.id];
      BeginAccept(acceptor);
      assert old(armed) == old(armed[..k]) + [acceptor] + old(armed[k + 1..]);
    }

    /**
     * `sourceMessage`: starts a read on the session and returns a ticket
     * for it. The expiration defaults to none.
     */
    method SourceMessage(session: ASIOSession, message: Message, header: ReadOutcome, body: ReadOutcome,
                         expiration: Date := kNoExpirationDate) returns (t: Ticket)
      requires session.Valid() && session.reading == NoRead
      requires ReadFits(header, body)
      modifies session`status, session`callback, session`invocations, session`reading, session`received, message
      ensures session.Valid() && session.ReadBegun(message, header, body)
      ensures t == Ticket(Some(MakeTicket(session.id, expiration)))
    {
      session.BeginRead(message, header, body);
      t := Ticket(Some(MakeTicket(session.id, expiration)));
    }

    /**
     * `sinkMessage`: starts a write on the session and returns a ticket for
     * it. The expiration defaults to none.
     */
    method SinkMessage(session: ASIOSession, msg: seq<byte>, w: WriteOutcome,
                       expiration: Date := kNoExpirationDate) returns (t: Ticket)
      requires session.Valid() && session.writing == NoWrite
      requires |msg| >= 4 && 0 <= WireHeader.MessageLength(msg) <= |msg|
      requires w.written <= WireHeader.MessageLength(msg)
      modifies session`status, session`callback, session`invocations, session`writing, session`sent
      ensures session.Valid() && session.WriteBegun(msg, w)
      ensures t == Ticket(Some(MakeTicket(session.id, expiration)))
    {
      session.BeginWrite(msg, w);
      t := Ticket(Some(MakeTicket(session.id, expiration)));
    }
  }
}
