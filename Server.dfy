/** IPIServer and the change guard of IPICalculator
    (ase/calculators/ipi.py:185-324, 395-516). The listening socket, the
    client subprocess and its exit are modelled as oracles: the listener
    holds the outcomes its accept calls will have, the subprocess the code
    it will exit with. */
module Server {
  import opened Wrappers
  import opened Wire
  import opened Messages
  import opened Sockets
  import opened Protocol

  // ---------------------------------------------------------------------
  // Endpoint choice
  // ---------------------------------------------------------------------

  /** IPIServer.default_port */
  const DefaultPort := 31415

  /** Where the server listens: a TCP port or a unix socket file. */
  datatype Endpoint = Inet(port: int) | Unix(path: string)

  /** The endpoint check of IPIServer.__init__: neither argument means the
      default port, both is a ValueError. */
  function ChooseEndpoint(port: Option<int>, unixsocket: Option<string>): (r: Result<Endpoint, IpiError>)
    ensures r.Err? <==> port.Some? && unixsocket.Some?
    ensures r.Err? ==> r.error == ConflictingEndpoints
    ensures port.None? && unixsocket.None? ==> r == Ok(Inet(DefaultPort))
    ensures port.Some? && unixsocket.None? ==> r == Ok(Inet(port.value))
    ensures port.None? && unixsocket.Some? ==> r == Ok(Unix(unixsocket.value))
  {
    match (port, unixsocket)
    case (None, None) => Ok(Inet(DefaultPort))
    case (Some(p), None) => Ok(Inet(p))
    case (None, Some(path)) => Ok(Unix(path))
    case (Some(_), Some(_)) => Err(ConflictingEndpoints)
  }

  // ---------------------------------------------------------------------
  // Accepting the client
  // ---------------------------------------------------------------------

  /** What one serversocket.accept() does: a connection from an address, or
      a timeout, after which proc.poll() reports `poll` (None while the
      subprocess runs, its exit status once it has died). */
  datatype AcceptAttempt = Connected(conn: Socket, address: string) | TimedOut(poll: Option<int>)

  /** An attempt that ends _accept's loop: a connection, or a timeout after
      which the launched subprocess is found dead. */
  predicate Decides(a: AcceptAttempt, launched: bool) {
    a.Connected? || (launched && a.poll.Some?)
  }

  /** _accept returns at all: some attempt ends the loop. */
  predicate AcceptEnds(attempts: seq<AcceptAttempt>, launched: bool) {
    exists i :: 0 <= i < |attempts| && Decides(attempts[i], launched)
  }

  /** The attempt on which _accept's loop stops. */
  function FirstDecisive(attempts: seq<AcceptAttempt>, launched: bool): (i: nat)
    requires AcceptEnds(attempts, launched)
    ensures i < |attempts| && Decides(attempts[i], launched)
    ensures forall j :: 0 <= j < i ==> !Decides(attempts[j], launched)
    decreases |attempts|
  {
    if Decides(attempts[0], launched) then 0
    else
      var k :| 0 <= k < |attempts| && Decides(attempts[k], launched);
      assert attempts[1..][k - 1] == attempts[k];
      1 + FirstDecisive(attempts[1..], launched)
  }

  /** The sockets still waiting in the listener's backlog. */
  ghost function Conns(attempts: seq<AcceptAttempt>): set<Socket> {
    set i | 0 <= i < |attempts| && attempts[i].Connected? :: attempts[i].conn
  }

  /** The listening socket: the outcomes of its future accept calls. */
  class Listener {
    var attempts: seq<AcceptAttempt>
    var closed: bool

    constructor (attempts: seq<AcceptAttempt>)
      ensures this.attempts == attempts && !closed
    {
      this.attempts := attempts;
      closed := false;
    }

    /** Every connection still to be accepted is open. */
    ghost predicate Valid()
      reads this, Conns(attempts)
    {
      forall i :: 0 <= i < |attempts| && attempts[i].Connected? ==> !attempts[i].conn.closed
    }

    /** serversocket.accept(): the next outcome. */
    method Accept() returns (a: AcceptAttempt)
      requires Valid() && attempts != []
      modifies this`attempts
      ensures a == old(attempts[0]) && attempts == old(attempts[1..])
      ensures Valid() && (a.Connected? ==> !a.conn.closed)
    {
      a := attempts[0];
      attempts := attempts[1..];
    }

    /** The retry loop of _accept: accept again after every timeout, unless
        the server launched the client and poll() finds it dead. */
    method AwaitDecisive(launched: bool) returns (a: AcceptAttempt)
      requires Valid() && AcceptEnds(attempts, launched)
      modifies this`attempts
      ensures var i := FirstDecisive(old(attempts), launched);
              a == old(attempts)[i] && attempts == old(attempts)[i + 1..]
      ensures Valid() && (a.Connected? ==> !a.conn.closed)
    {
      ghost var all := attempts;
      ghost var i := FirstDecisive(all, launched);
      ghost var taken := 1;
      a := Accept();
      while !(a.Connected? || (launched && a.poll.Some?))
        invariant 1 <= taken <= i + 1 && attempts == all[taken..] && a == all[taken - 1]
        invariant Valid() && (a.Connected? ==> !a.conn.closed)
        decreases i + 1 - taken
      {
        a := Accept();
        taken := taken + 1;
      }
    }

    /** serversocket.close() */
    method Close()
      modifies this`closed
      ensures closed
    {
      closed := true;
    }
  }

  /** The client process the server launched. */
  class Subprocess {
    /** The status the process exits with. */
    const exitCode: int
    var returncode: Option<int>

    constructor (exitCode: int)
      ensures this.exitCode == exitCode && returncode.None?
    {
      this.exitCode := exitCode;
      returncode := None;
    }

    /** proc.wait() */
    method Wait() returns (code: int)
      modifies this`returncode
      ensures code == exitCode && returncode == Some(exitCode)
    {
      code := exitCode;
      returncode := Some(exitCode);
    }
  }

  // ---------------------------------------------------------------------
  // The server
  // ---------------------------------------------------------------------

  class IPIServer {
    const endpoint: Endpoint
    const listener: Listener
    const proc: Option<Subprocess>
    var closed: bool
    var ipi: Option<IPIProtocol>
    var clientsocket: Option<Socket>
    var address: Option<string>
    /** How many times _accept has established a connection. */
    ghost var accepts: nat

    /** The accepted client socket, if any, as a frame. */
    ghost function Client(): set<Socket>
      reads this
    {
      if clientsocket.Some? then {clientsocket.value} else {}
    }

    /** A protocol object exists only on top of the open accepted socket,
        and a closed server has none; only the first accept connects. */
    ghost predicate Consistent()
      reads this, Client()
    {
      (ipi.Some? ==> clientsocket.Some? && ipi.value.socket == clientsocket.value
                     && !clientsocket.value.closed && address.Some?)
      && (closed ==> ipi.None?)
      && (!closed && ipi.None? ==> clientsocket.None?)
      && accepts == (if clientsocket.Some? then 1 else 0)
    }

    ghost predicate Valid()
      reads this, listener, Conns(listener.attempts), Client()
    {
      listener.Valid() && Consistent()
    }

    /** __init__ after the endpoint check: nothing accepted yet. */
    constructor (endpoint: Endpoint, listener: Listener, proc: Option<Subprocess>)
      requires listener.Valid()
      ensures Valid() && !closed && ipi.None? && clientsocket.None? && address.None?
      ensures this.endpoint == endpoint && this.listener == listener && this.proc == proc
    {
      this.endpoint := endpoint;
      this.listener := listener;
      this.proc := proc;
      closed := false;
      ipi, clientsocket, address := None, None, None;
      accepts := 0;
    }

    /** _accept: wait until a client connects; with a launched subprocess
        each timeout polls it and a dead subprocess is an error. */
    method Accept() returns (r: Result<(), IpiError>)
      requires Valid() && !closed && ipi.None? && clientsocket.None?
      requires AcceptEnds(listener.attempts, proc.Some?)
      modifies this, listener`attempts
      ensures listener.Valid() && Consistent()
      ensures closed == old(closed) && listener.closed == old(listener.closed)
      ensures var i := FirstDecisive(old(listener.attempts), proc.Some?);
              var a := old(listener.attempts)[i];
              listener.attempts == old(listener.attempts)[i + 1..]
              && (a.TimedOut? ==> r == Err(SubprocessTerminated(a.poll.value))
                                  && ipi.None? && clientsocket.None? && accepts == old(accepts))
              && (a.Connected? ==> r.Ok? && clientsocket == Some(a.conn) && address == Some(a.address)
                                   && ipi.Some? && ipi.value.socket == a.conn && accepts == old(accepts) + 1)
    {
      var a := listener.AwaitDecisive(proc.Some?);
      if a.Connected? {
        var protocol := new IPIProtocol(a.conn);
        clientsocket, address, ipi := Some(a.conn), Some(a.address), Some(protocol);
        accepts := accepts + 1;
        r := Ok(());
      } else {
        r := Err(SubprocessTerminated(a.poll.value));
      }
    }

    /** close: once only; drops the protocol, closes the client socket,
        waits for the subprocess (a nonzero exit is only a warning, returned
        here) and closes the listener. */
    method Close() returns (warning: Option<int>)
      requires Consistent()
      modifies this`closed, this`ipi, listener`closed
      modifies Client()
      modifies if proc.Some? then {proc.value} else {}
      ensures Consistent() && closed && ipi.None?
      ensures old(closed) ==> warning.None? && listener.closed == old(listener.closed)
      ensures old(closed) && proc.Some? ==> proc.value.returncode == old(proc.value.returncode)
      ensures !old(closed) ==> listener.closed
      ensures !old(closed) && proc.Some? ==> proc.value.returncode == Some(proc.value.exitCode)
      ensures !old(closed) ==> warning == (if proc.Some? && proc.value.exitCode != 0 then Some(proc.value.exitCode) else None)
      ensures clientsocket.Some? ==>
                clientsocket.value.closeCount == old(clientsocket.value.closeCount) + (if old(closed) then 0 else 1)
      ensures clientsocket.Some? ==> clientsocket.value.closed == (old(clientsocket.value.closed) || !old(closed))
      ensures clientsocket.Some? ==> clientsocket.value.incoming == old(clientsocket.value.incoming)
                                     && clientsocket.value.outgoing == old(clientsocket.value.outgoing)
    {
      warning := None;
      if closed {
        return;
      }
      closed := true;
      ipi := None;
      if clientsocket.Some? {
        clientsocket.value.Close();
      }
      if proc.Some? {
        var exitcode := proc.value.Wait();
        if exitcode != 0 {
          warning := Some(exitcode);
        }
      }
      listener.Close();
    }

    /** calculate: refused once closed; the first call accepts the client,
        later ones reuse the connection; then one IPIProtocol.calculate. */
    method Calculate(g: Geometry) returns (r: Result<CalcResult, IpiError>)
      requires Consistent() && (!closed ==> Valid())
      requires !closed && ipi.None? ==> AcceptEnds(listener.attempts, proc.Some?)
      modifies this, listener`attempts, Conns(listener.attempts), Client()
      ensures old(closed) ==> r == Err(ServerClosed) && unchanged(this) && listener.attempts == old(listener.attempts)
      ensures old(closed) ==> unchanged(Client()) && unchanged(Conns(listener.attempts))
      ensures !old(closed) && old(ipi).Some? ==>
                clientsocket == old(clientsocket) && address == old(address)
                && old(ipi).value.socket.closed == old(ipi.value.socket.closed)
                && old(ipi).value.socket.closeCount == old(ipi.value.socket.closeCount)
                && forall c :: c in Conns(old(listener.attempts)) && c != old(ipi).value.socket ==> unchanged(c)
      ensures closed == old(closed) && (!closed ==> Valid())
      ensures !old(closed) && old(ipi).Some? ==>
                ipi == old(ipi) && accepts == old(accepts) && listener.attempts == old(listener.attempts)
                && WithRest(r, ipi.value.socket.incoming) == ServerExchange(old(ipi.value.socket.incoming), g)
                && ipi.value.socket.outgoing == old(ipi.value.socket.outgoing) + ServerSent(old(ipi.value.socket.incoming), g)
      ensures !old(closed) && old(ipi).None? ==>
                var i := FirstDecisive(old(listener.attempts), proc.Some?);
                var a := old(listener.attempts)[i];
                listener.attempts == old(listener.attempts)[i + 1..]
                && (a.TimedOut? ==> r == Err(SubprocessTerminated(a.poll.value)) && ipi.None?)
                && (a.TimedOut? ==> unchanged(Conns(old(listener.attempts))))
                && (a.Connected? ==> ipi.Some? && ipi.value.socket == a.conn && accepts == 1
                                     && clientsocket == Some(a.conn) && address == Some(a.address)
                                     && a.conn.closed == old(a.conn.closed) && a.conn.closeCount == old(a.conn.closeCount)
                                     && (forall c :: c in Conns(old(listener.attempts)) && c != a.conn ==> unchanged(c))
                                     && WithRest(r, a.conn.incoming) == ServerExchange(old(a.conn.incoming), g)
                                     && a.conn.outgoing == old(a.conn.outgoing) + ServerSent(old(a.conn.incoming), g))
    {
      if closed {
        return Err(ServerClosed);
      }
      if ipi.None? {
        ghost var attempts := listener.attempts;
        ghost var i := FirstDecisive(attempts, proc.Some?);
        assert attempts[i].Connected? ==> attempts[i].conn in Conns(attempts);
        var accepted := Accept();
        if accepted.Err? {
          return Err(accepted.error);
        }
      }
      var protocol := ipi.value;
      r := protocol.Calculate(g);
    }
  }

  // ---------------------------------------------------------------------
  // IPICalculator's change guard
  // ---------------------------------------------------------------------

  /** IPICalculator.ipi_supported_changes */
  const SupportedChanges: set<string> := {"positions", "cell"}

  /** The changes the protocol cannot carry. */
  function BadChanges(changes: seq<string>): (bad: seq<string>)
    ensures forall c :: c in bad <==> c in changes && c !in SupportedChanges
    ensures |bad| <= |changes|
  {
    if changes == [] then []
    else
      var rest := BadChanges(changes[1..]);
      assert forall c :: c in changes <==> c == changes[0] || c in changes[1..];
      if changes[0] in SupportedChanges then rest else [changes[0]] + rest
  }

  /** Python's any() over a list of strings: some string is non-empty. */
  predicate AnyTruthy(xs: seq<string>) {
    exists i :: 0 <= i < |xs| && xs[i] != []
  }

  class IPICalculator {
    var initialized: bool

    constructor ()
      ensures !initialized
    {
      initialized := false;
    }

    /** The guard at the top of calculate: once initialised, a change other
        than positions or cell is refused; otherwise the calculator counts
        as initialised from now on. */
    method CheckChanges(systemChanges: seq<string>) returns (r: Result<(), IpiError>)
      modifies this`initialized
      ensures r.Err? <==> old(initialized) && AnyTruthy(BadChanges(systemChanges))
      ensures r.Err? ==> r.error == CannotChange(BadChanges(systemChanges)) && initialized == old(initialized)
      ensures r.Ok? ==> initialized
    {
      var bad := BadChanges(systemChanges);
      if initialized && AnyTruthy(bad) {
        return Err(CannotChange(bad));
      }
      initialized := true;
      r := Ok(());
    }
  }
}
