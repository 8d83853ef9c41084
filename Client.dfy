/** IPIClient (ase/calculators/ipi.py:327-392): the reactive half of the
    protocol. Its message loop is specified by ClientRun, a pure function of
    the bytes the server sends; IPIClient.IRun is the loop itself. */
module Client {
  import opened Wrappers
  import opened Wire
  import opened Messages
  import opened Sockets
  import opened Protocol

  /** The client's state; the source keeps it as the reply token itself. */
  datatype ClientState = Ready | HaveData {
    function Token(): (t: string)
      ensures t in Responses
    {
      match this
      case Ready => "READY"
      case HaveData => "HAVEDATA"
    }
  }

  /** What the injected calculator reports for a geometry: energy, forces and
      the virial it derives from its stress. */
  datatype Evaluation = Evaluation(energy: F64, forces: seq<F64>, virial: seq<F64>)

  /** The 3x3 zero virial used when stress is not requested. */
  const ZeroVirial: seq<F64> := seq(9, _ => Zero)

  /** The POSDATA branch's evaluation: the virial comes from the calculator
      only when use_stress is set. */
  function Evaluate(engine: Geometry -> Evaluation, useStress: bool, g: Geometry): (ev: Evaluation)
    ensures ev.energy == engine(g).energy && ev.forces == engine(g).forces
    ensures useStress ==> ev.virial == engine(g).virial
    ensures !useStress ==> ev.virial == ZeroVirial
  {
    var e := engine(g);
    Evaluation(e.energy, e.forces, if useStress then e.virial else ZeroVirial)
  }

  /** GETFORCE's reply: sendforce(energy, forces, virial) with no extra bytes. */
  function Reply(ev: Evaluation): ForceReply {
    ForceReply(ev.energy, ev.forces, ev.virial, [])
  }

  /** How a run of the message loop ends, what it wrote, and its last state. */
  datatype Session = Session(outcome: Result<(), IpiError>, output: seq<Byte>, final: ClientState)

  /** One pass of the message loop: either it goes on from a new state with
      the rest of the stream, having written `emitted`, or the loop ends. */
  datatype Step =
    | Continue(state: ClientState, cache: Option<Evaluation>, rest: seq<Byte>, emitted: seq<Byte>)
    | Stop(outcome: Result<(), IpiError>)

  /** One message of irun. A closed stream while awaiting a token and EXIT
      end the loop cleanly; STATUS replies with the state; POSDATA needs
      READY and moves to HAVEDATA; GETFORCE needs HAVEDATA and moves back to
      READY; any other token is skipped. */
  function ClientStep(state: ClientState, cache: Option<Evaluation>, input: seq<Byte>,
                      engine: Geometry -> Evaluation, useStress: bool): (s: Step)
    requires state == HaveData ==> cache.Some?
    ensures s.Continue? ==> |s.rest| <= |input| - TokenLength && (s.state == HaveData ==> s.cache.Some?)
  {
    match ReadToken(input)
    case Err(e) => Stop(if e == SocketClosed then Ok(()) else Err(e))
    case Ok(t) => Dispatch(state, cache, t.0, t.1, engine, useStress)
  }

  /** What irun does with one command `msg`, the stream continuing with `rest`. */
  function Dispatch(state: ClientState, cache: Option<Evaluation>, msg: string, rest: seq<Byte>,
                    engine: Geometry -> Evaluation, useStress: bool): (s: Step)
    requires state == HaveData ==> cache.Some?
    ensures s.Continue? ==> |s.rest| <= |rest| && (s.state == HaveData ==> s.cache.Some?)
  {
    if msg == "EXIT" then
      Stop(Ok(()))
    else if msg == "STATUS" then
      Continue(state, cache, rest, EncodeToken(state.Token()))
    else if msg == "POSDATA" then
      if state != Ready then Stop(Err(IllegalCommand(msg, state.Token())))
      else
        match ReadPosData(rest)
        case Err(e) => Stop(Err(e))
        case Ok(p) => Continue(HaveData, Some(Evaluate(engine, useStress, p.0)), p.1, [])
    else if msg == "GETFORCE" then
      if state != HaveData then Stop(Err(IllegalCommand(msg, state.Token())))
      else if !ForceShapesOk(cache.value.forces, cache.value.virial) then Stop(Err(BadShape))
      else Continue(Ready, cache, rest, ForceMessage(Reply(cache.value)))
    else
      Continue(state, cache, rest, [])
  }

  /** The whole of irun over everything the server sends: ClientStep until
      the loop ends. */
  function ClientRun(state: ClientState, cache: Option<Evaluation>, input: seq<Byte>,
                     engine: Geometry -> Evaluation, useStress: bool): Session
    requires state == HaveData ==> cache.Some?
    decreases |input|
  {
    match ClientStep(state, cache, input, engine, useStress)
    case Stop(outcome) => Session(outcome, [], state)
    case Continue(next, nextCache, rest, emitted) =>
      var s := ClientRun(next, nextCache, rest, engine, useStress);
      Session(s.outcome, emitted + s.output, s.final)
  }

  /** ClientRun after one step that goes on: the step's output, then the rest. */
  lemma RunContinues(state: ClientState, cache: Option<Evaluation>, input: seq<Byte>,
                     engine: Geometry -> Evaluation, useStress: bool)
    requires state == HaveData ==> cache.Some?
    requires ClientStep(state, cache, input, engine, useStress).Continue?
    ensures var s := ClientStep(state, cache, input, engine, useStress);
            var t := ClientRun(s.state, s.cache, s.rest, engine, useStress);
            ClientRun(state, cache, input, engine, useStress) == Session(t.outcome, s.emitted + t.output, t.final)
  {
  }

  /** ClientRun after a step that ends the loop: its outcome, nothing more written. */
  lemma RunStops(state: ClientState, cache: Option<Evaluation>, input: seq<Byte>,
                 engine: Geometry -> Evaluation, useStress: bool)
    requires state == HaveData ==> cache.Some?
    requires ClientStep(state, cache, input, engine, useStress).Stop?
    ensures ClientRun(state, cache, input, engine, useStress)
            == Session(ClientStep(state, cache, input, engine, useStress).outcome, [], state)
  {
  }

  /** Both peers' tokens read back as themselves. */
  lemma ReadCommand(t: string, rest: seq<Byte>)
    requires t in Statements + Responses
    ensures ReadToken(EncodeToken(t) + rest) == Ok((t, rest))
  {
    VocabularyIsWireTokens(t);
    ReadTokenOfEncoded(t, rest);
  }

  /** The peer closing between messages, even partway through a token, is
      a clean end of irun. */
  lemma CloseBetweenMessagesIsClean(state: ClientState, cache: Option<Evaluation>, input: seq<Byte>,
                                    engine: Geometry -> Evaluation, useStress: bool)
    requires state == HaveData ==> cache.Some?
    requires |input| < TokenLength
    ensures ClientRun(state, cache, input, engine, useStress) == Session(Ok(()), [], state)
  {
  }

  /** EXIT ends irun cleanly, whatever follows and whatever the state. */
  lemma ExitEndsCleanly(state: ClientState, cache: Option<Evaluation>, rest: seq<Byte>,
                        engine: Geometry -> Evaluation, useStress: bool)
    requires state == HaveData ==> cache.Some?
    ensures ClientRun(state, cache, EncodeToken("EXIT") + rest, engine, useStress) == Session(Ok(()), [], state)
  {
    ReadCommand("EXIT", rest);
  }

  /** STATUS is answered with the current state and changes nothing. */
  lemma StatusRepliesState(state: ClientState, cache: Option<Evaluation>, rest: seq<Byte>,
                           engine: Geometry -> Evaluation, useStress: bool)
    requires state == HaveData ==> cache.Some?
    ensures var t := ClientRun(state, cache, rest, engine, useStress);
            ClientRun(state, cache, EncodeToken("STATUS") + rest, engine, useStress)
            == Session(t.outcome, EncodeToken(state.Token()) + t.output, t.final)
  {
    ReadCommand("STATUS", rest);
  }

  /** POSDATA in state READY reads the geometry, evaluates it and moves to
      HAVEDATA without replying. */
  lemma PosDataEvaluates(cache: Option<Evaluation>, g: Geometry, rest: seq<Byte>,
                         engine: Geometry -> Evaluation, useStress: bool)
    requires Sendable(g)
    ensures ClientRun(Ready, cache, PosDataMessage(g) + rest, engine, useStress)
            == ClientRun(HaveData, Some(Evaluate(engine, useStress, g)), rest, engine, useStress)
  {
    var input := PosDataMessage(g) + rest;
    Append2(EncodeToken("POSDATA"), PosDataPayload(g), rest);
    ReadCommand("POSDATA", PosDataPayload(g) + rest);
    PosDataRoundTrip(g, rest);
    assert ClientStep(Ready, cache, input, engine, useStress)
        == Continue(HaveData, Some(Evaluate(engine, useStress, g)), rest, []);
    RunContinues(Ready, cache, input, engine, useStress);
  }

  /** POSDATA while holding unsent results is a protocol violation. */
  lemma PosDataWhenHaveDataIsIllegal(cache: Option<Evaluation>, rest: seq<Byte>,
                                     engine: Geometry -> Evaluation, useStress: bool)
    requires cache.Some?
    ensures ClientRun(HaveData, cache, EncodeToken("POSDATA") + rest, engine, useStress)
            == Session(Err(IllegalCommand("POSDATA", "HAVEDATA")), [], HaveData)
  {
    ReadCommand("POSDATA", rest);
  }

  /** The peer closing anywhere inside a POSDATA message it began is an
      error, unlike a close between messages. */
  lemma CloseMidPosDataFails(cache: Option<Evaluation>, g: Geometry, k: nat,
                             engine: Geometry -> Evaluation, useStress: bool)
    requires Sendable(g) && k < |PosDataPayload(g)|
    ensures ClientRun(Ready, cache, EncodeToken("POSDATA") + PosDataPayload(g)[..k], engine, useStress)
            == Session(Err(SocketClosed), [], Ready)
  {
    ReadCommand("POSDATA", PosDataPayload(g)[..k]);
    PosDataPrefix(g, k);
  }

  /** Whatever bytes arrive, fewer than the 72 of a cell after POSDATA end
      the session with an error. */
  lemma CloseMidCellFails(cache: Option<Evaluation>, partial: seq<Byte>,
                             engine: Geometry -> Evaluation, useStress: bool)
    requires |partial| < 8 * 9
    ensures ClientRun(Ready, cache, EncodeToken("POSDATA") + partial, engine, useStress)
            == Session(Err(SocketClosed), [], Ready)
  {
    ReadCommand("POSDATA", partial);
    assert NonNegative([3, 3]) && Product([3, 3]) == 9;
    assert ReadBytes(partial, 72) == Err(SocketClosed);
    assert ReadFloats(partial, [3, 3]) == Err(SocketClosed);
  }

  /** GETFORCE in HAVEDATA sends the cached results and returns to READY. */
  lemma GetForceSendsResults(ev: Evaluation, rest: seq<Byte>,
                             engine: Geometry -> Evaluation, useStress: bool)
    requires ForceShapesOk(ev.forces, ev.virial)
    ensures var t := ClientRun(Ready, Some(ev), rest, engine, useStress);
            ClientRun(HaveData, Some(ev), EncodeToken("GETFORCE") + rest, engine, useStress)
            == Session(t.outcome, ForceMessage(Reply(ev)) + t.output, t.final)
  {
    ReadCommand("GETFORCE", rest);
  }

  /** GETFORCE before any positions is a protocol violation. */
  lemma GetForceWhenReadyIsIllegal(cache: Option<Evaluation>, rest: seq<Byte>,
                                   engine: Geometry -> Evaluation, useStress: bool)
    ensures ClientRun(Ready, cache, EncodeToken("GETFORCE") + rest, engine, useStress)
            == Session(Err(IllegalCommand("GETFORCE", "READY")), [], Ready)
  {
    ReadCommand("GETFORCE", rest);
  }

  /** Any other well-formed token is skipped without a reply. */
  lemma UnknownTokenIgnored(t: string, state: ClientState, cache: Option<Evaluation>, rest: seq<Byte>,
                            engine: Geometry -> Evaluation, useStress: bool)
    requires IsWireToken(t) && t !in {"EXIT", "STATUS", "POSDATA", "GETFORCE"}
    requires state == HaveData ==> cache.Some?
    ensures ClientRun(state, cache, EncodeToken(t) + rest, engine, useStress)
            == ClientRun(state, cache, rest, engine, useStress)
  {
    ReadTokenOfEncoded(t, rest);
  }

  /** After the positions, irun answers STATUS with HAVEDATA and GETFORCE
      with the cached evaluation, then ends cleanly when the stream does. */
  lemma ClientAnswersForceRequest(ev: Evaluation, engine: Geometry -> Evaluation, useStress: bool)
    requires ForceShapesOk(ev.forces, ev.virial)
    ensures ClientRun(HaveData, Some(ev), EncodeToken("STATUS") + EncodeToken("GETFORCE"), engine, useStress)
            == Session(Ok(()), EncodeToken("HAVEDATA") + ForceMessage(Reply(ev)), Ready)
  {
    var getforce := EncodeToken("GETFORCE");
    StatusRepliesState(HaveData, Some(ev), getforce, engine, useStress);
    assert getforce == getforce + [];
    GetForceSendsResults(ev, [], engine, useStress);
    CloseBetweenMessagesIsClean(Ready, Some(ev), [], engine, useStress);
  }

  /** irun's replies to one calculate's requests: READY, HAVEDATA and the
      evaluation of the geometry, after which it is READY again. */
  lemma ClientAnswersCalculate(g: Geometry, ev: Evaluation, engine: Geometry -> Evaluation, useStress: bool)
    requires Sendable(g) && ev == Evaluate(engine, useStress, g) && ForceShapesOk(ev.forces, ev.virial)
    ensures ClientRun(Ready, None, CalcRequests(g), engine, useStress)
            == Session(Ok(()), EncodeToken("READY") + (EncodeToken("HAVEDATA") + ForceMessage(Reply(ev))), Ready)
  {
    var tail := EncodeToken("STATUS") + EncodeToken("GETFORCE");
    Append2(EncodeToken("STATUS"), PosDataMessage(g), tail);
    StatusRepliesState(Ready, None, PosDataMessage(g) + tail, engine, useStress);
    PosDataEvaluates(None, g, tail, engine, useStress);
    ClientAnswersForceRequest(ev, engine, useStress);
  }

  /** The server's side of one calculate reads those replies back as the
      evaluation itself, with no extra bytes. */
  lemma ServerReadsAnswers(g: Geometry, ev: Evaluation)
    requires PosShapesOk(g) && Returnable(Reply(ev))
    ensures var output := EncodeToken("READY") + (EncodeToken("HAVEDATA") + ForceMessage(Reply(ev)));
            ServerExchange(output, g) == Ok((CalcResult(ev.energy, ev.forces, ev.virial, None), []))
  {
    var reply := ForceMessage(Reply(ev));
    ReadCommand("READY", EncodeToken("HAVEDATA") + reply);
    ReadCommand("HAVEDATA", reply);
    assert reply == reply + [];
    ForceRoundTrip(Reply(ev), []);
  }

  /** One calculate against irun: the server reads back exactly the
      client's evaluation of the geometry and has sent all of its requests,
      and the client is READY again. */
  lemma CalculateAgainstClient(g: Geometry, engine: Geometry -> Evaluation, useStress: bool)
    requires Sendable(g) && Returnable(Reply(Evaluate(engine, useStress, g)))
    ensures var run := ClientRun(Ready, None, CalcRequests(g), engine, useStress);
            var ev := Evaluate(engine, useStress, g);
            run.outcome == Ok(()) && run.final == Ready
            && ServerExchange(run.output, g) == Ok((CalcResult(ev.energy, ev.forces, ev.virial, None), []))
            && ServerSent(run.output, g) == CalcRequests(g)
  {
    var run := ClientRun(Ready, None, CalcRequests(g), engine, useStress);
    ClientAnswersCalculate(g, Evaluate(engine, useStress, g), engine, useStress);
    ServerReadsAnswers(g, Evaluate(engine, useStress, g));
    SuccessSendsAllRequests(run.output, g);
  }

  class IPIClient {
    const ipi: IPIProtocol
    var closed: bool
    var state: ClientState

    /** closed mirrors whether the socket has been closed. */
    ghost predicate Valid()
      reads this, ipi.socket
    {
      closed == ipi.socket.closed
    }

    /** __init__, given the connected socket. */
    constructor (sock: Socket)
      requires !sock.closed
      ensures Valid() && ipi.socket == sock && !closed && state == Ready
    {
      ipi := new IPIProtocol(sock);
      closed := false;
      state := Ready;
    }

    /** close: the closed flag guards the socket, so it is closed once. */
    method Close()
      requires Valid()
      modifies this`closed, ipi.socket`closed, ipi.socket`closeCount
      ensures Valid() && closed
      ensures ipi.socket.closeCount == old(ipi.socket.closeCount) + (if old(closed) then 0 else 1)
    {
      if !closed {
        closed := true;
        ipi.socket.Close();
      }
    }

    /** One pass of irun's loop body; `more` says whether the loop goes on.
        A clean end closes the client, as irun does before returning. */
    method Serve(cache: Option<Evaluation>, engine: Geometry -> Evaluation, useStress: bool)
      returns (more: bool, nextCache: Option<Evaluation>, r: Result<(), IpiError>)
      requires Valid() && !closed
      requires state == HaveData ==> cache.Some?
      modifies this, ipi.socket
      ensures Valid()
      ensures var s := ClientStep(old(state), cache, old(ipi.socket.incoming), engine, useStress);
              more == s.Continue?
              && (more ==> !closed && state == s.state && nextCache == s.cache
                           && ipi.socket.incoming == s.rest
                           && ipi.socket.outgoing == old(ipi.socket.outgoing) + s.emitted)
              && (!more ==> r == s.outcome && state == old(state)
                            && ipi.socket.outgoing == old(ipi.socket.outgoing))
      ensures var t := ReadToken(old(ipi.socket.incoming));
              closed <==> t == Err(SocketClosed) || (t.Ok? && t.value.0 == "EXIT")
      ensures closed <==> !more && r.Ok?
      ensures ipi.socket.closeCount == old(ipi.socket.closeCount) + (if closed then 1 else 0)
    {
      nextCache := cache;
      r := Ok(());
      var m := ipi.RecvMsg();
      if m.Err? {
        if m.error == SocketClosed {
          Close();
        } else {
          r := Err(m.error);
        }
        return false, nextCache, r;
      }
      more, nextCache, r := Handle(m.value, cache, engine, useStress);
    }

    /** The branches of irun's loop body for the command `msg`. */
    method Handle(msg: string, cache: Option<Evaluation>, engine: Geometry -> Evaluation, useStress: bool)
      returns (more: bool, nextCache: Option<Evaluation>, r: Result<(), IpiError>)
      requires Valid() && !closed
      requires state == HaveData ==> cache.Some?
      modifies this, ipi.socket
      ensures Valid()
      ensures var s := Dispatch(old(state), cache, msg, old(ipi.socket.incoming), engine, useStress);
              more == s.Continue?
              && (more ==> !closed && state == s.state && nextCache == s.cache
                           && ipi.socket.incoming == s.rest
                           && ipi.socket.outgoing == old(ipi.socket.outgoing) + s.emitted)
              && (!more ==> r == s.outcome && state == old(state)
                            && ipi.socket.outgoing == old(ipi.socket.outgoing))
      ensures closed <==> msg == "EXIT"
      ensures ipi.socket.closeCount == old(ipi.socket.closeCount) + (if closed then 1 else 0)
    {
      nextCache := cache;
      r := Ok(());
      more := true;
      if msg == "EXIT" {
        Close();
        more := false;
      } else if msg == "STATUS" {
        ipi.SendMsg(state.Token());
      } else if msg == "POSDATA" {
        if state != Ready {
          return false, nextCache, Err(IllegalCommand(msg, state.Token()));
        }
        var g := ipi.RecvPosData();
        if g.Err? {
          return false, nextCache, Err(g.error);
        }
        nextCache := Some(Evaluate(engine, useStress, g.value));
        state := HaveData;
      } else if msg == "GETFORCE" {
        if state != HaveData {
          return false, nextCache, Err(IllegalCommand(msg, state.Token()));
        }
        var ev := cache.value;
        var sent := ipi.SendForce(ev.energy, ev.forces, ev.virial, []);
        if sent.Err? {
          return false, nextCache, Err(sent.error);
        }
        state := Ready;
      }
    }

    /** irun: serve the server's commands until EXIT or the stream ends; the
        socket is closed on every path. */
    method IRun(engine: Geometry -> Evaluation, useStress: bool) returns (r: Result<(), IpiError>)
      requires Valid() && !closed && state == Ready
      modifies this, ipi.socket
      ensures Valid() && closed
      ensures ipi.socket.closeCount == old(ipi.socket.closeCount) + 1
      ensures var run := ClientRun(Ready, None, old(ipi.socket.incoming), engine, useStress);
              r == run.outcome && state == run.final
              && ipi.socket.outgoing == old(ipi.socket.outgoing) + run.output
    {
      var cache: Option<Evaluation> := None;
      ghost var run := ClientRun(Ready, None, ipi.socket.incoming, engine, useStress);
      ghost var tail := run;
      while true
        invariant Valid() && !closed
        invariant ipi.socket.closeCount == old(ipi.socket.closeCount)
        invariant state == HaveData ==> cache.Some?
        invariant tail == ClientRun(state, cache, ipi.socket.incoming, engine, useStress)
        invariant tail.outcome == run.outcome && tail.final == run.final
        invariant old(ipi.socket.outgoing) + run.output == ipi.socket.outgoing + tail.output
        decreases |ipi.socket.incoming|
      {
        ghost var sent, input, st, c := ipi.socket.outgoing, ipi.socket.incoming, state, cache;
        var more;
        more, cache, r := Serve(cache, engine, useStress);
        if !more {
          RunStops(st, c, input, engine, useStress);
          break;
        }
        RunContinues(st, c, input, engine, useStress);
        ghost var emitted := ipi.socket.outgoing[|sent|..];
        assert ipi.socket.outgoing == sent + emitted;
        tail := ClientRun(state, cache, ipi.socket.incoming, engine, useStress);
        Append2(sent, emitted, tail.output);
      }
      Close();
    }
  }
}
