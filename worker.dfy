/**
 * parallelUserExecution of workgen.go, with its two channels turned into
 * method calls: a worker buffers the commands of one user in arrival order
 * and, once started, replays them in that order and stops.
 */
module Worker {
  import opened Registry
  import opened Encoder

  /** One request as it leaves the program: a TCP line or an HTTP form. */
  datatype Request = Tcp(payload: string) | Http(form: Form)

  /** Over HTTP a record needs all the fields its command names, and a transaction after them. */
  predicate Sendable(c: Command, useTcp: bool) {
    useTcp || |c.values| >= Arity(c) + 2
  }

  /** Every record of a buffer can be sent. */
  predicate AllSendable(lines: seq<Command>, useTcp: bool) {
    forall j :: 0 <= j < |lines| ==> Sendable(lines[j], useTcp)
  }

  /**
   * The request one replayed record becomes: its raw command string through
   * generateTCPRequest, or its form through generateHTTPRequests.
   */
  function Send(c: Command, useTcp: bool, useNum: bool): (r: Request)
    requires Sendable(c, useTcp)
    ensures r.Tcp? <==> useTcp
    ensures r.Tcp? ==> r.payload == TcpPayload(c.rawCommandString)
    ensures r.Http? ==> r.form.Keys == FormKeys(c) && r.form["command"] == [c.values[0]]
  {
    if useTcp then Tcp(TcpPayload(c.rawCommandString))
    else
      FormShape(c, useNum);
      Http(ExpectedForm(c, useNum))
  }

  /** The requests a buffer becomes, one per record, in buffer order. */
  function Replay(lines: seq<Command>, useTcp: bool, useNum: bool): (sent: seq<Request>)
    requires AllSendable(lines, useTcp)
    ensures |sent| == |lines|
    ensures forall j :: 0 <= j < |lines| ==> sent[j] == Send(lines[j], useTcp, useNum)
  {
    seq(|lines|, j requires 0 <= j < |lines| => Send(lines[j], useTcp, useNum))
  }

  /** Replaying a buffer that grew by one record sends one more request, at the end. */
  lemma ReplaySnoc(lines: seq<Command>, c: Command, useTcp: bool, useNum: bool)
    requires AllSendable(lines, useTcp)
    requires Sendable(c, useTcp)
    ensures Replay(lines + [c], useTcp, useNum) == Replay(lines, useTcp, useNum) + [Send(c, useTcp, useNum)]
  {
    var l := lines + [c];
    assert AllSendable(l, useTcp);
  }

  /**
   * One request of the replay: generateTCPRequest on the raw command string,
   * or generateHTTPRequests, which encodes the record through a pointer to a
   * copy of it (the loop variable of the source).
   */
  method Transmit(item: Command, useTcp: bool, useNum: bool) returns (r: Request)
    requires Sendable(item, useTcp)
    ensures r == Send(item, useTcp, useNum)
  {
    if useTcp {
      r := Tcp(TcpPayload(item.rawCommandString));
    } else {
      var cell := new CommandRef(item);
      var form := GenerateMapFromCommand(cell, useNum);
      r := Http(form);
    }
  }

  /** Where a worker is: collecting commands, replaying them, or finished. */
  datatype WorkerState = Buffering | Releasing | Done

  /** One goroutine of parallelUserExecution: its `lines` buffer and where it is. */
  class UserWorker {
    var lines: seq<Command>
    var state: WorkerState

    constructor()
      ensures lines == [] && state == Buffering
    {
      lines := [];
      state := Buffering;
    }

    /** A command arrives on the input channel: it goes to the end of the buffer. */
    method Receive(msg: Command)
      requires state == Buffering
      modifies this
      ensures lines == old(lines) + [msg] && state == Buffering
    {
      lines := lines + [msg];
    }

    /**
     * The start signal arrives: every buffered command is sent, in buffer
     * order, and the worker stops.
     */
    method Start(useTcp: bool, useNum: bool) returns (sent: seq<Request>)
      requires state == Buffering
      requires AllSendable(lines, useTcp)
      modifies this
      ensures state == Done && lines == old(lines)
      ensures sent == Replay(lines, useTcp, useNum)
    {
      state := Releasing;
      sent := [];
      var i := 0;
      while i < |lines|
        invariant 0 <= i <= |lines| && state == Releasing && lines == old(lines)
        invariant |sent| == i
        invariant forall j :: 0 <= j < i ==> sent[j] == Send(lines[j], useTcp, useNum)
      {
        var r := Transmit(lines[i], useTcp, useNum);
        sent := sent + [r];
        i := i + 1;
      }
      state := Done;
    }
  }
}
