/**
 * The sequential branch of workgen.go's main loop (every mode but the
 * parallel one): each line is sent as soon as it is read, over TCP as it
 * stands, or over HTTP once parsed, a refused line being dropped.
 */
module Dispatch {
  import opened Parser
  import opened Encoder
  import opened Worker

  /**
   * An outcome the HTTP branch can handle without a panic: a refused line,
   * or a record with the fields that generateMapFromCommand pops. A panic
   * of parseLine is not one.
   */
  predicate HttpSendable(o: ParseOutcome) {
    o.Rejected? || (o.Parsed? && Sendable(o.cmd, false))
  }

  predicate AllHttpSendable(outcomes: seq<ParseOutcome>) {
    forall i :: 0 <= i < |outcomes| ==> HttpSendable(outcomes[i])
  }

  /** What generateHTTPRequests sends for one outcome of parseLine: a form for a record, nothing for nil. */
  function HttpOf(o: ParseOutcome, useNum: bool): (r: seq<Request>)
    requires HttpSendable(o)
    ensures |r| == (if o.Parsed? then 1 else 0)
    ensures forall j :: 0 <= j < |r| ==> r[j].Http?
  {
    if o.Parsed? then [Send(o.cmd, false, useNum)] else []
  }

  /**
   * The requests generateHTTPRequests sends for the parsed lines of a
   * script, in script order.
   */
  function HttpRequests(outcomes: seq<ParseOutcome>, useNum: bool): (r: seq<Request>)
    requires AllHttpSendable(outcomes)
    ensures forall j :: 0 <= j < |r| ==> r[j].Http?
  {
    if |outcomes| == 0 then []
    else
      var init := outcomes[..|outcomes| - 1];
      assert AllHttpSendable(init);
      HttpRequests(init, useNum) + HttpOf(outcomes[|outcomes| - 1], useNum)
  }

  /** How many outcomes are records. */
  function ParsedCount(outcomes: seq<ParseOutcome>): (n: nat)
    ensures n <= |outcomes|
    ensures n == |outcomes| <==> forall i :: 0 <= i < |outcomes| ==> outcomes[i].Parsed?
  {
    if |outcomes| == 0 then 0
    else ParsedCount(outcomes[..|outcomes| - 1]) + (if outcomes[|outcomes| - 1].Parsed? then 1 else 0)
  }

  /** What `f` makes of each line of a script, in script order. */
  function EachLine<T>(script: seq<string>, f: string -> T): (r: seq<T>)
    ensures |r| == |script|
    ensures forall i :: 0 <= i < |script| ==> r[i] == f(script[i])
  {
    if |script| == 0 then []
    else EachLine(script[..|script| - 1], f) + [f(script[|script| - 1])]
  }

  /**
   * Over HTTP one request is sent per line that parses, and every request
   * is an HTTP form: a refused line sends nothing.
   */
  lemma {:induction false} HttpSendsParsedLines(outcomes: seq<ParseOutcome>, useNum: bool)
    requires AllHttpSendable(outcomes)
    ensures var sent := HttpRequests(outcomes, useNum);
      |sent| == ParsedCount(outcomes) && forall j :: 0 <= j < |sent| ==> sent[j].Http?
  {
    if |outcomes| > 0 {
      var init := outcomes[..|outcomes| - 1];
      assert AllHttpSendable(init);
      HttpSendsParsedLines(init, useNum);
    }
  }

  /** Over HTTP a script in which every line parses sends the form of each record, in script order. */
  lemma {:induction false} HttpSendsEveryRecord(outcomes: seq<ParseOutcome>, useNum: bool)
    requires AllHttpSendable(outcomes)
    requires forall i :: 0 <= i < |outcomes| ==> outcomes[i].Parsed?
    ensures var sent := HttpRequests(outcomes, useNum);
      |sent| == |outcomes| && forall i :: 0 <= i < |outcomes| ==> sent[i] == Send(outcomes[i].cmd, false, useNum)
  {
    if |outcomes| > 0 {
      var init := outcomes[..|outcomes| - 1];
      assert AllHttpSendable(init);
      HttpSendsEveryRecord(init, useNum);
    }
  }

  /** What generateTCPRequest sends for one line: a raw line ending in a newline. */
  function TcpLine(line: string): (r: Request)
    ensures r.Tcp? && |r.payload| >= 1 && r.payload[|r.payload| - 1] == '\n'
  {
    Tcp(TcpPayload(line))
  }

  /**
   * The scanner loop of main outside parallel mode: each line is handed to
   * `send` as soon as it is read, and what it makes of the line is
   * collected in script order.
   */
  method ScanLines<T>(script: seq<string>, send: string -> T) returns (sent: seq<T>)
    ensures sent == EachLine(script, send)
  {
    sent := [];
    for i := 0 to |script|
      invariant sent == EachLine(script[..i], send)
    {
      assert script[..i + 1][..i] == script[..i];
      sent := sent + [send(script[i])];
    }
    assert script[..|script|] == script;
  }

  /** The scanner loop over TCP: each line is sent as it is read, stripped of its brackets, one request per line. */
  method SequentialTcp(script: seq<string>) returns (sent: seq<Request>)
    ensures sent == EachLine(script, TcpLine)
  {
    sent := ScanLines(script, TcpLine);
  }

  /** The outcomes of one line more send what that line sends after the rest. */
  lemma HttpRequestsStep(outcomes: seq<ParseOutcome>, i: nat, useNum: bool)
    requires AllHttpSendable(outcomes) && i < |outcomes|
    ensures AllHttpSendable(outcomes[..i]) && AllHttpSendable(outcomes[..i + 1])
    ensures HttpRequests(outcomes[..i + 1], useNum) == HttpRequests(outcomes[..i], useNum) + HttpOf(outcomes[i], useNum)
  {
    assert outcomes[..i + 1][..i] == outcomes[..i];
  }

  /**
   * The scanner loop over HTTP, for a given line parser: each line is
   * parsed as it is read and, when it yields a record, the record's form is
   * sent; a refused line sends nothing.
   */
  method ScanHttp(script: seq<string>, parse: string -> ParseOutcome, useNum: bool) returns (sent: seq<Request>)
    requires AllHttpSendable(EachLine(script, parse))
    ensures sent == HttpRequests(EachLine(script, parse), useNum)
  {
    ghost var outcomes := EachLine(script, parse);
    sent := [];
    for i := 0 to |script|
      invariant sent == HttpRequests(outcomes[..i], useNum)
    {
      var outcome := parse(script[i]);
      HttpRequestsStep(outcomes, i, useNum);
      if outcome.Parsed? {
        var r := Transmit(outcome.cmd, false, useNum);
        sent := sent + [r];
      }
    }
    assert outcomes[..|script|] == outcomes;
  }

  /** The scanner loop over HTTP with parseLine as the parser. */
  method SequentialHttp(script: seq<string>, useNum: bool) returns (sent: seq<Request>)
    requires AllHttpSendable(EachLine(script, Parse))
    ensures sent == HttpRequests(EachLine(script, Parse), useNum)
  {
    sent := ScanHttp(script, Parse, useNum);
  }
}
