/**
 * The parallel mode of workgen.go's main loop, run one step at a time: each
 * parsed line goes to the worker of its user (values[1]), created on first
 * sight; a command named exactly "DUMPLOG" is kept aside instead, the last
 * one winning, and is sent only after every worker has replayed its buffer.
 */
module Routing {
  import opened Wrappers
  import opened Registry
  import opened Parser
  import opened Worker

  /** Go's zero `command`, which parallelDumplog holds until a DUMPLOG arrives. */
  const NoCommand: Command := Command("", "", false, false, false, [])

  /** What routing has built: the buffer of each user, and the command kept aside. */
  datatype Routed = Routed(buffers: map<string, seq<Command>>, dumplog: Command)

  const Initial: Routed := Routed(map[], NoCommand)

  /** One line of the loop in main, on the values it touches. */
  function Route(st: Routed, comm: Command): (r: Routed)
    requires |comm.values| >= 2
    ensures comm.command == "DUMPLOG" ==> r == st.(dumplog := comm)
    ensures comm.command != "DUMPLOG" ==>
      && r.dumplog == st.dumplog
      && r.buffers.Keys == st.buffers.Keys + {comm.values[1]}
      && r.buffers[comm.values[1]] ==
           (if comm.values[1] in st.buffers then st.buffers[comm.values[1]] else []) + [comm]
      && forall u :: u in st.buffers && u != comm.values[1] ==> r.buffers[u] == st.buffers[u]
  {
    if comm.command == "DUMPLOG" then st.(dumplog := comm)
    else
      var user := comm.values[1];
      var buffer := if user in st.buffers then st.buffers[user] else [];
      st.(buffers := st.buffers[user := buffer + [comm]])
  }

  /** Every command of the list has a user field to route on. */
  predicate Routable(cmds: seq<Command>) {
    forall i :: 0 <= i < |cmds| ==> |cmds[i].values| >= 2
  }

  /**
   * The loop of main over a list of commands, from a given state. A user,
   * once seen, keeps a buffer, which only grows at its end.
   */
  function RouteAll(st: Routed, cmds: seq<Command>): (r: Routed)
    requires Routable(cmds)
    ensures st.buffers.Keys <= r.buffers.Keys
    ensures forall u :: u in st.buffers ==> st.buffers[u] <= r.buffers[u]
  {
    if |cmds| == 0 then st
    else Route(RouteAll(st, cmds[..|cmds| - 1]), cmds[|cmds| - 1])
  }

  /** The commands of `cmds` that go to user `u`, in script order. */
  function UserLines(cmds: seq<Command>, u: string): (ls: seq<Command>)
    requires Routable(cmds)
    ensures |ls| <= |cmds|
    ensures forall j :: 0 <= j < |ls| ==> ls[j] in cmds && ls[j].command != "DUMPLOG" && ls[j].values[1] == u
  {
    if |cmds| == 0 then []
    else
      var rest := UserLines(cmds[1..], u);
      if cmds[0].command != "DUMPLOG" && cmds[0].values[1] == u then [cmds[0]] + rest else rest
  }

  /** UserLines of a list grown at the end. */
  lemma {:induction false} UserLinesSnoc(cmds: seq<Command>, c: Command, u: string)
    requires Routable(cmds) && |c.values| >= 2
    ensures Routable(cmds + [c])
    ensures UserLines(cmds + [c], u) ==
      UserLines(cmds, u) + (if c.command != "DUMPLOG" && c.values[1] == u then [c] else [])
  {
    var l := cmds + [c];
    if |cmds| > 0 {
      assert l[1..] == cmds[1..] + [c];
      UserLinesSnoc(cmds[1..], c, u);
    }
  }

  /**
   * Routing a script from the start gives user `u` a buffer exactly when one
   * of its commands names `u` (and is not a DUMPLOG), and that buffer holds
   * those commands in script order.
   */
  lemma {:induction false} RouteAllBuffers(cmds: seq<Command>, u: string)
    requires Routable(cmds)
    ensures u in RouteAll(Initial, cmds).buffers <==> UserLines(cmds, u) != []
    ensures u in RouteAll(Initial, cmds).buffers ==> RouteAll(Initial, cmds).buffers[u] == UserLines(cmds, u)
  {
    if |cmds| > 0 {
      var init, c := cmds[..|cmds| - 1], cmds[|cmds| - 1];
      assert cmds == init + [c];
      RouteAllBuffers(init, u);
      UserLinesSnoc(init, c, u);
    }
  }

  /** The position of the last command named exactly "DUMPLOG", or -1 when there is none. */
  function LastDumplog(cmds: seq<Command>): (i: int)
    ensures -1 <= i < |cmds|
    ensures i >= 0 ==> cmds[i].command == "DUMPLOG"
    ensures forall j :: i < j < |cmds| ==> cmds[j].command != "DUMPLOG"
  {
    if |cmds| == 0 then -1
    else if cmds[|cmds| - 1].command == "DUMPLOG" then |cmds| - 1
    else LastDumplog(cmds[..|cmds| - 1])
  }

  /**
   * The command kept aside after routing a script from the start: the zero
   * command when no command is named exactly "DUMPLOG", and otherwise the
   * last one that is.
   */
  lemma {:induction false} RouteAllDumplog(cmds: seq<Command>)
    requires Routable(cmds)
    ensures var i := LastDumplog(cmds);
      RouteAll(Initial, cmds).dumplog == if i < 0 then NoCommand else cmds[i]
  {
    if |cmds| > 0 {
      var init := cmds[..|cmds| - 1];
      RouteAllDumplog(init);
      var i := LastDumplog(init);
      if cmds[|cmds| - 1].command != "DUMPLOG" && i >= 0 {
        assert cmds[i] == init[i];
      }
    }
  }

  /** The test at the head of the loop is case-sensitive: a lower-case "dumplog" is routed like any command. */
  lemma LowerCaseDumplogIsRouted(st: Routed, comm: Command)
    requires |comm.values| >= 2 && comm.command == "dumplog"
    ensures Route(st, comm).dumplog == st.dumplog
    ensures comm.values[1] in Route(st, comm).buffers
  {
  }

  /** Every line of the script parses to a record. */
  predicate AllParse(script: seq<string>) {
    forall i :: 0 <= i < |script| ==> Parse(script[i]).Parsed?
  }

  /** The records of the first `n` lines of a script in which every line parses, in script order. */
  function ParsedPrefix(script: seq<string>, n: nat): (cmds: seq<Command>)
    requires AllParse(script) && n <= |script|
    ensures |cmds| == n
  {
    if n == 0 then [] else ParsedPrefix(script, n - 1) + [Parse(script[n - 1]).cmd]
  }

  /** Every record of a parsed prefix has a user field to route on. */
  lemma {:induction false} ParsedPrefixRoutable(script: seq<string>, n: nat)
    requires AllParse(script) && n <= |script|
    ensures Routable(ParsedPrefix(script, n))
  {
    if n > 0 {
      ParsedPrefixRoutable(script, n - 1);
      var init, c := ParsedPrefix(script, n - 1), Parse(script[n - 1]).cmd;
      assert |c.values| >= 2;
      assert ParsedPrefix(script, n) == init + [c];
    }
  }

  /** The records of a script in which every line parses, in script order. */
  function ParsedScript(script: seq<string>): (cmds: seq<Command>)
    requires AllParse(script)
    ensures |cmds| == |script| && Routable(cmds)
  {
    ParsedPrefixRoutable(script, |script|);
    ParsedPrefix(script, |script|)
  }

  /** Routing a list grown by one command routes that command last. */
  lemma RouteAllSnoc(st: Routed, cmds: seq<Command>, c: Command)
    requires Routable(cmds) && |c.values| >= 2
    ensures Routable(cmds + [c])
    ensures RouteAll(st, cmds + [c]) == Route(RouteAll(st, cmds), c)
  {
    assert (cmds + [c])[..|cmds|] == cmds;
  }

  /** The parsing half of the scanner loop: the record of each line, in script order. */
  method ParseScript(script: seq<string>) returns (cmds: seq<Command>)
    requires AllParse(script)
    ensures cmds == ParsedScript(script)
  {
    cmds := [];
    for i := 0 to |script|
      invariant cmds == ParsedPrefix(script, i)
    {
      var outcome := ParseLine(script[i]);
      cmds := cmds + [outcome.cmd];
    }
  }

  /**
   * The state of main in parallel mode: the map from user to worker and the
   * command kept aside.
   */
  class Router {
    var userCommandInput: map<string, UserWorker>
    var parallelDumplog: Command
    /** The buffer of each user's worker, as values. */
    ghost var buffers: map<string, seq<Command>>
    /** The requests sent so far, in the order they leave. */
    var wire: seq<Request>

    /** No two users share a worker. */
    ghost predicate Distinct()
      reads this
    {
      forall u, v :: u in userCommandInput && v in userCommandInput && u != v ==>
        userCommandInput[u] != userCommandInput[v]
    }

    /** One worker per user, all still buffering and holding the buffers recorded in `buffers`. */
    ghost predicate Valid()
      reads this, userCommandInput.Values
    {
      && Distinct()
      && userCommandInput.Keys == buffers.Keys
      && forall u :: u in userCommandInput ==>
           userCommandInput[u].state == Buffering && userCommandInput[u].lines == buffers[u]
    }

    /** The buffers of the workers and the command kept aside, as values. */
    ghost function State(): Routed
      reads this
    {
      Routed(buffers, parallelDumplog)
    }

    constructor()
      ensures Valid() && State() == Initial && userCommandInput == map[] && wire == []
    {
      userCommandInput := map[];
      parallelDumplog := NoCommand;
      buffers := map[];
      wire := [];
    }

    /**
     * One parsed line: a command named exactly "DUMPLOG" replaces the one
     * kept aside; any other goes to the worker of values[1], started on
     * first sight.
     */
    method RouteCommand(comm: Command)
      requires Valid() && |comm.values| >= 2
      modifies this, userCommandInput.Values
      ensures Valid() && State() == Route(old(State()), comm)
      ensures forall w :: w in userCommandInput.Values ==> w in old(userCommandInput.Values) || fresh(w)
      ensures forall u :: u in old(userCommandInput) ==>
        u in userCommandInput && userCommandInput[u] == old(userCommandInput[u])
      ensures wire == old(wire)
    {
      if comm.command == "DUMPLOG" {
        Stash(comm);
      } else {
        Enqueue(comm.values[1], comm);
      }
    }

    /** The DUMPLOG test succeeded: the command replaces the one kept aside. */
    method Stash(comm: Command)
      requires Valid()
      modifies this
      ensures Valid() && userCommandInput == old(userCommandInput)
      ensures State() == old(State()).(dumplog := comm)
      ensures wire == old(wire)
    {
      parallelDumplog := comm;
    }

    /** Any other command goes to the end of its user's buffer, a new one on first sight. */
    method Enqueue(user: string, comm: Command)
      requires Valid()
      modifies this, userCommandInput.Values
      ensures Valid() && parallelDumplog == old(parallelDumplog)
      ensures buffers == old(buffers)[user := (if user in old(buffers) then old(buffers)[user] else []) + [comm]]
      ensures forall w :: w in userCommandInput.Values ==> w in old(userCommandInput.Values) || fresh(w)
      ensures forall u :: u in old(userCommandInput) ==>
        u in userCommandInput && userCommandInput[u] == old(userCommandInput[u])
      ensures wire == old(wire)
    {
      ghost var buffer: seq<Command> := if user in buffers then buffers[user] else [];
      if user !in userCommandInput {
        AddWorker(user);
      }
      assert buffers == old(buffers)[user := buffer];
      Deliver(user, comm);
      assert buffers == old(buffers)[user := buffer][user := buffer + [comm]];
    }

    /** A user seen for the first time gets a fresh, empty worker. */
    method AddWorker(user: string)
      requires Valid() && user !in userCommandInput
      modifies this
      ensures Valid() && user in userCommandInput && fresh(userCommandInput[user])
      ensures userCommandInput == old(userCommandInput)[user := userCommandInput[user]]
      ensures userCommandInput.Values <= old(userCommandInput.Values) + {userCommandInput[user]}
      ensures buffers == old(buffers)[user := []] && parallelDumplog == old(parallelDumplog)
      ensures wire == old(wire)
    {
      var w := new UserWorker();
      ValuesOfUpdate(userCommandInput, user, w);
      userCommandInput := userCommandInput[user := w];
      buffers := buffers[user := []];
    }

    /** A command for a known user goes to the end of that user's buffer. */
    method Deliver(user: string, comm: Command)
      requires Valid() && user in userCommandInput
      modifies this, userCommandInput[user]
      ensures Valid() && userCommandInput == old(userCommandInput)
      ensures buffers == old(buffers)[user := old(buffers)[user] + [comm]] && parallelDumplog == old(parallelDumplog)
      ensures wire == old(wire)
    {
      var worker := userCommandInput[user];
      worker.Receive(comm);
      buffers := buffers[user := buffers[user] + [comm]];
    }

    /**
     * The scanner loop of main in parallel mode: each line is parsed and
     * routed. Every line must parse, since the source dereferences the
     * record of a line that does not.
     */
    method RouteScript(script: seq<string>)
      requires Valid() && AllParse(script)
      modifies this, userCommandInput.Values
      ensures Valid() && State() == RouteAll(old(State()), ParsedScript(script))
      ensures forall w :: w in userCommandInput.Values ==> w in old(userCommandInput.Values) || fresh(w)
      ensures forall u :: u in old(userCommandInput) ==>
        u in userCommandInput && userCommandInput[u] == old(userCommandInput[u])
      ensures wire == old(wire)
    {
      var cmds := ParseScript(script);
      RouteCommands(cmds);
    }

    /** The routing half of the scanner loop, over the parsed records in script order. */
    method RouteCommands(cmds: seq<Command>)
      requires Valid() && Routable(cmds)
      modifies this, userCommandInput.Values
      ensures Valid() && State() == RouteAll(old(State()), cmds)
      ensures forall w :: w in userCommandInput.Values ==> w in old(userCommandInput.Values) || fresh(w)
      ensures forall u :: u in old(userCommandInput) ==>
        u in userCommandInput && userCommandInput[u] == old(userCommandInput[u])
      ensures wire == old(wire)
    {
      ghost var st0 := State();
      var i := 0;
      while i < |cmds|
        invariant 0 <= i <= |cmds| && Valid()
        invariant forall w :: w in userCommandInput.Values ==> w in old(userCommandInput.Values) || fresh(w)
        invariant forall u :: u in old(userCommandInput) ==>
          u in userCommandInput && userCommandInput[u] == old(userCommandInput[u])
        invariant State() == RouteAll(st0, cmds[..i]) && wire == old(wire)
      {
        RouteAllSnoc(st0, cmds[..i], cmds[i]);
        assert cmds[..i + 1] == cmds[..i] + [cmds[i]];
        RouteCommand(cmds[i]);
        i := i + 1;
      }
      assert cmds[..i] == cmds;
    }

    /**
     * After the scan: every worker gets its start signal and replays its
     * buffer, and once all are done the command kept aside, if a DUMPLOG
     * ever arrived, is sent last. The workers start in map order, which
     * `order` records; each user's replay is also returned on its own.
     */
    method Release(useTcp: bool, useNum: bool)
        returns (sent: map<string, seq<Request>>, order: seq<string>, last: Option<Request>)
      requires Valid() && Ready(State(), useTcp)
      modifies this, userCommandInput.Values
      ensures userCommandInput == old(userCommandInput) && State() == old(State())
      ensures sent.Keys == old(State()).buffers.Keys && Enumerates(order, sent)
      ensures forall u :: u in sent ==> sent[u] == Replay(old(State()).buffers[u], useTcp, useNum)
      ensures forall u :: u in userCommandInput ==> userCommandInput[u].state == Done
      ensures last == if parallelDumplog.command != "" then Some(Send(parallelDumplog, useTcp, useNum)) else None
      ensures wire == old(wire) + (Concatenated(order, sent) + (if last.Some? then [last.value] else []))
    {
      sent, order := StartAll(useTcp, useNum);
      last := SendDumplog(useTcp, useNum);
      AppendAssociative(old(wire), Concatenated(order, sent), if last.Some? then [last.value] else []);
    }

    /** The start loop: each worker, in some order, replays its buffer onto the wire. */
    method StartAll(useTcp: bool, useNum: bool) returns (sent: map<string, seq<Request>>, order: seq<string>)
      requires Valid() && Ready(State(), useTcp)
      modifies this, userCommandInput.Values
      ensures userCommandInput == old(userCommandInput) && State() == old(State())
      ensures sent.Keys == old(State()).buffers.Keys && Enumerates(order, sent)
      ensures forall u :: u in sent ==> sent[u] == Replay(old(State()).buffers[u], useTcp, useNum)
      ensures forall u :: u in userCommandInput ==> userCommandInput[u].state == Done
      ensures wire == old(wire) + Concatenated(order, sent)
    {
      sent, order := map[], [];
      assert wire == old(wire) + Concatenated(order, sent);
      while sent.Keys != userCommandInput.Keys
        invariant userCommandInput == old(userCommandInput) && State() == old(State())
        invariant Started(userCommandInput, buffers, sent, useTcp, useNum) && Enumerates(order, sent)
        invariant wire == old(wire) + Concatenated(order, sent)
        decreases userCommandInput.Keys - sent.Keys
      {
        var user :| user in userCommandInput && user !in sent;
        sent, order := StartWorker(user, useTcp, useNum, buffers, sent, order, old(wire));
      }
    }

    /**
     * The start signal to one worker not yet started, which replays exactly
     * its own buffer onto the wire after the replays of the users in `order`.
     */
    method StartWorker(user: string, useTcp: bool, useNum: bool, ghost routed: map<string, seq<Command>>,
                       sent: map<string, seq<Request>>, order: seq<string>, ghost start: seq<Request>)
        returns (next: map<string, seq<Request>>, order': seq<string>)
      requires Started(userCommandInput, routed, sent, useTcp, useNum) && Enumerates(order, sent)
      requires wire == start + Concatenated(order, sent)
      requires user in userCommandInput && user !in sent
      modifies this, userCommandInput[user]
      ensures userCommandInput == old(userCommandInput) && State() == old(State())
      ensures Started(userCommandInput, routed, next, useTcp, useNum) && Enumerates(order', next)
      ensures next.Keys == sent.Keys + {user} && order' == order + [user]
      ensures wire == start + Concatenated(order', next)
    {
      next := Signal(user, useTcp, useNum, routed, sent);
      order' := order + [user];
      EnumeratesSnoc(order, sent, user, next);
      ConcatenatedAgree(order, sent, next);
      ConcatenatedSnoc(order, user, next);
      AppendAssociative(start, Concatenated(order, sent), next[user]);
    }

    /** The start signal itself: the worker replays its buffer, which goes out on the wire. */
    method Signal(user: string, useTcp: bool, useNum: bool, ghost routed: map<string, seq<Command>>,
                  sent: map<string, seq<Request>>)
        returns (next: map<string, seq<Request>>)
      requires Started(userCommandInput, routed, sent, useTcp, useNum) && user in userCommandInput && user !in sent
      modifies this, userCommandInput[user]
      ensures userCommandInput == old(userCommandInput) && State() == old(State())
      ensures Started(userCommandInput, routed, next, useTcp, useNum)
      ensures user in next && next == sent[user := next[user]]
      ensures wire == old(wire) + next[user]
    {
      var out := userCommandInput[user].Start(useTcp, useNum);
      next := sent[user := out];
      wire := wire + out;
    }

    /** After the wait: the command kept aside is sent, unless no DUMPLOG ever arrived. */
    method SendDumplog(useTcp: bool, useNum: bool) returns (last: Option<Request>)
      requires parallelDumplog.command != "" ==> Sendable(parallelDumplog, useTcp)
      modifies this
      ensures userCommandInput == old(userCommandInput) && State() == old(State())
      ensures last == if parallelDumplog.command != "" then Some(Send(parallelDumplog, useTcp, useNum)) else None
      ensures wire == old(wire) + (if last.Some? then [last.value] else [])
    {
      if parallelDumplog.command != "" {
        var r := Transmit(parallelDumplog, useTcp, useNum);
        last := Some(r);
        wire := wire + [r];
      } else {
        last := None;
      }
    }
  }

  /**
   * Midway through the start loop: the workers of the users in `sent` are
   * done and their replays recorded, the others still buffering, and every
   * buffer is as routing left it.
   */
  ghost predicate Started(workers: map<string, UserWorker>, routed: map<string, seq<Command>>,
                          sent: map<string, seq<Request>>, useTcp: bool, useNum: bool)
    reads workers.Values
  {
    && (forall u, v :: u in workers && v in workers && u != v ==> workers[u] != workers[v])
    && workers.Keys == routed.Keys && sent.Keys <= routed.Keys
    && (forall u :: u in workers ==>
         && workers[u].lines == routed[u]
         && AllSendable(routed[u], useTcp)
         && workers[u].state == (if u in sent then Done else Buffering))
    && forall u :: u in sent ==> sent[u] == Replay(routed[u], useTcp, useNum)
  }

  /** `order` lists every user of `sent` exactly once. */
  predicate Enumerates(order: seq<string>, sent: map<string, seq<Request>>) {
    && (forall k :: 0 <= k < |order| ==> order[k] in sent)
    && (forall u :: u in sent ==> u in order)
    && (forall j, k :: 0 <= j < k < |order| ==> order[j] != order[k])
  }

  /** The replays of the users in `order`, one after another. */
  function Concatenated(order: seq<string>, sent: map<string, seq<Request>>): seq<Request>
    requires forall k :: 0 <= k < |order| ==> order[k] in sent
  {
    if order == [] then []
    else Concatenated(order[..|order| - 1], sent) + sent[order[|order| - 1]]
  }

  /** Starting one more user extends the enumeration by that user. */
  lemma EnumeratesSnoc(order: seq<string>, sent: map<string, seq<Request>>, user: string,
                       next: map<string, seq<Request>>)
    requires Enumerates(order, sent) && user !in sent && next.Keys == sent.Keys + {user}
    ensures Enumerates(order + [user], next)
  {
    var o := order + [user];
    forall u | u in next
      ensures u in o
    {
      if u != user {
        var k :| 0 <= k < |order| && order[k] == u;
        assert o[k] == u;
      } else {
        assert o[|order|] == u;
      }
    }
  }

  /** The replay of a user appended to the order comes last. */
  lemma ConcatenatedSnoc(order: seq<string>, user: string, sent: map<string, seq<Request>>)
    requires forall k :: 0 <= k < |order| ==> order[k] in sent
    requires user in sent
    ensures Concatenated(order + [user], sent) == Concatenated(order, sent) + sent[user]
  {
    assert (order + [user])[..|order|] == order;
  }

  lemma AppendAssociative<T>(a: seq<T>, b: seq<T>, c: seq<T>)
    ensures (a + b) + c == a + (b + c)
  {
  }

  /** Only the replays of the users listed matter to their concatenation. */
  lemma {:induction false} ConcatenatedAgree(order: seq<string>, sent: map<string, seq<Request>>,
                                             next: map<string, seq<Request>>)
    requires forall k :: 0 <= k < |order| ==> order[k] in sent && order[k] in next
    requires forall k :: 0 <= k < |order| ==> sent[order[k]] == next[order[k]]
    ensures Concatenated(order, sent) == Concatenated(order, next)
  {
    if order != [] {
      ConcatenatedAgree(order[..|order| - 1], sent, next);
    }
  }

  /** Updating one key of a map brings in at most the new value. */
  lemma ValuesOfUpdate<K, V>(m: map<K, V>, k: K, v: V)
    ensures m[k := v].Values <= m.Values + {v}
  {
    forall x | x in m[k := v].Values
      ensures x in m.Values + {v}
    {
      var j :| j in m[k := v] && m[k := v][j] == x;
      if j != k {
        assert m[j] == x;
      }
    }
  }

  /** Every buffer and the command kept aside can be sent. */
  predicate Ready(st: Routed, useTcp: bool) {
    && (forall u :: u in st.buffers ==> AllSendable(st.buffers[u], useTcp))
    && (st.dumplog.command != "" ==> Sendable(st.dumplog, useTcp))
  }

  /**
   * The records a parallel run encodes can all be sent: every command that
   * is not a DUMPLOG, and the last DUMPLOG. A DUMPLOG that a later one
   * replaces is never encoded.
   */
  predicate RunSendable(cmds: seq<Command>, useTcp: bool) {
    && (forall i :: 0 <= i < |cmds| && cmds[i].command != "DUMPLOG" ==> Sendable(cmds[i], useTcp))
    && (LastDumplog(cmds) >= 0 ==> Sendable(cmds[LastDumplog(cmds)], useTcp))
  }

  /** A command of the script that is not a DUMPLOG is among the commands of the user it names. */
  lemma {:induction false} InUserLines(cmds: seq<Command>, i: nat)
    requires Routable(cmds) && i < |cmds| && cmds[i].command != "DUMPLOG"
    ensures cmds[i] in UserLines(cmds, cmds[i].values[1])
  {
    if i > 0 {
      assert cmds[1..][i - 1] == cmds[i];
      InUserLines(cmds[1..], i - 1);
    }
  }

  /**
   * Routing a script from the start leaves every buffer and the command kept
   * aside ready to send exactly when the records the run encodes can be sent.
   */
  lemma RoutedReady(cmds: seq<Command>, useTcp: bool)
    requires Routable(cmds)
    ensures Ready(RouteAll(Initial, cmds), useTcp) <==> RunSendable(cmds, useTcp)
  {
    var st := RouteAll(Initial, cmds);
    RouteAllDumplog(cmds);
    if RunSendable(cmds, useTcp) {
      forall u | u in st.buffers
        ensures AllSendable(st.buffers[u], useTcp)
      {
        RouteAllBuffers(cmds, u);
        var lines := UserLines(cmds, u);
        forall j | 0 <= j < |lines|
          ensures Sendable(lines[j], useTcp)
        {
          assert lines[j] in cmds;
          var i :| 0 <= i < |cmds| && cmds[i] == lines[j];
        }
      }
    }
    if Ready(st, useTcp) {
      forall i | 0 <= i < |cmds| && cmds[i].command != "DUMPLOG"
        ensures Sendable(cmds[i], useTcp)
      {
        var u := cmds[i].values[1];
        InUserLines(cmds, i);
        RouteAllBuffers(cmds, u);
        var lines := UserLines(cmds, u);
        var j :| 0 <= j < |lines| && lines[j] == cmds[i];
      }
    }
  }

  /**
   * A bare DUMPLOG that a later DUMPLOG replaces need not be encodable:
   * over HTTP the run of `[1] DUMPLOG` then `[2] DUMPLOG,f` sends only the
   * second.
   */
  lemma OverwrittenDumplog()
    ensures var first, second :=
      Command("DUMPLOG", "DUMPLOG", true, false, false, ["DUMPLOG", "1"]),
      Command("DUMPLOG", "DUMPLOG,f", true, false, false, ["DUMPLOG", "f", "2"]);
      && !Sendable(first, false) && RunSendable([first, second], false)
      && RouteAll(Initial, [first, second]).dumplog == second
  {
    var first, second :=
      Command("DUMPLOG", "DUMPLOG", true, false, false, ["DUMPLOG", "1"]),
      Command("DUMPLOG", "DUMPLOG,f", true, false, false, ["DUMPLOG", "f", "2"]);
    var cmds := [first, second];
    assert cmds[..1] == [first];
    assert LastDumplog(cmds) == 1;
    RouteAllDumplog(cmds);
  }

  /** The scan of main in parallel mode, from a fresh routing state. */
  method RouteFresh(script: seq<string>) returns (router: Router)
    requires AllParse(script)
    ensures fresh(router) && router.Valid() && router.State() == RouteAll(Initial, ParsedScript(script))
    ensures router.wire == []
    ensures forall w :: w in router.userCommandInput.Values ==> fresh(w)
  {
    router := new Router();
    router.RouteScript(script);
  }

  /**
   * main in parallel mode, from the scan to the deferred DUMPLOG: each user
   * that names at least one command gets exactly the replay of its commands
   * in script order, and the last DUMPLOG, if any, is sent after every
   * replay. The router's `wire` holds what went out, in order: nothing
   * during the scan, then the replays, then the DUMPLOG.
   */
  method ParallelRun(script: seq<string>, useTcp: bool, useNum: bool)
      returns (router: Router, sent: map<string, seq<Request>>, order: seq<string>, last: Option<Request>)
    requires AllParse(script) && RunSendable(ParsedScript(script), useTcp)
    ensures forall u :: u in sent <==> UserLines(ParsedScript(script), u) != []
    ensures forall u :: u in sent ==> sent[u] == Replay(UserLines(ParsedScript(script), u), useTcp, useNum)
    ensures var cmds, i := ParsedScript(script), LastDumplog(ParsedScript(script));
      last == if i < 0 then None else Some(Send(cmds[i], useTcp, useNum))
    ensures Enumerates(order, sent)
    ensures router.wire == Concatenated(order, sent) + (if last.Some? then [last.value] else [])
  {
    ghost var cmds := ParsedScript(script);
    router := RouteFresh(script);
    ghost var st := router.State();
    forall u
      ensures u in st.buffers <==> UserLines(cmds, u) != []
      ensures u in st.buffers ==> st.buffers[u] == UserLines(cmds, u)
    {
      RouteAllBuffers(cmds, u);
    }
    RouteAllDumplog(cmds);
    RoutedReady(cmds, useTcp);
    sent, order, last := router.Release(useTcp, useNum);
    assert [] + (Concatenated(order, sent) + (if last.Some? then [last.value] else []))
        == Concatenated(order, sent) + (if last.Some? then [last.value] else []);
  }
}
