/**
 * The two request encoders of workgen.go: the HTTP form that
 * generateMapFromCommand builds by popping fields off a command's values,
 * and the line that generateTCPRequest writes to its socket.
 */
module Encoder {
  import opened GoStrings
  import opened Registry
  import opened Parser

  /** An HTTP form: each key with its list of values (Go's url.Values). */
  type Form = map<string, seq<string>>

  /** pop: the slice without its first element. */
  function Pop(s: seq<string>): (r: seq<string>)
    requires |s| >= 1
    ensures |r| == |s| - 1 && [s[0]] + r == s
  {
    s[1..]
  }

  /** How many of the optional fields username, stock and amount a command carries. */
  function Arity(c: Command): (k: nat)
    ensures k <= 3
  {
    (if c.usernameRequired then 1 else 0)
    + (if c.stockIdRequired then 1 else 0)
    + (if c.stockAmountRequired then 1 else 0)
  }

  /** The optional form keys a command carries, in the order their values follow its name. */
  function OptionalKeys(c: Command): (keys: seq<string>)
    ensures |keys| == Arity(c)
  {
    (if c.usernameRequired then ["username"] else [])
    + (if c.stockIdRequired then ["stock"] else [])
    + (if c.stockAmountRequired then ["amount"] else [])
  }

  /** The keys of the form of `c`. */
  function FormKeys(c: Command): set<string> {
    {"command", "transaction"}
    + (if c.usernameRequired then {"username"} else {})
    + (if c.stockIdRequired then {"stock"} else {})
    + (if c.stockAmountRequired then {"amount"} else {})
  }

  /**
   * The form of `c`, read positionally: the name from values[0], the optional
   * fields from the next positions in the order username, stock, amount,
   * and the transaction from the position after them, or "0" when the
   * script's transaction numbers are not used.
   */
  function ExpectedForm(c: Command, useNum: bool): Form
    requires |c.values| >= Arity(c) + 2
  {
    var u := if c.usernameRequired then 1 else 0;
    var s := if c.stockIdRequired then 1 else 0;
    var named := map["command" := [c.values[0]]];
    var withUser := if c.usernameRequired then named["username" := [c.values[1]]] else named;
    var withStock := if c.stockIdRequired then withUser["stock" := [c.values[1 + u]]] else withUser;
    var withAmount :=
      if c.stockAmountRequired then withStock["amount" := [c.values[1 + u + s]]] else withStock;
    withAmount["transaction" := [if useNum then c.values[Arity(c) + 1] else "0"]]
  }

  /**
   * What is left of the values once the form is built: the fields after the
   * optional ones, the first of them replaced by "0" when the script's
   * transaction numbers are not used.
   */
  function Remaining(c: Command, useNum: bool): (rest: seq<string>)
    requires |c.values| >= Arity(c) + 2
    ensures |rest| == |c.values| - Arity(c) - 1
    ensures rest[1..] == c.values[Arity(c) + 2..]
    ensures rest[0] == (if useNum then c.values[Arity(c) + 1] else "0")
  {
    var rest := c.values[Arity(c) + 1..];
    if useNum then rest else rest[0 := "0"]
  }

  /** Go's `*command`: a cell holding a command record, updated through the pointer. */
  class CommandRef {
    var cmd: Command

    constructor(c: Command)
      ensures cmd == c
    {
      cmd := c;
    }
  }

  /**
   * generateMapFromCommand: the name goes under "command"; then each flagged
   * field pops one value and puts the new first value under its key; a last
   * pop exposes the transaction, overwritten with "0" when `useNum` is off.
   * Every value in the form is a one-element list. The command keeps what
   * is left of its values.
   */
  method GenerateMapFromCommand(c: CommandRef, useNum: bool) returns (m: Form)
    requires |c.cmd.values| >= Arity(c.cmd) + 2
    modifies c
    ensures m == ExpectedForm(old(c.cmd), useNum)
    ensures c.cmd == old(c.cmd).(values := Remaining(old(c.cmd), useNum))
  {
    ghost var c0 := c.cmd;
    ghost var u := if c0.usernameRequired then 1 else 0;
    ghost var s := if c0.stockIdRequired then 1 else 0;
    assert c.cmd.values[0..1] == [c0.values[0]];
    m := map["command" := c.cmd.values[0..1]];
    if c.cmd.usernameRequired {
      c.cmd := c.cmd.(values := Pop(c.cmd.values));
      assert c.cmd.values[0..1] == [c0.values[1]];
      m := m["username" := c.cmd.values[0..1]];
    }
    assert c.cmd.values == c0.values[u..];
    if c.cmd.stockIdRequired {
      c.cmd := c.cmd.(values := Pop(c.cmd.values));
      assert c.cmd.values[0..1] == [c0.values[1 + u]];
      m := m["stock" := c.cmd.values[0..1]];
    }
    assert c.cmd.values == c0.values[u + s..];
    if c.cmd.stockAmountRequired {
      c.cmd := c.cmd.(values := Pop(c.cmd.values));
      assert c.cmd.values[0..1] == [c0.values[1 + u + s]];
      m := m["amount" := c.cmd.values[0..1]];
    }
    assert c.cmd.values == c0.values[Arity(c0)..];
    c.cmd := c.cmd.(values := Pop(c.cmd.values));
    if !useNum {
      c.cmd := c.cmd.(values := c.cmd.values[0 := "0"]);
    }
    assert c.cmd.values[0..1] == [if useNum then c0.values[Arity(c0) + 1] else "0"];
    m := m["transaction" := c.cmd.values[0..1]];
  }

  /**
   * The form has exactly the keys {command, transaction} and one key per set
   * flag; every value is a one-element list; the name comes first, the i-th
   * optional key takes the value right after the previous ones, and the
   * transaction takes position Arity + 1 (or "0").
   */
  lemma {:induction false} FormShape(c: Command, useNum: bool)
    requires |c.values| >= Arity(c) + 2
    ensures var m, keys := ExpectedForm(c, useNum), OptionalKeys(c);
      && m.Keys == FormKeys(c)
      && (forall key :: key in m ==> |m[key]| == 1)
      && m["command"] == [c.values[0]]
      && (forall i :: 0 <= i < |keys| ==> keys[i] in m && m[keys[i]] == [c.values[i + 1]])
      && m["transaction"] == [if useNum then c.values[Arity(c) + 1] else "0"]
  {
    var m, keys := ExpectedForm(c, useNum), OptionalKeys(c);
    assert m.Keys == FormKeys(c);
    forall i | 0 <= i < |keys|
      ensures keys[i] in m && m[keys[i]] == [c.values[i + 1]]
    {
      OptionalKeyAt(c, useNum, i);
    }
  }

  /** The i-th optional key of `c` takes the value at position i + 1. */
  lemma OptionalKeyAt(c: Command, useNum: bool, i: nat)
    requires |c.values| >= Arity(c) + 2 && i < Arity(c)
    ensures var m, keys := ExpectedForm(c, useNum), OptionalKeys(c);
      keys[i] in m && m[keys[i]] == [c.values[i + 1]]
  {
    var keys := OptionalKeys(c);
    if c.usernameRequired && i == 0 {
      assert keys[i] == "username";
    } else if c.stockIdRequired && i == (if c.usernameRequired then 1 else 0) {
      assert keys[i] == "stock";
    } else {
      assert c.stockAmountRequired && keys[i] == "amount";
    }
  }

  /** Turning transaction numbers off changes the transaction and nothing else. */
  lemma UseNumOnlyTouchesTransaction(c: Command)
    requires |c.values| >= Arity(c) + 2
    ensures ExpectedForm(c, false) == ExpectedForm(c, true)["transaction" := ["0"]]
  {
  }

  /**
   * A parsed line with exactly the fields its command names: the form
   * carries those fields under their keys and the line's own transaction.
   */
  lemma FormOfParsed(line: string, useNum: bool)
    requires Parse(line).Parsed?
    requires |Tokens(RemoveBrackets(line))| == Arity(Parse(line).cmd) + 1
    ensures var c := Parse(line).cmd;
      && |c.values| == Arity(c) + 2
      && ExpectedForm(c, useNum)["command"] == [Tokens(RemoveBrackets(line))[0]]
      && ExpectedForm(c, useNum)["transaction"] ==
           [if useNum then TransactionNumber(line).value else "0"]
  {
    var c, ts := Parse(line).cmd, Tokens(RemoveBrackets(line));
    ParsedFields(line);
    assert c.values[0] == ts[0] && c.values[Arity(c) + 1] == TransactionNumber(line).value;
    FormShape(c, useNum);
  }

  /**
   * A parsed line with more fields than its command names: the transaction
   * key takes the first surplus field, not the line's bracketed transaction.
   */
  lemma SurplusFieldIsTransaction(line: string)
    requires Parse(line).Parsed?
    requires |Tokens(RemoveBrackets(line))| > Arity(Parse(line).cmd) + 1
    ensures var c := Parse(line).cmd;
      ExpectedForm(c, true)["transaction"] == [Tokens(RemoveBrackets(line))[Arity(c) + 1]]
  {
    var c, ts := Parse(line).cmd, Tokens(RemoveBrackets(line));
    ParsedFields(line);
    assert c.values[Arity(c) + 1] == ts[Arity(c) + 1];
    FormShape(c, true);
  }

  /** ADD carries a username and an amount, and no stock key. */
  lemma AddForm()
    ensures var c := Command("ADD", "ADD,u1,100", true, false, true, ["ADD", "u1", "100", "1"]);
      ExpectedForm(c, true) ==
        map["command" := ["ADD"], "username" := ["u1"], "amount" := ["100"], "transaction" := ["1"]]
  {
  }

  /** QUOTE carries a username and a stock, and no amount key; without numbers the transaction is "0". */
  lemma QuoteForm()
    ensures var c := Command("QUOTE", "QUOTE,u2,S1", true, true, false, ["QUOTE", "u2", "S1", "7"]);
      ExpectedForm(c, false) ==
        map["command" := ["QUOTE"], "username" := ["u2"], "stock" := ["S1"], "transaction" := ["0"]]
  {
  }

  /** generateTCPRequest: the line with its bracketed prefix removed and trimmed, then a newline. */
  function TcpPayload(line: string): (p: string)
    ensures |p| >= 1 && p[|p| - 1] == '\n'
  {
    RemoveBrackets(line) + "\n"
  }

  /**
   * Sent over TCP, a written line `[<tx>] f1,...,fn` becomes `f1,...,fn`
   * and a newline: the transaction is not sent.
   */
  lemma TcpDropsTransaction(tx: string, ts: seq<string>)
    requires ']' !in tx && |ts| >= 1 && ts[0] != []
    requires forall i :: 0 <= i < |ts| ==> Trimmed(ts[i]) && ',' !in ts[i] && ']' !in ts[i]
    ensures TcpPayload(Bracketed(tx, Join(ts))) == Join(ts) + "\n"
  {
    JoinKeepsOut(ts, ']');
    BracketedLine(tx, Join(ts));
    JoinTrimmed(ts);
    TrimSpaceAfterBlank(Join(ts));
  }

  /** Over TCP a line `[<tx>] <body>` loses its brackets and its transaction. */
  lemma TcpOfBracketed(tx: string, body: string)
    requires ']' !in tx && ']' !in body && body != [] && Trimmed(body)
    ensures TcpPayload(Bracketed(tx, body)) == body + "\n"
  {
    BracketedBody(tx, body);
  }

  /**
   * The replay sends a record's raw command string over TCP; unless it holds
   * a `]`, that string goes out unchanged, with a newline.
   */
  lemma TcpPayloadOfRaw(raw: string)
    requires Trimmed(raw) && ']' !in raw
    ensures TcpPayload(raw) == raw + "\n"
  {
    IndexSpec(raw, ']');
    assert raw[0..] == raw;
    TrimSpaceOfTrimmed(raw);
  }
}
