/**
 * Sample script lines run through the model: what parseLine makes of them,
 * and the form and the TCP line they become.
 */
module Samples {
  import opened Wrappers
  import opened GoStrings
  import opened Registry
  import opened Parser
  import opened Encoder

  // The line is a parameter pinned by `requires` so that the solver does not unfold the literal everywhere it occurs.
  lemma AddParts(line: string)
    requires line == "[1] ADD,u1,100"
    ensures Parse(line) == Assemble(["ADD", "u1", "100"], "1")
  {
    var ts := ["ADD", "u1", "100"];
    assert Bracketed("1", Join(ts)) == line;
    WrittenParts("1", ts);
    ParseFromParts(line, "1", ts);
  }

  lemma AddFields()
    ensures Assemble(["ADD", "u1", "100"], "1") ==
      Parsed(Command("ADD", "ADD,u1,100", true, false, true, ["ADD", "u1", "100", "1"]))
  {
    assert ToUpper("ADD") == "ADD";
    assert Join(["ADD", "u1", "100"]) == "ADD,u1,100";
  }

  /** `[1] ADD,u1,100` has the values ADD, u1, 100 and then its transaction 1. */
  lemma AddLine()
    ensures Parse("[1] ADD,u1,100") ==
      Parsed(Command("ADD", "ADD,u1,100", true, false, true, ["ADD", "u1", "100", "1"]))
  {
    AddParts("[1] ADD,u1,100");
    AddFields();
  }

  // The line is a parameter pinned by `requires` so that the solver does not unfold the literal everywhere it occurs.
  lemma AddPayload(line: string, body: string)
    requires line == "[1] ADD,u1,100" && body == "ADD,u1,100"
    ensures TcpPayload(line) == body + "\n"
  {
    assert Bracketed("1", body) == line;
    TcpOfBracketed("1", body);
  }

  /** Over TCP it is sent without its transaction. */
  lemma AddLineTcp()
    ensures TcpPayload("[1] ADD,u1,100") == "ADD,u1,100\n"
  {
    AddPayload("[1] ADD,u1,100", "ADD,u1,100");
  }

  // The line is a parameter pinned by `requires` so that the solver does not unfold the literal everywhere it occurs.
  lemma QuoteBody(line: string)
    requires line == "[7] QUOTE, u2, S1"
    ensures TransactionNumber(line) == Some("7") && RemoveBrackets(line) == "QUOTE, u2, S1"
  {
    var body := "QUOTE, u2, S1";
    assert Bracketed("7", body) == line;
    BracketedBody("7", body);
  }

  lemma QuoteTokens()
    ensures Tokens("QUOTE, u2, S1") == ["QUOTE", "u2", "S1"]
  {
    assert Join(["QUOTE", " u2", " S1"]) == "QUOTE, u2, S1";
    TokensOfPadded(["QUOTE", " u2", " S1"], ["QUOTE", "u2", "S1"]);
  }

  lemma QuoteFields()
    ensures Assemble(["QUOTE", "u2", "S1"], "7") ==
      Parsed(Command("QUOTE", "QUOTE,u2,S1", true, true, false, ["QUOTE", "u2", "S1", "7"]))
  {
    assert ToUpper("QUOTE") == "QUOTE";
    assert Join(["QUOTE", "u2", "S1"]) == "QUOTE,u2,S1";
  }

  /** `[7] QUOTE, u2, S1`: the blanks after the commas are trimmed away. */
  lemma QuoteLine()
    ensures Parse("[7] QUOTE, u2, S1") ==
      Parsed(Command("QUOTE", "QUOTE,u2,S1", true, true, false, ["QUOTE", "u2", "S1", "7"]))
  {
    QuoteBody("[7] QUOTE, u2, S1");
    QuoteTokens();
    ParseFromParts("[7] QUOTE, u2, S1", "7", ["QUOTE", "u2", "S1"]);
    QuoteFields();
  }

  // The line is a parameter pinned by `requires` so that the solver does not unfold the literal everywhere it occurs.
  lemma FrobParts(line: string)
    requires line == "[2] FROB,u1"
    ensures Parse(line) == Assemble(["FROB", "u1"], "2")
  {
    var ts := ["FROB", "u1"];
    assert Bracketed("2", Join(ts)) == line;
    WrittenParts("2", ts);
    ParseFromParts(line, "2", ts);
  }

  lemma FrobRefused()
    ensures Assemble(["FROB", "u1"], "2") == Rejected("Invalid Command")
  {
    assert ToUpper("FROB") == "FROB";
  }

  /** `[2] FROB,u1` is refused with the registry's error. */
  lemma FrobLine()
    ensures Parse("[2] FROB,u1") == Rejected("Invalid Command")
  {
    FrobParts("[2] FROB,u1");
    FrobRefused();
  }

  /** `ADD,u1,100` has no bracketed transaction, and parseLine panics on it. */
  lemma UnbracketedLine()
    ensures Parse("ADD,u1,100") == Panicked
  {
    NoOpeningBracket("ADD,u1,100");
  }
}
