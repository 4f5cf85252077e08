/**
 * The line parser of workgen.go: a script line `[<transaction>] CMD, f1, f2, ...`
 * becomes a `command` record whose values are the trimmed fields followed by
 * the transaction.
 */
module Parser {
  import opened Wrappers
  import opened GoStrings
  import opened Registry

  /** What parseLine does with one line. */
  datatype ParseOutcome =
    | Parsed(cmd: Command)     // a record and a nil error
    | Rejected(error: string)  // a nil record and the registry's error
    | Panicked                 // getTransactionNumber indexed an empty list of matches

  /**
   * getTransactionNumber: the group captured by the dot-all pattern `\[(.*)\]`,
   * found here by an explicit scan for the first `[` and the last `]`. None
   * stands for the index-out-of-range panic when nothing matches.
   */
  function TransactionNumber(line: string): (t: Option<string>)
    ensures t.Some? ==> '[' in line && ']' in line && |t.value| + 2 <= |line|
  {
    var p, q := Index(line, '['), LastIndex(line, ']');
    if 0 <= p < q then Some(line[p + 1..q]) else None
  }

  /**
   * The pattern matches exactly when some `[` comes before some `]`; a line
   * without such a pair makes getTransactionNumber panic.
   */
  lemma TransactionNumberFound(line: string)
    ensures TransactionNumber(line).Some? <==>
      exists i, j :: 0 <= i < j < |line| && line[i] == '[' && line[j] == ']'
  {
    var p, q := Index(line, '['), LastIndex(line, ']');
    forall i, j | 0 <= i < j < |line| && line[i] == '[' && line[j] == ']'
      ensures 0 <= p <= i && j <= q
    {
      IndexIsFirst(line, '[', i);
      LastIndexIsLast(line, ']', j);
    }
    if 0 <= p < q {
      assert line[p] == '[' && line[q] == ']';
    }
  }

  /**
   * The scan agrees with the pattern's leftmost, greedy, dot-all match: the
   * capture starts after the first `[` and ends before the last `]`, taking
   * along any brackets and newlines in between.
   */
  lemma TransactionNumberSpan(line: string)
    ensures TransactionNumber(line).Some? ==>
      exists i, j :: && 0 <= i < j < |line| && line[i] == '[' && line[j] == ']'
                     && '[' !in line[..i] && ']' !in line[j + 1..]
                     && TransactionNumber(line).value == line[i + 1..j]
  {
    var p, q := Index(line, '['), LastIndex(line, ']');
    IndexSpec(line, '[');
    LastIndexSpec(line, ']');
    if 0 <= p < q {
      assert line[p] == '[' && line[q] == ']';
      assert '[' !in line[..p] && ']' !in line[q + 1..];
      assert TransactionNumber(line).value == line[p + 1..q];
    }
  }

  /**
   * removeBrackets: what follows the first `]`, trimmed; the whole line,
   * trimmed, when there is no `]` (strings.Index returns -1, plus one is 0).
   */
  function RemoveBrackets(line: string): (r: string)
    ensures Trimmed(r)
  {
    var i := Index(line, ']') + 1;
    TrimSpace(line[i..])
  }

  lemma RemoveBracketsIsAfterFirst(line: string)
    ensures ']' !in line ==> RemoveBrackets(line) == TrimSpace(line)
    ensures ']' in line ==>
      exists i :: && 0 <= i < |line| && line[i] == ']' && ']' !in line[..i]
                  && RemoveBrackets(line) == TrimSpace(line[i + 1..])
  {
    var i := Index(line, ']');
    IndexSpec(line, ']');
    if i < 0 {
      assert line[0..] == line;
    } else {
      assert RemoveBrackets(line) == TrimSpace(line[i + 1..]);
    }
  }

  /** The fields of a command body: split on every comma, each one trimmed, empty ones kept. */
  function Tokens(body: string): (ts: seq<string>)
    ensures |ts| == |Split(body)| >= 1
    ensures forall i :: 0 <= i < |ts| ==> Trimmed(ts[i]) && ',' !in ts[i]
  {
    var parts := Split(body);
    TrimKeepsCommasOut(parts);
    seq(|parts|, i requires 0 <= i < |parts| => TrimSpace(parts[i]))
  }

  lemma TrimKeepsCommasOut(parts: seq<string>)
    requires forall i :: 0 <= i < |parts| ==> ',' !in parts[i]
    ensures forall i :: 0 <= i < |parts| ==> ',' !in TrimSpace(parts[i])
  {
    forall i | 0 <= i < |parts| {
      TrimSpaceKeepsOut(parts[i], ',');
    }
  }

  /** The fields of comma-free pieces joined by "," are those pieces, trimmed. */
  lemma TokensOfJoin(parts: seq<string>)
    requires |parts| >= 1
    requires forall i :: 0 <= i < |parts| ==> ',' !in parts[i]
    ensures |Tokens(Join(parts))| == |parts|
    ensures forall i :: 0 <= i < |parts| ==> Tokens(Join(parts))[i] == TrimSpace(parts[i])
  {
    SplitJoin(parts);
  }

  /** Trimming fields that are already trimmed changes nothing. */
  lemma TokensOfJoined(ts: seq<string>)
    requires |ts| >= 1
    requires forall i :: 0 <= i < |ts| ==> Trimmed(ts[i]) && ',' !in ts[i]
    ensures Tokens(Join(ts)) == ts
  {
    TokensOfJoin(ts);
    forall i | 0 <= i < |ts| ensures Tokens(Join(ts))[i] == ts[i] {
      TrimSpaceOfTrimmed(ts[i]);
    }
  }

  /**
   * parseLine, as a value. The transaction is extracted first, so a line with
   * no `[...]` panics whatever its command; the first field is then looked up
   * in the registry; on success the raw command string is the trimmed fields
   * joined by "," and the values are those fields with the transaction
   * appended. The number of fields is not checked.
   */
  function Parse(line: string): (r: ParseOutcome)
    ensures r.Parsed? ==> |r.cmd.values| >= 2
  {
    match TransactionNumber(line)
    case None => Panicked
    case Some(transaction) =>
      Assemble(Tokens(RemoveBrackets(line)), transaction)
  }

  /**
   * The second half of parseLine: the first field is looked up in the
   * registry; a known name gets the fields joined by "," as its raw command
   * string and the fields followed by the transaction as its values.
   */
  function Assemble(args: seq<string>, transaction: string): (r: ParseOutcome)
    requires |args| >= 1
    ensures r.Parsed? <==> ToUpper(args[0]) in Schemas
    ensures r.Parsed? ==> && r.cmd.command == args[0] && SchemaOf(r.cmd) == Schemas[ToUpper(args[0])]
                          && r.cmd.values == args + [transaction]
                          && r.cmd.rawCommandString == Join(args)
    ensures r.Rejected? ==> r.error == "Invalid Command"
  {
    match CheckForValidCommand(args[0])
    case Err(e) => Rejected(e)
    case Ok(cmd) =>
      Parsed(cmd.(rawCommandString := Join(args), values := args + [transaction]))
  }

  /** parseLine: the same steps, with the split fields trimmed in place by TrimFields. */
  method ParseLine(line: string) returns (r: ParseOutcome)
    ensures r == Parse(line)
  {
    var transaction := TransactionNumber(line);
    if transaction.None? {
      return Panicked;
    }
    var trimmedLine := RemoveBrackets(line);
    var args := Split(trimmedLine);
    args := TrimFields(args);
    assert args == Tokens(trimmedLine);
    var check := CheckForValidCommand(args[0]);
    match check
    case Err(e) =>
      r := Rejected(e);
    case Ok(cmd) =>
      r := Parsed(cmd.(rawCommandString := Join(args), values := args + [transaction.value]));
  }

  /** The loop of parseLine that trims every split field in place. */
  method TrimFields(parts: seq<string>) returns (args: seq<string>)
    ensures |args| == |parts|
    ensures forall j :: 0 <= j < |parts| ==> args[j] == TrimSpace(parts[j])
  {
    args := parts;
    var i := 0;
    while i < |args|
      invariant 0 <= i <= |args| == |parts|
      invariant forall j :: 0 <= j < i ==> args[j] == TrimSpace(parts[j])
      invariant forall j :: i <= j < |args| ==> args[j] == parts[j]
    {
      args := args[i := TrimSpace(args[i])];
      i := i + 1;
    }
  }

  /** A script line in the workload format: `[<transaction>] <body>`. */
  function Bracketed(tx: string, body: string): string {
    "[" + tx + "] " + body
  }

  /** The script line `[<transaction>] <raw command string>` that a parsed record describes. */
  function LineOf(c: Command): string
    requires |c.values| >= 1
  {
    Bracketed(c.values[|c.values| - 1], c.rawCommandString)
  }

  /**
   * A line `[<tx>] <raw>` whose parts hold no `]` gives back `tx` as its
   * transaction and ` <raw>` as the text that removeBrackets trims.
   */
  lemma BracketedLine(tx: string, raw: string)
    requires ']' !in tx && ']' !in raw
    ensures TransactionNumber(Bracketed(tx, raw)) == Some(tx)
    ensures RemoveBrackets(Bracketed(tx, raw)) == TrimSpace(" " + raw)
  {
    var line, q := Bracketed(tx, raw), |tx| + 1;
    BracketedMarks(tx, raw);
    assert line[1..q] == tx;
    assert line[q + 1..] == " " + raw;
  }

  /** In `[<tx>] <raw>` with no `]` in either part, the only `]` is the one after `tx`. */
  lemma BracketedMarks(tx: string, raw: string)
    requires ']' !in tx && ']' !in raw
    ensures var line, q := Bracketed(tx, raw), |tx| + 1;
      Index(line, '[') == 0 && Index(line, ']') == q && LastIndex(line, ']') == q
  {
    var line, q := Bracketed(tx, raw), |tx| + 1;
    assert line[0] == '[' && line[q] == ']';
    IndexIsFirst(line, '[', 0);
    IndexIsFirst(line, ']', q);
    LastIndexIsLast(line, ']', q);
    assert line[q + 1] == ' ';
    assert forall k :: 0 < k < q ==> line[k] == tx[k - 1];
    assert forall k :: q + 1 < k < |line| ==> line[k] == raw[k - q - 2];
  }

  /** Putting a space in front of a trimmed string does not survive trimming. */
  lemma TrimSpaceAfterBlank(raw: string)
    requires raw != [] && Trimmed(raw)
    ensures TrimSpace(" " + raw) == raw
  {
    assert (" " + raw)[1..] == raw;
    assert TrimLeft(" " + raw) == TrimLeft(raw) == raw;
  }

  /**
   * Writing a parsed record back as a line and parsing that line gives the
   * same record, as long as neither its transaction nor its raw command
   * string holds a `]` (one would move where the body or the transaction is
   * cut).
   */
  lemma ReparseLineOf(line: string)
    requires Parse(line).Parsed?
    requires var c := Parse(line).cmd;
      ']' !in c.values[|c.values| - 1] && ']' !in c.rawCommandString
    ensures Parse(LineOf(Parse(line).cmd)) == Parse(line)
  {
    var c := Parse(line).cmd;
    var n := |c.values|;
    var tx, raw := c.values[n - 1], c.rawCommandString;
    var ts := c.values[..n - 1];
    ParsedFields(line);
    assert ts == Tokens(RemoveBrackets(line));
    BracketedLine(tx, raw);
    AcceptedNameLength(ts[0]);
    JoinTrimmed(ts);
    TrimSpaceAfterBlank(raw);
    TokensOfJoined(ts);
  }

  /**
   * Which of the three outcomes a line has: a panic exactly when no `[`
   * comes before a `]`; otherwise a refusal with the registry's error exactly
   * when the first field, upper-cased, is not a registered name.
   */
  lemma ParseOutcomes(line: string)
    ensures Parse(line).Panicked? <==>
      !exists i, j :: 0 <= i < j < |line| && line[i] == '[' && line[j] == ']'
    ensures Parse(line).Rejected? <==>
      TransactionNumber(line).Some? && ToUpper(Tokens(RemoveBrackets(line))[0]) !in Schemas
    ensures Parse(line).Rejected? ==> Parse(line).error == "Invalid Command"
  {
    TransactionNumberFound(line);
  }

  /**
   * The fields of a parsed record: the name is the first field as written
   * and is registered, the flags are the table's, the values are the fields
   * followed by the transaction, and the raw command string is the fields
   * joined by ",".
   */
  lemma ParsedFields(line: string)
    requires Parse(line).Parsed?
    ensures TransactionNumber(line).Some?
    ensures var c, ts := Parse(line).cmd, Tokens(RemoveBrackets(line));
      && c.command == ts[0] && ToUpper(ts[0]) in Schemas && SchemaOf(c) == Schemas[ToUpper(ts[0])]
      && c.values == ts + [TransactionNumber(line).value]
      && c.rawCommandString == Join(ts)
  {
  }

  /**
   * A parsed record's values are its raw command string split on ",", then
   * the transaction.
   */
  lemma ParsedRawSplits(line: string)
    requires Parse(line).Parsed?
    ensures TransactionNumber(line).Some?
    ensures var c := Parse(line).cmd;
      c.values == Split(c.rawCommandString) + [TransactionNumber(line).value]
  {
    ParsedFields(line);
    SplitJoin(Tokens(RemoveBrackets(line)));
  }

  /** The transaction and the fields that parseLine finds in a written line. */
  lemma WrittenParts(tx: string, ts: seq<string>)
    requires ']' !in tx && |ts| >= 1 && ts[0] != []
    requires forall i :: 0 <= i < |ts| ==> Trimmed(ts[i]) && ',' !in ts[i] && ']' !in ts[i]
    ensures TransactionNumber(Bracketed(tx, Join(ts))) == Some(tx)
    ensures Tokens(RemoveBrackets(Bracketed(tx, Join(ts)))) == ts
  {
    var raw := Join(ts);
    JoinKeepsOut(ts, ']');
    BracketedLine(tx, raw);
    JoinTrimmed(ts);
    TrimSpaceAfterBlank(raw);
    TokensOfJoined(ts);
  }

  /** parseLine is determined by the transaction and the fields it finds in the line. */
  lemma ParseFromParts(line: string, tx: string, ts: seq<string>)
    requires TransactionNumber(line) == Some(tx)
    requires Tokens(RemoveBrackets(line)) == ts
    ensures Parse(line) == Assemble(ts, tx)
  {
  }

  /**
   * A line `[<tx>] <body>` whose body is trimmed and non-empty, with no `]`
   * in either part, has `tx` as its transaction and `body` as what follows
   * the brackets.
   */
  lemma BracketedBody(tx: string, body: string)
    requires ']' !in tx && ']' !in body && body != [] && Trimmed(body)
    ensures TransactionNumber(Bracketed(tx, body)) == Some(tx)
    ensures RemoveBrackets(Bracketed(tx, body)) == body
  {
    BracketedLine(tx, body);
    TrimSpaceAfterBlank(body);
  }

  /** Fields written with or without one blank after each comma read back without it. */
  lemma TokensOfPadded(pieces: seq<string>, ts: seq<string>)
    requires |pieces| == |ts| >= 1
    requires forall i :: 0 <= i < |ts| ==> ts[i] != [] && Trimmed(ts[i]) && ',' !in ts[i]
    requires forall i :: 0 <= i < |ts| ==> pieces[i] == ts[i] || pieces[i] == " " + ts[i]
    ensures Tokens(Join(pieces)) == ts
  {
    forall i | 0 <= i < |ts|
      ensures ',' !in pieces[i] && TrimSpace(pieces[i]) == ts[i]
    {
      if pieces[i] == ts[i] {
        TrimSpaceOfTrimmed(ts[i]);
      } else {
        TrimSpaceAfterBlank(ts[i]);
      }
    }
    TokensOfJoin(pieces);
  }

  /** A line with no `[` at all makes getTransactionNumber panic. */
  lemma NoOpeningBracket(line: string)
    requires '[' !in line
    ensures Parse(line) == Panicked
  {
    IndexSpec(line, '[');
  }
}
