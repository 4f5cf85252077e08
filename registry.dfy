/**
 * The command registry of workgen.go: the `command` record and the fixed
 * table from the sixteen command names to the positional fields each one
 * carries after its name (username, stock symbol, amount).
 */
module Registry {
  import opened Wrappers
  import opened GoStrings

  /** Go's `command` struct, as a value. */
  datatype Command = Command(
    command: string,             // the name as written in the script, case kept
    rawCommandString: string,    // the trimmed fields joined by ","
    usernameRequired: bool,
    stockIdRequired: bool,
    stockAmountRequired: bool,
    values: seq<string>)         // the fields, then the transaction

  /** Which positional fields follow a command's name. */
  datatype Schema = Schema(username: bool, stock: bool, amount: bool)

  /** The registry as a table, keyed by the upper-case command name. */
  const Schemas: map<string, Schema> := map[
    "ADD" := Schema(true, false, true),
    "BUY" := Schema(true, true, true),
    "SELL" := Schema(true, true, true),
    "QUOTE" := Schema(true, true, false),
    "COMMIT_BUY" := Schema(true, false, false),
    "COMMIT_SELL" := Schema(true, false, false),
    "CANCEL_BUY" := Schema(true, false, false),
    "CANCEL_SELL" := Schema(true, false, false),
    "SET_BUY_AMOUNT" := Schema(true, true, true),
    "SET_BUY_TRIGGER" := Schema(true, true, true),
    "CANCEL_SET_BUY" := Schema(true, true, false),
    "SET_SELL_AMOUNT" := Schema(true, true, true),
    "SET_SELL_TRIGGER" := Schema(true, true, true),
    "CANCEL_SET_SELL" := Schema(true, true, false),
    "DUMPLOG" := Schema(true, false, false),
    "DISPLAY_SUMMARY" := Schema(true, false, false)
  ]

  function SchemaOf(c: Command): Schema {
    Schema(c.usernameRequired, c.stockIdRequired, c.stockAmountRequired)
  }

  /** createCommandStruct: a record with the given flags, no raw text and no values yet. */
  function CreateCommandStruct(c: string, uname: bool, stock: bool, amt: bool): (r: Command)
    ensures r.command == c && SchemaOf(r) == Schema(uname, stock, amt)
    ensures r.rawCommandString == "" && r.values == []
  {
    Command(c, "", uname, stock, amt, [])
  }

  /**
   * checkForValidCommand: the token is looked up by its upper case. A known
   * name yields a record that keeps the token as written, with the table's
   * flags; anything else yields the error "Invalid Command".
   */
  function CheckForValidCommand(cmd: string): (r: Result<Command>)
    ensures r.Ok? <==> ToUpper(cmd) in Schemas
    ensures r.Ok? ==> r.value.command == cmd && SchemaOf(r.value) == Schemas[ToUpper(cmd)]
    ensures r.Ok? ==> r.value.rawCommandString == "" && r.value.values == []
    ensures r.Err? ==> r.error == "Invalid Command"
  {
    match ToUpper(cmd)
    case "ADD" => Ok(CreateCommandStruct(cmd, true, false, true))
    case "BUY" => Ok(CreateCommandStruct(cmd, true, true, true))
    case "SELL" => Ok(CreateCommandStruct(cmd, true, true, true))
    case "QUOTE" => Ok(CreateCommandStruct(cmd, true, true, false))
    case "COMMIT_BUY" => Ok(CreateCommandStruct(cmd, true, false, false))
    case "COMMIT_SELL" => Ok(CreateCommandStruct(cmd, true, false, false))
    case "CANCEL_BUY" => Ok(CreateCommandStruct(cmd, true, false, false))
    case "CANCEL_SELL" => Ok(CreateCommandStruct(cmd, true, false, false))
    case "SET_BUY_AMOUNT" => Ok(CreateCommandStruct(cmd, true, true, true))
    case "SET_BUY_TRIGGER" => Ok(CreateCommandStruct(cmd, true, true, true))
    case "CANCEL_SET_BUY" => Ok(CreateCommandStruct(cmd, true, true, false))
    case "SET_SELL_AMOUNT" => Ok(CreateCommandStruct(cmd, true, true, true))
    case "SET_SELL_TRIGGER" => Ok(CreateCommandStruct(cmd, true, true, true))
    case "CANCEL_SET_SELL" => Ok(CreateCommandStruct(cmd, true, true, false))
    case "DUMPLOG" => Ok(CreateCommandStruct(cmd, true, false, false))
    case "DISPLAY_SUMMARY" => Ok(CreateCommandStruct(cmd, true, false, false))
    case _ => Err("Invalid Command")
  }

  /** Every registered command carries a username. */
  lemma UsernameAlwaysRequired(cmd: string)
    requires CheckForValidCommand(cmd).Ok?
    ensures CheckForValidCommand(cmd).value.usernameRequired
  {
  }

  /** Tokens that agree up to case are accepted or refused together, with the same flags. */
  lemma CaseInsensitive(a: string, b: string)
    requires ToUpper(a) == ToUpper(b)
    ensures CheckForValidCommand(a).Ok? == CheckForValidCommand(b).Ok?
    ensures CheckForValidCommand(a).Ok? ==>
      SchemaOf(CheckForValidCommand(a).value) == SchemaOf(CheckForValidCommand(b).value)
  {
  }

  /** An accepted token is at least three characters long (ADD, BUY). */
  lemma AcceptedNameLength(cmd: string)
    requires CheckForValidCommand(cmd).Ok?
    ensures |cmd| >= 3
  {
    assert |ToUpper(cmd)| == |cmd|;
  }

  /** Lower-case and mixed-case tokens find their rows, and keep their spelling. */
  lemma FlagTableByCase()
    ensures CheckForValidCommand("add") == Ok(Command("add", "", true, false, true, []))
    ensures CheckForValidCommand("Quote") == Ok(Command("Quote", "", true, true, false, []))
    ensures CheckForValidCommand("commit_sell") == Ok(Command("commit_sell", "", true, false, false, []))
  {
    assert ToUpper("add") == "ADD";
    assert ToUpper("Quote") == "QUOTE";
    assert ToUpper("commit_sell") == "COMMIT_SELL";
  }

  /** Two more rows: a cancel that names a stock, and the log dump. */
  lemma FlagTableRows()
    ensures CheckForValidCommand("CANCEL_SET_BUY") == Ok(Command("CANCEL_SET_BUY", "", true, true, false, []))
    ensures CheckForValidCommand("DumpLog") == Ok(Command("DumpLog", "", true, false, false, []))
  {
    assert ToUpper("CANCEL_SET_BUY") == "CANCEL_SET_BUY";
    assert ToUpper("DumpLog") == "DUMPLOG";
  }

  /** An unknown name is refused, and so is a known one with a blank in front of it. */
  lemma RejectedTokens()
    ensures CheckForValidCommand("FROB") == Err("Invalid Command")
    ensures CheckForValidCommand(" ADD") == Err("Invalid Command")
  {
    assert ToUpper("FROB") == "FROB";
    assert ToUpper(" ADD") == " ADD";
  }
}
