/**
 * Argument validation of RecoverLost#initialize (recoverlost_lib.rb, lines 19-47).
 * Printing the message and calling `exit` become the Usage and Rejected results.
 */
module Arguments {
  import opened Wrappers
  import opened Text

  datatype Config = Config(
    addr: string,
    port: string,
    strgPath: string,
    ymdhms: Option<string>,   // @ymdhms, nil when argv has no fourth element
    pushvCmd: string,
    nodeId: string,           // "#{@addr}_#{@port}"
    alldata: bool)

  datatype Parsed =
    | Accepted(config: Config)
    | Usage(message: string)      // wrong argument count; printed to standard output
    | Rejected(message: string)   // malformed port or timestamp; printed to standard error

  /** The argument count check of lines 20-28: at least four, or exactly three in alldata mode. */
  predicate CountOk(argv: seq<string>, alldata: bool) {
    if alldata then |argv| == 3 else |argv| >= 4
  }

  /** The 14-digit yyyymmddhhmmss form the check of line 40 demands. */
  predicate TimestampOk(s: string) {
    |s| == 14 && AllDigits(s)
  }

  function Validate(pname: string, pushvCmd: string, argv: seq<string>, alldata: bool): (r: Parsed)
    // the count is checked first, whatever the other arguments hold
    ensures !CountOk(argv, alldata) <==> r.Usage?
    ensures r.Accepted? <==>
      CountOk(argv, alldata) && AllDigits(argv[1]) && (|argv| > 3 ==> TimestampOk(argv[3]))
    ensures r.Rejected? ==> CountOk(argv, alldata) && (!AllDigits(argv[1]) || !TimestampOk(argv[3]))
    ensures r.Accepted? ==>
      var c := r.config;
      && c.addr == argv[0] && c.port == argv[1] && c.strgPath == argv[2]
      && c.nodeId == argv[0] + "_" + argv[1]
      && c.pushvCmd == pushvCmd && c.alldata == alldata
      // outside alldata mode a timestamp is always present, so always checked
      && (c.ymdhms.Some? <==> !alldata)
      && (c.ymdhms.Some? ==> c.ymdhms.value == argv[3] && TimestampOk(c.ymdhms.value))
  {
    if !alldata && |argv| < 4 then
      Usage("usage:" + pname + " address port storage-path [yyyymmddhhmmss]")
    else if alldata && |argv| != 3 then
      Usage("usage:" + pname + " address port storage-path")
    else
      var ymdhms := if |argv| > 3 then Some(argv[3]) else None;
      if !AllDigits(argv[1]) then Rejected("port was not numeric.")
      else if ymdhms.Some? && (|ymdhms.value| != 14 || !AllDigits(ymdhms.value)) then
        Rejected("yyyymmddhhmmss format mismatch.")
      else
        Accepted(Config(argv[0], argv[1], argv[2], ymdhms, pushvCmd, argv[0] + "_" + argv[1], alldata))
  }

  /** The usage line advertises the timestamp as optional, yet three arguments are refused outside alldata mode. */
  lemma TimestampMandatory(pname: string, pushvCmd: string, addr: string, port: string, path: string)
    ensures Validate(pname, pushvCmd, [addr, port, path], false).Usage?
    ensures AllDigits(port) ==> Validate(pname, pushvCmd, [addr, port, path], true).Accepted?
  {
  }

  /** A 14-character timestamp that is not all digits is refused, before any connection. */
  lemma NonNumericTimestamp(pname: string, pushvCmd: string)
    ensures Validate(pname, pushvCmd, ["127.0.0.1", "10001", "/data", "2024010112000x"], false)
         == Rejected("yyyymmddhhmmss format mismatch.")
  {
    assert !IsDigit("2024010112000x"[13]);
  }
}
