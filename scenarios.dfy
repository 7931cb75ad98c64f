/**
 * Compile sessions against the ledger, as a caller would drive them. They
 * show that the contracts compose. A warning is recorded, found and tolerated
 * by the console stream. A syntax error halts the build and marks the build
 * as failed.
 */
module Scenarios {
  import opened Wrappers
  import opened Text
  import opened Diagnostics

  /** Both reports of the session are trimmed before they are written. */
  lemma SessionTrims()
    ensures Trim("unused") == "unused"
    ensures Trim(" bad ") == "bad"
  {
    TrimFixedPoint("unused");
    assert " bad "[..|" bad "| - 1] == " bad";
    assert TrimEndWhile(" bad", IsWhiteSpace) == " bad";
    assert TrimEndWhile(" bad ", IsWhiteSpace) == " bad";
    assert " bad"[1..] == "bad";
    assert TrimStartWhile("bad", IsWhiteSpace) == "bad";
  }

  /** A warning without a file name takes the short form. */
  lemma UnlocatedWarningLine()
    ensures FormatLine(Warning, "unused", None, 3, 4) == "Warning: unused"
  {
  }

  /** An error with a file name takes the long form. */
  lemma LocatedErrorLine()
    ensures FormatLine(Error, "bad", Some("f"), 1, 2) == "Error: bad (f - line: 1, col: 2)"
  {
  }

  /** The console line of a warning with a location. */
  lemma LocatedWarningLine()
    ensures FormatLine(Warning, "unused", Some("f"), 1, 2) == "Warning: unused (f - line: 1, col: 2)"
  {
    assert IntToString(1) == "1" && IntToString(2) == "2";
  }

  /** The web copy of a report has an empty path, so it takes the short form. */
  lemma WebCopyLine()
    ensures FormatLine(Warning, "unused", Some(""), 1, 2) == "Warning: unused"
  {
  }

  /** On the console stream a warning is recorded, found and tolerated. */
  method ConsoleWarningSession() returns (found: bool, ok: bool, warned: Outcome, lines: seq<string>)
    ensures found && ok && warned == Ok
    ensures lines == ["Warning: unused"]
  {
    SessionTrims();
    UnlocatedWarningLine();
    var status := new BuildStatus(false, false, false, false);
    var console := status.MessageHandler;
    warned := status.LogWarning(IdUnboundIdentifier, "unused", None, 3, 4);
    found := status.ContainsWarning(IdUnboundIdentifier);
    var e, w;
    ok, e, w := status.GetBuildResult();
    lines := console.lines;
  }

  /** On the console stream a syntax error halts the build with the raw
      message, and the build is reported as failed. */
  method ConsoleErrorSession() returns (halted: Outcome, ok: bool, errcount: int, lines: seq<string>)
    ensures halted == Halt(" bad \n")
    ensures !ok && errcount == 1
    ensures lines == ["Error: bad (f - line: 1, col: 2)"]
  {
    SessionTrims();
    LocatedErrorLine();
    var status := new BuildStatus(false, false, false, false);
    var console := status.MessageHandler;
    halted := status.LogSyntaxError(" bad ", Some("f"), 1, 2);
    var w;
    ok, errcount, w := status.GetBuildResult();
    lines := console.lines;
  }

  /** With the web runner on and an execution log present, a warning with a
      location reaches the console with it and the web log without it. */
  method WebSession() returns (consoleLines: seq<string>, webLines: seq<string>, warned: Outcome)
    ensures warned == Ok
    ensures consoleLines == ["Warning: unused (f - line: 1, col: 2)"]
    ensures webLines == ["Warning: unused"]
  {
    SessionTrims();
    LocatedWarningLine();
    WebCopyLine();
    var status := new BuildStatus(false, true, true, false);
    var console, web := status.MessageHandler, status.WebMsgHandler;
    warned := status.LogWarning(IdUnboundIdentifier, "unused", Some("f"), 1, 2);
    consoleLines, webLines := console.lines, web.lines;
  }
}
