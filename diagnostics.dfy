/**
 * The compiler's diagnostic ledger (`ProtoCore.BuildStatus`) and the output
 * streams it reports to (`IOutputStream` and its four implementations).
 *
 * The ledger keeps two append-only lists, one of errors and one of warnings.
 * Each report is also formatted as an `OutputMessage` and written to the
 * primary handler. Only when a primary handler is set, a copy with an empty
 * path also goes to the web handler, if that is set. A stream answers through
 * the message's mutable `Continue` flag. When the flag is still false after
 * the write, the ledger halts the build. In the source the halt is a
 * thrown `BuildHaltException`; here it is the `Halt` outcome.
 */
module Diagnostics {
  import opened Wrappers
  import opened Text

  datatype MessageType = Info | Warning | Error

  /** `MessageType.ToString()`. The three names start with different letters,
      so a line's first character tells its type. */
  function TypeName(t: MessageType): (r: string)
    ensures r != [] && ':' !in r
    ensures r[0] == (match t case Info => 'I' case Warning => 'W' case Error => 'E')
  {
    match t
    case Info => "Info"
    case Warning => "Warning"
    case Error => "Error"
  }

  /** `BuildData.WarningID`. */
  datatype WarningID =
    | Default
    | AccessViolation
    | CallingConstructorInConstructor
    | CallingConstructorOnInstance
    | CallingNonStaticMethodOnClass
    | FunctionAbnormalExit
    | FunctionAlreadyDefined
    | FunctionNotFound
    | IdUnboundIdentifier
    | InvalidArguments
    | InvalidStaticCyclicDependency
    | InvalidRangeExpression
    | InvalidThis
    | MismatchReturnType
    | MissingReturnStatement
    | Parsing
    | TypeUndefined
    | PropertyNotFound
    | FileNotFound
    | AlreadyImported
    | WarnMax

  /** A recorded error. `None` stands for a null file name. */
  datatype ErrorEntry = ErrorEntry(fileName: Option<string>, message: string, line: int, col: int)

  /** A recorded warning. */
  datatype WarningEntry = WarningEntry(id: WarningID, msg: string, line: int, col: int, fileName: Option<string>)

  /** How a logging call ends. It either returns normally, or it throws a
      `BuildHaltException` whose `errorMsg` the `Halt` case carries. */
  datatype Outcome = Ok | Halt(errorMsg: string)

  /** `CompileStateTracker.ErrorType`, the kind of a delta-execution record. */
  datatype ErrorType = ErrorKind | WarningKind

  /** One call of `CompileStateTracker.LogErrorInGlobalMap`. Only the calls are recorded
      here; what the compile state does with them is outside this model. */
  datatype GlobalMapCall =
    GlobalMapCall(kind: ErrorType, message: string, fileName: Option<string>, line: int, col: int, warnId: Option<WarningID>)

  /** `string.IsNullOrEmpty`. */
  predicate IsNullOrEmpty(s: Option<string>)
  {
    s.None? || s.value == []
  }

  /** The line every standard stream writes for a message. The short form
      `Type: Message` is used when there is no file path. Otherwise the line is
      `Type: Message (FilePath - line: Line, col: Column)`. */
  function FormatLine(t: MessageType, message: string, filePath: Option<string>, line: int, column: int): (r: string)
    ensures |TypeName(t) + ": " + message| <= |r|
    ensures r[..|TypeName(t) + ": " + message|] == TypeName(t) + ": " + message
    ensures r == TypeName(t) + ": " + message <==> IsNullOrEmpty(filePath)
  {
    if IsNullOrEmpty(filePath) then
      TypeName(t) + ": " + message
    else
      TypeName(t) + ": " + message + " (" + filePath.value + " - line: " + IntToString(line) +
      ", col: " + IntToString(column) + ")"
  }

  /** The text `ReportBuildResult` builds before trimming it. */
  function BuildSummary(errorCount: int, warningCount: int): (r: string)
    ensures |r| > 18 && r[..18] == "========== Build: " && r[|r| - 1] == '\n'
  {
    "========== Build: " + IntToString(errorCount) + " error(s), " + IntToString(warningCount) +
    " warning(s) ==========\n"
  }

  /** A line names its message type: two equal lines have the same type. */
  lemma FormatLineDeterminesType(t1: MessageType, m1: string, p1: Option<string>, l1: int, c1: int,
                                 t2: MessageType, m2: string, p2: Option<string>, l2: int, c2: int)
    requires FormatLine(t1, m1, p1, l1, c1) == FormatLine(t2, m2, p2, l2, c2)
    ensures t1 == t2
  {
    var r := FormatLine(t1, m1, p1, l1, c1);
    assert r[0] == (TypeName(t1) + ": " + m1)[0] == TypeName(t1)[0];
    assert r[0] == (TypeName(t2) + ": " + m2)[0] == TypeName(t2)[0];
  }

  /** The summary names its counts unambiguously: equal summaries report
      equal error and warning counts. */
  lemma BuildSummaryInjective(e1: int, w1: int, e2: int, w2: int)
    requires BuildSummary(e1, w1) == BuildSummary(e2, w2)
    ensures e1 == e2 && w1 == w2
  {
    var r1, r2 := SummaryCounts(e1, w1), SummaryCounts(e2, w2);
    SummaryShape(e1, w1);
    SummaryShape(e2, w2);
    assert r1 == BuildSummary(e1, w1)[18..] == r2;
    var x1, y1, x2, y2 := IntToString(e1), IntToString(w1), IntToString(e2), IntToString(w2);
    SplitBeforeSpace(x1, " error(s), " + (y1 + " warning(s) ==========\n"),
                     x2, " error(s), " + (y2 + " warning(s) ==========\n"));
    var mid, u1, u2 := " error(s), ", y1 + " warning(s) ==========\n", y2 + " warning(s) ==========\n";
    assert u1 == (mid + u1)[|mid|..] == (mid + u2)[|mid|..] == u2;
    SplitBeforeSpace(y1, " warning(s) ==========\n", y2, " warning(s) ==========\n");
    IntToStringInjective(e1, e2);
    IntToStringInjective(w1, w2);
  }

  /** The summary after its fixed 18-character opening. */
  function SummaryCounts(errorCount: int, warningCount: int): string
  {
    IntToString(errorCount) + (" error(s), " + (IntToString(warningCount) + " warning(s) ==========\n"))
  }

  lemma SummaryShape(errorCount: int, warningCount: int)
    ensures BuildSummary(errorCount, warningCount) == "========== Build: " + SummaryCounts(errorCount, warningCount)
    ensures BuildSummary(errorCount, warningCount)[18..] == SummaryCounts(errorCount, warningCount)
  {
    var p := "========== Build: ";
    assert BuildSummary(errorCount, warningCount) == p + SummaryCounts(errorCount, warningCount);
    assert (p + SummaryCounts(errorCount, warningCount))[|p|..] == SummaryCounts(errorCount, warningCount);
  }

  /** The trimmed summary is the summary without its final newline. */
  lemma BuildSummaryTrimmed(errorCount: int, warningCount: int)
    ensures var s := BuildSummary(errorCount, warningCount);
      Trim(s) == s[..|s| - 1] && Trim(s)[|Trim(s)| - 1] == '='
  {
    var s := BuildSummary(errorCount, warningCount);
    var body := s[..|s| - 1];
    assert s == body + "\n";
    assert body[|body| - 1] == '=';
    assert TrimEndWhile(s, IsWhiteSpace) == TrimEndWhile(body, IsWhiteSpace);
    assert TrimEndWhile(body, IsWhiteSpace) == body;
    assert body[0] == '=';
    assert TrimStartWhile(body, IsWhiteSpace) == body;
  }

  /** The kinds of `IOutputStream`. `OtherStream` stands for any other
      implementation, such as an IDE's. It is described only by the message
      types for which it sets `Continue`, and its output is not observed here. */
  datatype StreamKind =
    | ConsoleStream
    | FileStream
    | TextStream
    | WebStream(hasExecutionLog: bool)
    | OtherStream(continues: set<MessageType>)
  {
    /** One of the four implementations in the source. */
    predicate IsStandard()
    {
      !OtherStream?
    }
  }

  /** Whether a stream of kind `k` sets `Continue` when it writes a message of type `t`. */
  predicate SetsContinue(k: StreamKind, t: MessageType)
  {
    if k.OtherStream? then t in k.continues else t == Warning
  }

  /** The lines a stream of kind `k` adds to its output for one message. A web
      stream without an execution log drops the message. */
  function LinesWritten(k: StreamKind, t: MessageType, message: string, filePath: Option<string>, line: int, column: int): seq<string>
  {
    match k
    case WebStream(hasLog) => if hasLog then [FormatLine(t, message, filePath, line, column)] else []
    case OtherStream(_) => []
    case _ => [FormatLine(t, message, filePath, line, column)]
  }

  /** `OutputMessage`: a report passed by reference to a stream, which may set `Continue`. */
  class OutputMessage {
    const Type: MessageType
    const Message: string
    const FilePath: Option<string>
    const Line: int
    const Column: int
    var Continue: bool

    /** A message with a source location. */
    constructor (t: MessageType, message: string, filePath: Option<string>, line: int, column: int)
      ensures Type == t && Message == message && FilePath == filePath && Line == line && Column == column
      ensures !Continue
    {
      Type, Message, FilePath, Line, Column := t, message, filePath, line, column;
      Continue := false;
    }

    /** A message without a source location: empty path, line and column -1. */
    constructor Generic(t: MessageType, message: string)
      ensures Type == t && Message == message && FilePath == Some("") && Line == -1 && Column == -1
      ensures !Continue
    {
      Type, Message, FilePath, Line, Column := t, message, Some(""), -1, -1;
      Continue := false;
    }

    /** An `Info` message used only for print-out. */
    constructor Plain(message: string)
      ensures Type == Info && Message == message && FilePath == Some("") && Line == -1 && Column == -1
      ensures !Continue
    {
      Type, Message, FilePath, Line, Column := Info, message, Some(""), -1, -1;
      Continue := false;
    }
  }

  /** An output stream. `lines` holds what it has written to its console, file
      stream, string writer or execution log. */
  class OutputStream {
    const kind: StreamKind
    var lines: seq<string>

    constructor (kind: StreamKind)
      ensures this.kind == kind && lines == []
    {
      this.kind := kind;
      lines := [];
    }

    /** `Write`. A null message is ignored. Otherwise the formatted line is
        written, and `Continue` is set when the stream's rule says so. A
        standard stream sets it for warnings only, and never clears it. */
    method Write(message: OutputMessage?)
      modifies this, message
      ensures message == null ==> lines == old(lines)
      ensures message != null ==>
        lines == old(lines) + LinesWritten(kind, message.Type, message.Message, message.FilePath, message.Line, message.Column)
      ensures message != null ==> message.Continue == (SetsContinue(kind, message.Type) || old(message.Continue))
    {
      if message == null {
        return;
      }
      var line := FormatLine(message.Type, message.Message, message.FilePath, message.Line, message.Column);
      match kind {
        case WebStream(hasLog) =>
          if hasLog {
            lines := lines + [line];
          }
        case OtherStream(_) =>
        case _ =>
          lines := lines + [line];
      }
      if SetsContinue(kind, message.Type) {
        message.Continue := true;
      }
    }
  }

  /** Whether some warning in `ws` has the id `k`. */
  predicate HasWarning(ws: seq<WarningEntry>, k: WarningID)
  {
    exists i :: 0 <= i < |ws| && ws[i].id == k
  }

  /** Appending a warning adds exactly its own id to those `HasWarning` finds. */
  lemma HasWarningAppend(ws: seq<WarningEntry>, e: WarningEntry, k: WarningID)
    ensures HasWarning(ws + [e], k) <==> HasWarning(ws, k) || e.id == k
  {
    if HasWarning(ws, k) {
      var i :| 0 <= i < |ws| && ws[i].id == k;
      assert (ws + [e])[i] == ws[i];
    }
    if e.id == k {
      assert (ws + [e])[|ws|] == e;
    }
  }

  /** `BuildStatus`, the diagnostic ledger of one compile session. */
  class BuildStatus {
    const warningAsError: bool
    /** `compileState.Options.IsDeltaExecution`. The source reads the option at
        every call, and its owner may change it between calls. */
    var isDeltaExecution: bool
    /** These flags only control the direct console echoes, which are not modelled. */
    const logWarnings: bool
    const logErrors: bool
    const displayBuildResult: bool

    var errors: seq<ErrorEntry>
    var warnings: seq<WarningEntry>
    var MessageHandler: OutputStream?
    var WebMsgHandler: OutputStream?
    /** The calls forwarded to the compile state's global error map. */
    var globalMapCalls: seq<GlobalMapCall>

    /** The constructor with a warnings-as-errors policy. It installs a console
        stream, and a web stream when the web runner is enabled. */
    constructor (isDeltaExecution: bool, webRunner: bool, hasExecutionLog: bool, warningAsError: bool)
      ensures this.isDeltaExecution == isDeltaExecution && this.warningAsError == warningAsError
      ensures logWarnings && logErrors && displayBuildResult
      ensures errors == [] && warnings == [] && globalMapCalls == []
      ensures MessageHandler != null && fresh(MessageHandler)
      ensures MessageHandler.kind == ConsoleStream && MessageHandler.lines == []
      ensures WebMsgHandler != null <==> webRunner
      ensures WebMsgHandler != null ==>
        fresh(WebMsgHandler) && WebMsgHandler.kind == WebStream(hasExecutionLog) && WebMsgHandler.lines == []
    {
      this.isDeltaExecution := isDeltaExecution;
      this.warningAsError := warningAsError;
      logWarnings, logErrors, displayBuildResult := true, true, true;
      errors, warnings, globalMapCalls := [], [], [];
      MessageHandler := new OutputStream(ConsoleStream);
      if webRunner {
        WebMsgHandler := new OutputStream(WebStream(hasExecutionLog));
      } else {
        WebMsgHandler := null;
      }
    }

    /** The constructor with echo flags. Warnings are not treated as errors,
        and no web stream is installed. */
    constructor WithEchoFlags(isDeltaExecution: bool, logWarnings: bool, logErrors: bool, displayBuildResult: bool)
      ensures this.isDeltaExecution == isDeltaExecution && !warningAsError
      ensures this.logWarnings == logWarnings && this.logErrors == logErrors
      ensures this.displayBuildResult == displayBuildResult
      ensures errors == [] && warnings == [] && globalMapCalls == []
      ensures MessageHandler != null && fresh(MessageHandler)
      ensures MessageHandler.kind == ConsoleStream && MessageHandler.lines == []
      ensures WebMsgHandler == null
    {
      this.isDeltaExecution := isDeltaExecution;
      warningAsError := false;
      this.logWarnings, this.logErrors, this.displayBuildResult := logWarnings, logErrors, displayBuildResult;
      errors, warnings, globalMapCalls := [], [], [];
      MessageHandler := new OutputStream(ConsoleStream);
      WebMsgHandler := null;
    }

    function ErrorCount(): nat
      reads this
    {
      |errors|
    }

    function WarningCount(): nat
      reads this
    {
      |warnings|
    }

    /** What the two handlers have written since the old state, for one message.
        The primary handler gets the message itself. If a primary handler is set
        and a web handler too, the web handler gets a copy with an empty path.
        Both can be the same stream. */
    twostate predicate Dispatched(t: MessageType, text: string, filePath: Option<string>, line: int, col: int)
      reads this, MessageHandler, WebMsgHandler
    {
      var primary := if MessageHandler == null then [] else LinesWritten(MessageHandler.kind, t, text, filePath, line, col);
      var copy := if MessageHandler == null || WebMsgHandler == null then []
                  else LinesWritten(WebMsgHandler.kind, t, text, Some(""), line, col);
      old(MessageHandler) == MessageHandler && old(WebMsgHandler) == WebMsgHandler &&
      (MessageHandler != null ==>
        MessageHandler.lines == old(MessageHandler.lines) + primary + (if WebMsgHandler == MessageHandler then copy else [])) &&
      (WebMsgHandler != null && WebMsgHandler != MessageHandler ==>
        WebMsgHandler.lines == old(WebMsgHandler.lines) + copy)
    }

    /** The dispatch shared by the three logging calls. Its result tells whether
        the primary message's `Continue` flag is still false after the write. */
    method Dispatch(t: MessageType, text: string, filePath: Option<string>, line: int, col: int) returns (halt: bool)
      modifies MessageHandler, WebMsgHandler
      ensures Dispatched(t, text, filePath, line, col)
      ensures halt == (MessageHandler != null && !SetsContinue(MessageHandler.kind, t))
    {
      halt := false;
      if MessageHandler != null {
        var outputmessage := new OutputMessage(t, text, filePath, line, col);
        MessageHandler.Write(outputmessage);
        if WebMsgHandler != null {
          var webOutputMsg := new OutputMessage(t, text, Some(""), line, col);
          WebMsgHandler.Write(webOutputMsg);
        }
        halt := !outputmessage.Continue;
      }
    }

    /** `LogSyntaxError`. It records the error whether or not it halts. It halts
        only when a primary handler is set and leaves `Continue` false, which
        every standard stream does for errors. */
    method LogSyntaxError(msg: string, fileName: Option<string>, line: int, col: int) returns (outcome: Outcome)
      modifies this`errors, this`globalMapCalls, MessageHandler, WebMsgHandler
      ensures errors == old(errors) + [ErrorEntry(fileName, msg, line, col)]
      ensures warnings == old(warnings)
      ensures globalMapCalls == old(globalMapCalls) +
        (if isDeltaExecution then [GlobalMapCall(ErrorKind, msg, fileName, line, col, None)] else [])
      ensures Dispatched(Error, Trim(msg), fileName, line, col)
      ensures outcome == if MessageHandler != null && !SetsContinue(MessageHandler.kind, Error)
                         then Halt(msg + "\n") else Ok
      ensures MessageHandler == null ==> outcome == Ok
      ensures MessageHandler != null && MessageHandler.kind.IsStandard() ==> outcome == Halt(msg + "\n")
    {
      if isDeltaExecution {
        globalMapCalls := globalMapCalls + [GlobalMapCall(ErrorKind, msg, fileName, line, col, None)];
      }
      errors := errors + [ErrorEntry(fileName, msg, line, col)];
      var halt := Dispatch(Error, Trim(msg), fileName, line, col);
      outcome := if halt then Halt(msg + "\n") else Ok;
    }

    /** `LogSemanticError`. It records the error and always halts, whatever the
        handlers do. */
    method LogSemanticError(msg: string, fileName: Option<string>, line: int, col: int) returns (outcome: Outcome)
      modifies this`errors, this`globalMapCalls, MessageHandler, WebMsgHandler
      ensures errors == old(errors) + [ErrorEntry(fileName, msg, line, col)]
      ensures warnings == old(warnings)
      ensures globalMapCalls == old(globalMapCalls) +
        (if isDeltaExecution then [GlobalMapCall(ErrorKind, msg, fileName, line, col, None)] else [])
      ensures Dispatched(Error, Trim(msg), fileName, line, col)
      ensures outcome == Halt(msg + "\n")
    {
      if isDeltaExecution {
        globalMapCalls := globalMapCalls + [GlobalMapCall(ErrorKind, msg, fileName, line, col, None)];
      }
      errors := errors + [ErrorEntry(fileName, msg, line, col)];
      // The source throws at two places, one when a handler leaves `Continue`
      // false and one after it; both throw the same message.
      var _ := Dispatch(Error, Trim(msg), fileName, line, col);
      return Halt(msg + "\n");
    }

    /** `LogWarning`. It records the warning. It halts under the same rule as a
        syntax error, so it never halts when the handler is a standard stream. */
    method LogWarning(warnId: WarningID, msg: string, fileName: Option<string>, line: int, col: int) returns (outcome: Outcome)
      modifies this`warnings, this`globalMapCalls, MessageHandler, WebMsgHandler
      ensures warnings == old(warnings) + [WarningEntry(warnId, msg, line, col, fileName)]
      ensures errors == old(errors)
      ensures globalMapCalls == old(globalMapCalls) +
        (if isDeltaExecution then [GlobalMapCall(WarningKind, msg, fileName, line, col, Some(warnId))] else [])
      ensures Dispatched(Warning, Trim(msg), fileName, line, col)
      ensures outcome == if MessageHandler != null && !SetsContinue(MessageHandler.kind, Warning)
                         then Halt(msg + "\n") else Ok
      ensures MessageHandler == null || MessageHandler.kind.IsStandard() ==> outcome == Ok
      ensures HasWarning(warnings, warnId)
    {
      warnings := warnings + [WarningEntry(warnId, msg, line, col, fileName)];
      HasWarningAppend(old(warnings), WarningEntry(warnId, msg, line, col, fileName), warnId);
      if isDeltaExecution {
        globalMapCalls := globalMapCalls + [GlobalMapCall(WarningKind, msg, fileName, line, col, Some(warnId))];
      }
      var halt := Dispatch(Warning, Trim(msg), fileName, line, col);
      outcome := if halt then Halt(msg + "\n") else Ok;
    }

    /** `ContainsWarning`: a linear scan for a warning with the given id. */
    method ContainsWarning(warnId: WarningID) returns (found: bool)
      ensures found == HasWarning(warnings, warnId)
    {
      for i := 0 to |warnings|
        invariant forall j :: 0 <= j < i ==> warnings[j].id != warnId
      {
        if warnId == warnings[i].id {
          return true;
        }
      }
      return false;
    }

    /** `ReportBuildResult`. It writes the trimmed summary as an `Info` message
        without a location to the primary handler. If a web handler is set too,
        the same message goes to it. Nothing is recorded and nothing halts. */
    method ReportBuildResult()
      modifies MessageHandler, WebMsgHandler
      ensures Dispatched(Info, Trim(BuildSummary(|errors|, |warnings|)), Some(""), -1, -1)
    {
      var buildResult := BuildSummary(|errors|, |warnings|);
      if MessageHandler != null {
        var outputMsg := new OutputMessage.Generic(Info, Trim(buildResult));
        MessageHandler.Write(outputMsg);
        if WebMsgHandler != null {
          WebMsgHandler.Write(outputMsg);
        }
      }
    }

    /** `GetBuildResult`: the two counts, and whether the build succeeded. It
        succeeds when there are no errors, and also no warnings if warnings are
        treated as errors. */
    method GetBuildResult() returns (ok: bool, errcount: int, warncount: int)
      ensures errcount == |errors| && warncount == |warnings|
      ensures ok <==> errcount == 0 && (warningAsError ==> warncount == 0)
    {
      errcount := ErrorCount();
      warncount := WarningCount();
      ok := if warningAsError then 0 == errcount && 0 == warncount else 0 == errcount;
    }
  }
}
