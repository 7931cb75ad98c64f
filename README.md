# DesignScript compiler core: diagnostic ledger and imperative code regenerator

This project models two independent parts of the DesignScript compiler core
(`ProtoCore`) in Dafny and proves properties of them.

- **The diagnostic ledger.** `BuildStatus` together with the `OutputMessage`
  and `IOutputStream` sinks it reports to (`diagnostics.dfy`).
  - Every `Log*` call appends one entry to an append-only list: one list for
    errors, one for warnings.
  - When the session does delta execution, the event is also forwarded to
    the compile state's global error map.
  - The trimmed message then goes to the primary handler. Only when a primary
    handler is set, a copy with a blank path also goes to the web handler, if
    that is set.
  - After the write, the build halts if the primary message's mutable
    `Continue` flag is still false. The source halts by throwing
    `BuildHaltException`. Here the call returns an `Outcome`, either `Ok` or
    `Halt(errorMsg)`.
  - The sinks are one class `OutputStream` with a `kind`. A sink's lines are
    a `seq<string>` that `Write` extends.
- **The regenerator.** `CodeGenDSImperative` walks imperative AST nodes depth
  first and appends DesignScript text to one buffer, `code` (`codegen.dfy`).
  - The pure function `Emit(env, node)` gives the text each node contributes.
  - Every emitting method is proved to append exactly `Emit` of its node.
    This includes the list emitter, which trims commas from the whole buffer.
  - Lemmas cover the emission rules:
    - marker calls undo the operator-to-call rewrite;
    - ordinary calls are comma-joined;
    - lists are braces around the comma-joined elements;
    - `GenerateCode` composes over concatenated root lists;
    - exact texts for sample ranges, calls, lists and definitions.
- **Shared text helpers** (`text.dfy`).
  - .NET's `String.Trim()` and `String.TrimEnd(',')`, with their
    characterisations.
  - The decimal rendering of an `int`, which `string.Format` uses for line
    and column numbers.
- **Worked sessions** (`scenarios.dfy`). A caller drives the ledger through
  sessions; the proofs show the contracts compose.

## Model

| member | source | states |
|---|---|---|
| Diagnostics.TypeName | Core/ProtoCore/BuildStatus.cs:168 | `MessageType.ToString()`. The contract states that a name is non-empty with no colon, and that the three names start with different letters: `I`, `W`, `E`. |
| Diagnostics.FormatLine | Core/ProtoCore/BuildStatus.cs:163-177 | The contract states that the line starts with `Type: Message`, and that it is exactly that short form if and only if the path is null or empty. The body gives the long form, ` (path - line: L, col: C)` after the message. |
| Diagnostics.FormatLineDeterminesType | Core/ProtoCore/BuildStatus.cs:163-177 | Two equal lines have the same message type. |
| Diagnostics.BuildSummary | Core/ProtoCore/BuildStatus.cs:584 | The summary opens with `========== Build: ` and ends with a newline. |
| Diagnostics.BuildSummaryInjective | Core/ProtoCore/BuildStatus.cs:584 | Equal summaries report equal error counts and equal warning counts. |
| Diagnostics.BuildSummaryTrimmed | Core/ProtoCore/BuildStatus.cs:584-592 | The trimmed build summary is the summary without its final newline. It still ends with `=`. |
| Diagnostics.HasWarningAppend | Core/ProtoCore/BuildStatus.cs:550-580 | Appending a warning makes `HasWarning` true for exactly the ids it was true for before, plus the new entry's id. |
| Diagnostics.OutputMessage.constructor | Core/ProtoCore/BuildStatus.cs:124-139 | A located message keeps its type, text, path, line and column, and `Continue` starts false. |
| Diagnostics.OutputMessage.Generic | Core/ProtoCore/BuildStatus.cs:114-121 | A generic message has an empty path, line -1 and column -1. |
| Diagnostics.OutputMessage.Plain | Core/ProtoCore/BuildStatus.cs:105-112 | A print-out message is `Info` with an empty path, line -1 and column -1. |
| Diagnostics.OutputStream.constructor | Core/ProtoCore/BuildStatus.cs:153-156 | A sink of the given kind starts with no lines written. This stands for the four sinks' constructors (also lines 194-204, 239-241 and 284-288). |
| Diagnostics.OutputStream.Write | Core/ProtoCore/BuildStatus.cs:158-181 | A null message changes nothing. Otherwise the sink gains the formatted line; a web sink gains it only if an execution log exists, and another sink's output is not observed. A standard sink sets `Continue` for a warning and leaves it as it was for any other type. Another sink sets it for the types it is described by. |
| Diagnostics.BuildStatus.constructor | Core/ProtoCore/BuildStatus.cs:391-413 | Both lists start empty. A fresh console handler is installed. A web handler is installed if and only if the web runner is on. The warnings-as-errors flag is kept. |
| Diagnostics.BuildStatus.WithEchoFlags | Core/ProtoCore/BuildStatus.cs:416-438 | Both lists start empty and a console handler is installed. There is no web handler, and warnings are not errors. |
| Diagnostics.BuildStatus.Dispatch | Core/ProtoCore/BuildStatus.cs:487-498 | The primary handler gets the message and the web handler a blank-path copy, only when a primary handler exists. The handlers may be one object. The result is whether the primary message's `Continue` is still false. |
| Diagnostics.BuildStatus.LogSyntaxError | Core/ProtoCore/BuildStatus.cs:458-499 | `errors` grows by exactly the untrimmed entry and `warnings` is unchanged, halt or not. A global-map call is recorded if and only if delta execution is on. The trimmed message is dispatched. The call halts with `msg + "\n"` if and only if a handler is set and leaves `Continue` false; so it never halts with no handler, and always halts with a standard one. |
| Diagnostics.BuildStatus.LogSemanticError | Core/ProtoCore/BuildStatus.cs:501-535 | It appends one error entry, leaves `warnings` alone and dispatches like a syntax error. It always halts with `msg + "\n"`, whatever the handlers do. |
| Diagnostics.BuildStatus.LogWarning | Core/ProtoCore/BuildStatus.cs:537-570 | It appends exactly one warning entry with the given id and leaves `errors` alone. A global-map call is recorded if and only if delta execution is on. The halt rule is the syntax-error rule, so it never halts with no handler or a standard handler. Afterwards `HasWarning` holds for the id. |
| Diagnostics.BuildStatus.ContainsWarning | Core/ProtoCore/BuildStatus.cs:572-580 | True if and only if some recorded warning has the id. |
| Diagnostics.BuildStatus.ReportBuildResult | Core/ProtoCore/BuildStatus.cs:582-600 | The trimmed summary with both list lengths is written as a location-free `Info` message to the primary handler, and the same message to the web handler. Neither list changes. |
| Diagnostics.BuildStatus.ErrorCount | Core/ProtoCore/BuildStatus.cs:380-383 | No contract of its own: the count is the length of `errors`. `GetBuildResult`'s contract states this. |
| Diagnostics.BuildStatus.WarningCount | Core/ProtoCore/BuildStatus.cs:385-388 | No contract of its own: the count is the length of `warnings`. `GetBuildResult`'s contract states this. |
| Diagnostics.BuildStatus.GetBuildResult | Core/ProtoCore/BuildStatus.cs:602-613 | The counts are the two list lengths. The result is true if and only if there are no errors, and also no warnings when `warningAsError` is set. |
| Text.Trim | Core/ProtoCore/BuildStatus.cs:487 | `String.Trim()`, used at lines 487, 522, 557 and 592. The result is no longer than the input. It neither starts nor ends with white space. |
| Text.TrimStartWhileSpec | Core/ProtoCore/BuildStatus.cs:487 | What is dropped from the front consists of dropped characters only. What is kept is a suffix of the input and does not start with one. |
| Text.TrimEndWhileSpec | Core/ProtoCore/CodeGenDSImperative.cs:129 | What is dropped from the end consists of dropped characters only. What is kept is a prefix of the input and does not end with one. |
| Text.TrimSpec | Core/ProtoCore/BuildStatus.cs:487 | The input is white space, then `Trim(s)`, then white space. `Trim(s)` neither starts nor ends with white space. |
| Text.TrimFixedPoint | Core/ProtoCore/BuildStatus.cs:487 | `Trim(s) == s` if and only if `s` is empty or neither starts nor ends with white space. |
| Text.TrimEndStopsAt | Core/ProtoCore/CodeGenDSImperative.cs:129 | A trailing trim never passes a kept character, so whatever precedes it is untouched. |
| Text.NatToString | Core/ProtoCore/BuildStatus.cs:173-176 | The decimal text is non-empty and all digits. It has no leading zero except for 0 itself. |
| Text.IntToString | Core/ProtoCore/BuildStatus.cs:173-176 | The number as `string.Format` writes it. The text is non-empty and starts with `-` if and only if the number is negative. All else is digits, with no space. |
| Text.FirstSpaceAt | Core/ProtoCore/BuildStatus.cs:584 | In a space-free text followed by a text that starts with a space, the first space is where the second text begins. |
| Text.SplitBeforeSpace | Core/ProtoCore/BuildStatus.cs:584 | Such a concatenation splits at that space in only one way. `BuildSummaryInjective` rests on this. |
| Text.NatToStringRoundTrip | Core/ProtoCore/BuildStatus.cs:173-176 | Reading the digits back gives the number. |
| Text.NatToStringInjective | Core/ProtoCore/BuildStatus.cs:173-176 | Different naturals have different decimal texts. |
| Text.IntToStringInjective | Core/ProtoCore/BuildStatus.cs:173-176 | Different integers, negative ones included, have different texts. |
| CodeGen.Emit | Core/ProtoCore/CodeGenDSImperative.cs:57-112 | No contract of its own. It defines the text each node class contributes, one case for each `DFSTraverse` branch. Every emitting method's contract equates the buffer's growth with it; the lemmas below state its properties. |
| CodeGen.EmitAll | Core/ProtoCore/CodeGenDSImperative.cs:46-49 | No contract of its own: the roots' texts in list order. `EmitAllAppend` and `GenerateCode` state its properties. |
| CodeGen.EmitAllAppend | Core/ProtoCore/CodeGenDSImperative.cs:42-51 | Regenerating two root lists one after the other gives the text of their concatenation. |
| CodeGen.TerminatedIsJoined | Core/ProtoCore/CodeGenDSImperative.cs:124-128 | The elements each followed by a comma equal the comma-joined elements plus one comma. |
| CodeGen.JoinArgsEndsWithLast | Core/ProtoCore/CodeGenDSImperative.cs:247-255 | The comma-joined text ends with the last element's text. |
| CodeGen.ExprListText | Core/ProtoCore/CodeGenDSImperative.cs:121-131 | An empty list gives `{}`. Otherwise the list is the comma-joined elements in braces, with every trailing comma trimmed. |
| CodeGen.ExprListJoined | Core/ProtoCore/CodeGenDSImperative.cs:121-131 | When the last element's text is non-empty and does not end with a comma, the list is exactly the comma-joined elements in braces. |
| CodeGen.ExprListOfThree | Core/ProtoCore/CodeGenDSImperative.cs:121-131 | Three elements with a clean last one give `{a,b,c}`. |
| CodeGen.ExprListExamples | Core/ProtoCore/CodeGenDSImperative.cs:121-131 | `[1,2,3]` gives `{1,2,3}`; an empty list gives `{}`. |
| CodeGen.ExprListTrailingGap | Core/ProtoCore/CodeGenDSImperative.cs:124-129 | Two trailing elements that emit nothing vanish with their separators: `[x, _, _]` gives `{x}`. |
| CodeGen.ExprListGapExample | Core/ProtoCore/CodeGenDSImperative.cs:124-129 | `[1, _, _]` gives `{1}`. |
| CodeGen.TrimCommasAfterClean | Core/ProtoCore/CodeGenDSImperative.cs:129 | Trimming the commas after a clean text gives the text back. |
| CodeGen.MarkerCallInvertsBinary | Core/ProtoCore/CodeGenDSImperative.cs:210-241 | A two-argument `%add`, `%sub`, `%mul`, `%div` or `%mod` call (when the operator's string is the marker's symbol) gives the same text as the binary expression it was rewritten from. |
| CodeGen.MarkerCallIgnoresExtraArguments | Core/ProtoCore/CodeGenDSImperative.cs:210-241 | `%add(1,2,x)` is accepted and gives `(1+2)`, even when `x` is a call whose function is not an identifier. |
| CodeGen.MarkerCallExamples | Core/ProtoCore/CodeGenDSImperative.cs:210-241 | `%add(1,2)` gives `(1+2)`; `%Not(x)` gives `(x!)`; an unknown marker gives `(12)`. |
| CodeGen.CallExamples | Core/ProtoCore/CodeGenDSImperative.cs:242-257 | `f(1,a,null)` keeps its commas with none trailing; `g()` has no arguments. |
| CodeGen.RangeExample | Core/ProtoCore/CodeGenDSImperative.cs:148-172 | `1..10..#5` regenerates as itself. |
| CodeGen.RangeEndpointExamples | Core/ProtoCore/CodeGenDSImperative.cs:148-172 | An identifier endpoint gives its name, so the range is `a..10..2`. A null endpoint leaves a gap. With no step, the text is `1..` with no second `..`. |
| CodeGen.BinaryExamples | Core/ProtoCore/CodeGenDSImperative.cs:79-91 | `a+b` is parenthesised. `x = a + b` is not, but gains the terminator; its right side is parenthesised. |
| CodeGen.LeafExamples | Core/ProtoCore/CodeGenDSImperative.cs:133-145 | `a[1]`, `a[1][2]` through the array's `Type`, `a.b`, `null` and a double's stored text. |
| CodeGen.SkippedNodes | Core/ProtoCore/CodeGenDSImperative.cs:57-112 | An unrecognised node and a top-level return statement emit nothing, whatever the return statement holds. |
| CodeGen.RootReturnIgnoresExpression | Core/ProtoCore/CodeGenDSImperative.cs:42-112 | A root list holding a return statement whose expression is a call with a non-identifier function is accepted and emits nothing, although that call alone is not well formed. |
| CodeGen.SampleBodyText | Core/ProtoCore/CodeGenDSImperative.cs:287-301 | Every body statement is terminated by `;\n`, even one that emits nothing. An assignment in a body is neither parenthesised nor given the terminator. |
| CodeGen.FunctionDefExample | Core/ProtoCore/CodeGenDSImperative.cs:268-310 | The exact text: the header `def f: int()` and a newline, then `{` and a newline. Next come the body lines `a=1;`, `return = a;` and a bare `;`, each ending in a newline. Last come `}` and a newline. |
| CodeGen.FunctionDeclarationExample | Core/ProtoCore/CodeGenDSImperative.cs:268-303 | No `: type` is written for the invalid UID, the signature text replaces `()\n`, and there is no block without a body. |
| CodeGen.CodeGenDSImperative.constructor | Core/ProtoCore/CodeGenDSImperative.cs:24-27 | Keeps the roots; the buffer starts empty. |
| CodeGen.CodeGenDSImperative.WithoutRoots | Core/ProtoCore/CodeGenDSImperative.cs:30-31 | No roots (null); the buffer starts empty. |
| CodeGen.CodeGenDSImperative.EmitCode | Core/ProtoCore/CodeGenDSImperative.cs:37-40 | The buffer only grows, by exactly the argument. |
| CodeGen.CodeGenDSImperative.GenerateCode | Core/ProtoCore/CodeGenDSImperative.cs:42-51 | It requires a non-null root list; an empty one is allowed. The buffer gains each root's text in order, is not reset, and is returned. |
| CodeGen.CodeGenDSImperative.DFSTraverse | Core/ProtoCore/CodeGenDSImperative.cs:57-112 | The buffer gains exactly `Emit` of the node: parentheses around a non-assignment binary, the terminator after an assignment, nothing for other node classes. |
| CodeGen.CodeGenDSImperative.EmitExprListNode | Core/ProtoCore/CodeGenDSImperative.cs:121-131 | The whole-buffer `TrimEnd` only removes commas this list wrote, so the buffer gains exactly the list's text. |
| CodeGen.CodeGenDSImperative.EmitTerminated | Core/ProtoCore/CodeGenDSImperative.cs:124-128 | Each element followed by a comma, in order. |
| CodeGen.CodeGenDSImperative.EmitArrayNode | Core/ProtoCore/CodeGenDSImperative.cs:133-145 | Nothing for a null node. Otherwise `[expr]`, then the `Type` node. |
| CodeGen.CodeGenDSImperative.EmitRangeExprNode | Core/ProtoCore/CodeGenDSImperative.cs:148-172 | `from..to`, then for a step `..`, a `#` for a count step, and the step. |
| CodeGen.CodeGenDSImperative.EmitEndpoint | Core/ProtoCore/CodeGenDSImperative.cs:151-154 | An int's text or an identifier's name, else nothing. |
| CodeGen.CodeGenDSImperative.EmitIdentifierNode | Core/ProtoCore/CodeGenDSImperative.cs:174-180 | The name, then the array dimensions if present. |
| CodeGen.CodeGenDSImperative.EmitIdentifierListNode | Core/ProtoCore/CodeGenDSImperative.cs:182-188 | `left.right`. |
| CodeGen.CodeGenDSImperative.EmitIntNode | Core/ProtoCore/CodeGenDSImperative.cs:190-194 | The stored text. |
| CodeGen.CodeGenDSImperative.EmitDoubleNode | Core/ProtoCore/CodeGenDSImperative.cs:196-200 | The stored text; no floating point is involved. |
| CodeGen.CodeGenDSImperative.EmitFunctionCallNode | Core/ProtoCore/CodeGenDSImperative.cs:202-258 | A marker call gives `(arg0 symbol [arg1])`. Any other call gives `name(args joined by ",")`. |
| CodeGen.CodeGenDSImperative.EmitArguments | Core/ProtoCore/CodeGenDSImperative.cs:247-255 | The arguments, with a comma before all but the first. |
| CodeGen.CodeGenDSImperative.EmitMarkerSymbol | Core/ProtoCore/CodeGenDSImperative.cs:214-234 | The symbol of the six markers; nothing for any other name. |
| CodeGen.CodeGenDSImperative.EmitBinaryNode | Core/ProtoCore/CodeGenDSImperative.cs:260-266 | Left, the operator's string, right, with no parentheses. |
| CodeGen.CodeGenDSImperative.EmitFunctionDefNode | Core/ProtoCore/CodeGenDSImperative.cs:268-303 | The header, the block if there is a body, then a newline. |
| CodeGen.CodeGenDSImperative.EmitFunctionHeader | Core/ProtoCore/CodeGenDSImperative.cs:270-285 | `def name`, `: type` unless the UID is invalid, then the signature or `()\n`. |
| CodeGen.CodeGenDSImperative.EmitBody | Core/ProtoCore/CodeGenDSImperative.cs:292-299 | Each statement's text followed by `;\n`. |
| CodeGen.CodeGenDSImperative.EmitReturnNode | Core/ProtoCore/CodeGenDSImperative.cs:305-310 | `return = ` and the expression, which is the only part it requires to be well formed. |
| CodeGen.CodeGenDSImperative.EmitNullNode | Core/ProtoCore/CodeGenDSImperative.cs:317-321 | `null`. |
| Scenarios.SessionTrims | Core/ProtoCore/BuildStatus.cs:557 | `Trim` keeps `unused` and turns ` bad ` into `bad`. |
| Scenarios.UnlocatedWarningLine | Core/ProtoCore/BuildStatus.cs:163-168 | A warning with no path is written in the short form. |
| Scenarios.LocatedErrorLine | Core/ProtoCore/BuildStatus.cs:170-177 | An error with a path gives `Error: bad (f - line: 1, col: 2)`. |
| Scenarios.LocatedWarningLine | Core/ProtoCore/BuildStatus.cs:170-177 | A warning with a path gives the long form. |
| Scenarios.WebCopyLine | Core/ProtoCore/BuildStatus.cs:563 | The web copy's empty path selects the short form. |
| Scenarios.ConsoleWarningSession | Core/ProtoCore/BuildStatus.cs:537-613 | On the console, a logged warning returns normally, is then found, and the build still succeeds. |
| Scenarios.ConsoleErrorSession | Core/ProtoCore/BuildStatus.cs:458-499 | On the console, a syntax error halts with the untrimmed message plus a newline. It writes the trimmed located line, and the build fails with one error. |
| Scenarios.WebSession | Core/ProtoCore/BuildStatus.cs:537-570 | With the web runner on, a located warning is written in long form to the console and in short form to the execution log. |

## Behaviour worth knowing

- `%Not(x)` regenerates as `(x!)`. Every marker's symbol is written after the
  first argument (`Core/ProtoCore/CodeGenDSImperative.cs:213-233`).
- A marker call's arguments after the second are never visited. So
  `%add(1,2,x)` gives `(1+2)`, whatever `x` is
  (`Core/ProtoCore/CodeGenDSImperative.cs:213, 236-239`).
- `TrimEnd(',')` removes every trailing comma of the whole buffer
  (`Core/ProtoCore/CodeGenDSImperative.cs:129`). It can never reach past the
  `{` the list emitter has just written. `EmitExprListNode` is proved to
  append exactly the list's own text, so nothing written before the list is
  touched.
- Trailing list elements that emit nothing vanish together with their
  separators, as do commas that end the last element's text
  (`ExprListTrailingGap`).
- `DFSTraverse` has no final `else`, so a node of any other class emits
  nothing (`Core/ProtoCore/CodeGenDSImperative.cs:57-112`). This includes a
  `ReturnNode`: only a function body emits return statements, and a root
  return statement's expression is never visited (`SkippedNodes`,
  `RootReturnIgnoresExpression`).
- `GenerateCode` asserts only that the root list is not null. An empty list
  adds nothing, and the buffer is never reset
  (`Core/ProtoCore/CodeGenDSImperative.cs:42-51`).
- `x = a + b` regenerates as `x=(a+b)` followed by the terminator. The
  right-hand side goes back through `DFSTraverse`, which parenthesises a
  non-assignment binary expression
  (`Core/ProtoCore/CodeGenDSImperative.cs:79-91, 260-266`; `BinaryExamples`).

## Left out

- The direct `Console.WriteLine` echoes behind `logErrors`, `LogWarnings` and
  `displayBuildResult` (`Core/ProtoCore/BuildStatus.cs:466-470, 503-506,
  545-548, 585-588`) are process I/O. The flags are kept as fields.
- `Console.SetOut` and `SetStream`, which redirect the process-wide console
  (`Core/ProtoCore/BuildStatus.cs:400-404, 429-433, 440-454`), are global I/O.
- The real writers (console, `StreamWriter`, `StringWriter`, the execution
  log) are modelled as each sink's `lines` sequence.
  - A web sink's execution log is a flag fixed when the sink is built.
  - `WebOutputStream.Close`, `GetMessages` (null for every sink),
    `GetCurrentFileName` and `TextOutputStream.Map` do no formatting and make
    no halt decision.
  - The `WebOutputStream(Core)` constructor does not occur on the ledger's
    path.
- `CompileStateTracker.LogErrorInGlobalMap` belongs to a class outside this
  model. Only the calls are recorded, as `GlobalMapCall` values.
- The `graphNode` parameter of `LogSemanticError` and the `useByProtoAst`
  argument of `DFSTraverse` are unused.
- Not modelled:
  - the parameterless `BuildHaltException` constructor, which no modelled
    code raises;
  - the `Warnings` and `Errors` getters, the `Code` getter and the
    `MessageHandler`/`WebMsgHandler` setters, which are plain field access.
- Helpers from other classes are uninterpreted:
  - `CoreUtils.GetOperatorString` and `Constants.termline` are the
    parameters `env.operatorString` and `env.termline`;
  - a function signature is the text its `ToString` gives;
  - `Constants.kInvalidIndex` is taken as -1, the constant file not being
    part of this model.
- `Validity.Assert` checks become preconditions (`WellFormed`). A call's
  callee must be an identifier with a non-empty name, and an array's
  dimensions must be an `ArrayNode`. A failed assertion is an internal
  defect, not modelled behaviour.
  - A marker call must have at least one argument; with none, the source
    fails with an index error (`Core/ProtoCore/CodeGenDSImperative.cs:213`).
  - Only the arguments the traversal visits are constrained: a marker
    call's first two, and every argument of an ordinary call.
  - Of a return statement, only the expression is constrained, and only
    inside a function body; a return statement among the roots is not
    visited.
- Null references that throw `NullReferenceException` in the source are not
  represented: `string` and `seq` values here cannot be null.
  - A null `msg` makes `msg.Trim()` throw in every `Log*` call
    (`Core/ProtoCore/BuildStatus.cs:487, 522, 557`). It throws after the
    entry, and any global-map call, are recorded, whether or not a handler
    is set.
  - A null `exprListNode.list`, `FormalArguments` or `FunctionBody.Body`
    throws (`Core/ProtoCore/CodeGenDSImperative.cs:124, 213, 247, 292`).
- `string.Format` renders line and column numbers in the current culture
  (`Core/ProtoCore/BuildStatus.cs:173-176`). `IntToString` gives the
  invariant culture's text, so a culture with another negative sign is not
  modelled.
- `String.StartsWith("%")` is culture-sensitive in .NET. It is modelled as a
  first character of `%`.
- `Char.IsWhiteSpace` is modelled by the white-space code points .NET lists.
  There is no Unicode normalisation.
- `EmitVarDeclNode` (`Core/ProtoCore/CodeGenDSImperative.cs:312-315`) cannot
  be reached from `DFSTraverse`.
- Other imperative node classes (if, while, unary expressions, variable
  declarations, …) collapse into one `OtherNode`, which the traversal skips,
  as the source does. A null child reference is `OtherNode` too.
- Diagnostics.OutputStream.Write: an IDE's own sink is represented only by
  which message types it sets `Continue` for; its output is not observed.
- `UIs/Editor/DesignScriptEditor/DesignScriptCommon/AboutWindow.xaml.cs` is
  window code with no logic of the core.
