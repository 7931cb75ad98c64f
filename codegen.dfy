/**
 * The imperative-code regenerator (`ProtoCore.CodeGenDSImperative`). It walks
 * an imperative AST depth first and appends DesignScript source text to a
 * single buffer, `code`.
 *
 * `Emit` is a pure function that gives the text a node contributes. Each
 * emitting method is proved to append exactly that text. This holds for the
 * list emitter too, although it trims commas from the whole buffer.
 */
module CodeGen {
  import opened Wrappers
  import opened Text

  /** `DSASM.Operator`. Only assignment is told apart by the regenerator; every
      other operator is named by its `DSASM` name. */
  datatype Operator = Assign | Operation(name: string)

  /** `DSASM.RangeStepOperator`. */
  datatype StepOperator = StepSize | Num | ApproxSize

  /** The return type of a function definition: its type UID and its name. */
  datatype ReturnType = ReturnType(uid: int, name: string)

  /** `DSASM.Constants.kInvalidIndex`, the UID meaning "no return type". */
  const InvalidIndex: int := -1

  /** The imperative AST node classes the regenerator looks at. A function
      definition's signature is represented by the text its `ToString` gives;
      its body, when present, is a `CodeBlockNode`.
      `OtherNode` stands for every other node class (if, while, unary
      expressions, variable declarations, ...) and for a null reference. */
  datatype Node =
    | IdentifierNode(value: string, arrayDimensions: Option<Node>)
    | IdentifierListNode(left: Node, right: Node)
    | IntNode(text: string)
    | DoubleNode(text: string)
    | FunctionCallNode(callee: Node, args: seq<Node>)
    | BinaryExpressionNode(optr: Operator, left: Node, right: Node)
    | FunctionDefinitionNode(name: string, returnType: ReturnType, signature: Option<string>, functionBody: Option<Node>)
    | CodeBlockNode(body: seq<Node>)
    | ReturnNode(returnExpr: Node)
    | NullNode
    | RangeExprNode(fromNode: Node, toNode: Node, stepNode: Option<Node>, stepOperator: StepOperator)
    | ArrayNode(expr: Node, typ: Option<Node>)
    | ExprListNode(list: seq<Node>)
    | OtherNode

  /** The helpers of other classes the regenerator calls:
      `CoreUtils.GetOperatorString` and `Constants.termline`. */
  datatype Env = Env(operatorString: Operator -> string, termline: string)

  /** A call name that encodes an operator rewritten into a call (`%add`, ...). */
  predicate IsMarker(name: string)
  {
    |name| > 0 && name[0] == '%'
  }

  /** The operator symbol emitted for a marker name. Unknown marker names emit none. */
  function MarkerSymbol(name: string): string
  {
    if name == "%add" then "+"
    else if name == "%sub" then "-"
    else if name == "%mul" then "*"
    else if name == "%div" then "/"
    else if name == "%mod" then "%"
    else if name == "%Not" then "!"
    else ""
  }

  /** What the regenerator's assertions demand of a tree. A call's function
      must be an identifier with a non-empty name. A marker call needs at least
      one argument. An identifier's array dimensions must be an `ArrayNode`. Only
      the parts the regenerator visits are constrained: a marker call's first
      two arguments, and a function body's binary statements and returned
      expressions. A return statement outside a function body is not visited. */
  predicate WellFormed(n: Node)
    decreases n, 0
  {
    match n
    case IdentifierNode(_, dims) => dims.Some? ==> dims.value.ArrayNode? && WellFormed(dims.value)
    case IdentifierListNode(l, r) => WellFormed(l) && WellFormed(r)
    case FunctionCallNode(f, args) =>
      f.IdentifierNode? && f.value != [] &&
      if IsMarker(f.value) then
        |args| >= 1 && WellFormed(args[0]) && (|args| > 1 ==> WellFormed(args[1]))
      else
        forall i :: 0 <= i < |args| ==> WellFormed(args[i])
    case BinaryExpressionNode(_, l, r) => WellFormed(l) && WellFormed(r)
    case FunctionDefinitionNode(_, _, _, fb) =>
      fb.Some? ==> fb.value.CodeBlockNode? && StatementsWellFormed(fb.value.body)
    case ArrayNode(e, t) => WellFormed(e) && (t.Some? ==> WellFormed(t.value))
    case ExprListNode(list) => forall i :: 0 <= i < |list| ==> WellFormed(list[i])
    case _ => true
  }

  /** Every statement of a function body meets `StatementWellFormed`. */
  predicate StatementsWellFormed(stmts: seq<Node>)
    decreases stmts
  {
    forall i :: 0 <= i < |stmts| ==> StatementWellFormed(stmts[i])
  }

  /** What a function body visits of a statement: all of a binary statement,
      the expression of a return statement, and nothing of any other statement. */
  predicate StatementWellFormed(s: Node)
    decreases s, 1
  {
    match s
    case BinaryExpressionNode(_, _, _) => WellFormed(s)
    case ReturnNode(e) => WellFormed(e)
    case _ => true
  }

  predicate AllWellFormed(ns: seq<Node>)
  {
    forall i :: 0 <= i < |ns| ==> WellFormed(ns[i])
  }

  /** The text `DFSTraverse` appends for a node. */
  function Emit(env: Env, n: Node): string
    requires WellFormed(n)
    decreases n, 2
  {
    match n
    case IdentifierNode(_, _) => EmitIdentifier(env, n)
    case IdentifierListNode(l, r) => Emit(env, l) + "." + Emit(env, r)
    case IntNode(t) => t
    case DoubleNode(t) => t
    case FunctionCallNode(_, _) => EmitCall(env, n)
    case BinaryExpressionNode(op, _, _) =>
      if op == Assign then EmitBinary(env, n) + env.termline else "(" + EmitBinary(env, n) + ")"
    case FunctionDefinitionNode(_, _, _, _) => EmitFunctionDef(env, n)
    case NullNode => "null"
    case RangeExprNode(_, _, _, _) => EmitRange(n)
    case ArrayNode(_, _) => EmitArray(env, n)
    case ExprListNode(list) => "{" + TrimEndWhile(Terminated(env, list), IsComma) + "}"
    case ReturnNode(_) => ""
    case CodeBlockNode(_) => ""
    case OtherNode => ""
  }

  /** An identifier's name, then its array dimensions if it has any. */
  function EmitIdentifier(env: Env, n: Node): string
    requires n.IdentifierNode? && WellFormed(n)
    decreases n, 0
  {
    n.value + if n.arrayDimensions.Some? then EmitArray(env, n.arrayDimensions.value) else ""
  }

  /** `[expr]`, then the node held in `Type` if there is one. */
  function EmitArray(env: Env, n: Node): string
    requires n.ArrayNode? && WellFormed(n)
    decreases n, 0
  {
    "[" + Emit(env, n.expr) + "]" + if n.typ.Some? then Emit(env, n.typ.value) else ""
  }

  /** A marker call becomes `(arg0 symbol arg1)`. The second argument is
      present only when the call has more than one. Any other call becomes
      `name(arg0,...,argN)`. */
  function EmitCall(env: Env, n: Node): string
    requires n.FunctionCallNode? && WellFormed(n)
    decreases n, 0
  {
    var name := n.callee.value;
    if IsMarker(name) then
      "(" + Emit(env, n.args[0]) + MarkerSymbol(name) + (if |n.args| > 1 then Emit(env, n.args[1]) else "") + ")"
    else
      name + "(" + JoinArgs(env, n.args) + ")"
  }

  /** The emitted nodes separated by commas. */
  function JoinArgs(env: Env, args: seq<Node>): string
    requires AllWellFormed(args)
    decreases args
  {
    if |args| == 0 then ""
    else if |args| == 1 then Emit(env, args[0])
    else JoinArgs(env, args[..|args| - 1]) + "," + Emit(env, args[|args| - 1])
  }

  /** The emitted nodes, each followed by a comma. */
  function Terminated(env: Env, list: seq<Node>): string
    requires AllWellFormed(list)
    decreases list
  {
    if list == [] then "" else Terminated(env, list[..|list| - 1]) + Emit(env, list[|list| - 1]) + ","
  }

  /** The binary form without parentheses: left, operator, right. */
  function EmitBinary(env: Env, n: Node): string
    requires n.BinaryExpressionNode? && WellFormed(n)
    decreases n, 0
  {
    Emit(env, n.left) + env.operatorString(n.optr) + Emit(env, n.right)
  }

  function EmitReturn(env: Env, n: Node): string
    requires n.ReturnNode? && WellFormed(n.returnExpr)
    decreases n, 0
  {
    "return = " + Emit(env, n.returnExpr)
  }

  /** A range endpoint: only an integer literal or an identifier's name is emitted. */
  function Endpoint(n: Node): string
  {
    match n
    case IntNode(t) => t
    case IdentifierNode(v, _) => v
    case _ => ""
  }

  function EmitRange(n: Node): string
    requires n.RangeExprNode?
  {
    Endpoint(n.fromNode) + ".." + Endpoint(n.toNode) +
    if n.stepNode.Some? then ".." + (if n.stepOperator == Num then "#" else "") + Endpoint(n.stepNode.value) else ""
  }

  function EmitFunctionDef(env: Env, n: Node): string
    requires n.FunctionDefinitionNode? && WellFormed(n)
    decreases n, 1
  {
    FunctionHeader(n) + FunctionBlock(env, n) + "\n"
  }

  /** `def name`, `: type` unless the return type is invalid, then the
      signature's text or `()` and a newline. */
  function FunctionHeader(n: Node): string
    requires n.FunctionDefinitionNode?
  {
    "def " + n.name +
    (if n.returnType.uid != InvalidIndex then ": " + n.returnType.name else "") +
    (if n.signature.Some? then n.signature.value else "()\n")
  }

  /** The body in braces, or nothing for a definition without a body. */
  function FunctionBlock(env: Env, n: Node): string
    requires n.FunctionDefinitionNode? && WellFormed(n)
    decreases n, 0
  {
    if n.functionBody.Some? then "{\n" + BodyText(env, n.functionBody.value.body) + "}" else ""
  }

  /** A function body: each statement's text followed by `;` and a newline. */
  function BodyText(env: Env, stmts: seq<Node>): string
    requires StatementsWellFormed(stmts)
    decreases stmts
  {
    if stmts == [] then ""
    else BodyText(env, stmts[..|stmts| - 1]) + StatementText(env, stmts[|stmts| - 1]) + ";\n"
  }

  /** A binary statement without parentheses or terminator, a return
      statement, or nothing for any other statement. */
  function StatementText(env: Env, s: Node): string
    requires StatementWellFormed(s)
    decreases s, 1
  {
    if s.BinaryExpressionNode? then EmitBinary(env, s)
    else if s.ReturnNode? then EmitReturn(env, s)
    else ""
  }

  /** The text `GenerateCode` appends for a list of roots. */
  function EmitAll(env: Env, roots: seq<Node>): string
    requires AllWellFormed(roots)
    decreases roots
  {
    if roots == [] then "" else EmitAll(env, roots[..|roots| - 1]) + Emit(env, roots[|roots| - 1])
  }

  // ---------------------------------------------------------------------------
  // Properties of the emitted text

  /** Generating code for two lists one after the other gives the same text
      as generating it for their concatenation. */
  lemma {:induction false} EmitAllAppend(env: Env, a: seq<Node>, b: seq<Node>)
    requires AllWellFormed(a) && AllWellFormed(b)
    ensures AllWellFormed(a + b)
    ensures EmitAll(env, a + b) == EmitAll(env, a) + EmitAll(env, b)
  {
    assert AllWellFormed(a + b) by {
      forall i | 0 <= i < |a + b| ensures WellFormed((a + b)[i]) {
        if i >= |a| { assert (a + b)[i] == b[i - |a|]; }
      }
    }
    if b == [] {
      assert a + b == a;
    } else {
      var init := b[..|b| - 1];
      assert (a + b)[..|a + b| - 1] == a + init;
      assert (a + b)[|a + b| - 1] == b[|b| - 1];
      EmitAllAppend(env, a, init);
    }
  }

  /** The elements each followed by a comma are the comma-joined elements
      plus one final comma. */
  lemma {:induction false} TerminatedIsJoined(env: Env, list: seq<Node>)
    requires AllWellFormed(list) && list != []
    ensures Terminated(env, list) == JoinArgs(env, list) + ","
  {
    var init := list[..|list| - 1];
    if init != [] {
      TerminatedIsJoined(env, init);
    } else {
      assert Terminated(env, init) == "";
    }
  }

  /** The comma-joined text ends with the text of the last element. */
  lemma {:induction false} JoinArgsEndsWithLast(env: Env, args: seq<Node>)
    requires AllWellFormed(args) && args != []
    ensures var j, e := JoinArgs(env, args), Emit(env, args[|args| - 1]);
      |e| <= |j| && j[|j| - |e|..] == e
  {
  }

  /** A list literal is its comma-joined elements in braces, except that
      commas ending the last element's text are trimmed as well. */
  lemma ExprListText(env: Env, n: Node)
    requires n.ExprListNode? && WellFormed(n)
    ensures n.list == [] ==> Emit(env, n) == "{}"
    ensures n.list != [] ==> Emit(env, n) == "{" + TrimEndWhile(JoinArgs(env, n.list), IsComma) + "}"
  {
    if n.list != [] {
      var j := JoinArgs(env, n.list);
      TerminatedIsJoined(env, n.list);
      assert (j + ",")[..|j + ","| - 1] == j;
    }
  }

  /** The text of a list element is clean when it is non-empty and does not
      end with a comma. */
  predicate Clean(s: string)
  {
    s != [] && s[|s| - 1] != ','
  }

  /** When the last element's text is clean, a list literal is exactly its
      comma-joined elements in braces, with no trailing comma. */
  lemma ExprListJoined(env: Env, n: Node)
    requires n.ExprListNode? && WellFormed(n) && n.list != []
    requires Clean(Emit(env, n.list[|n.list| - 1]))
    ensures Emit(env, n) == "{" + JoinArgs(env, n.list) + "}"
  {
    ExprListText(env, n);
    JoinArgsEndsWithLast(env, n.list);
    var j := JoinArgs(env, n.list);
    var e := Emit(env, n.list[|n.list| - 1]);
    assert j[|j| - 1] == e[|e| - 1];
  }

  /** The operator a binary marker name stands for. */
  function MarkerOperator(name: string): Operator
    requires IsMarker(name)
  {
    Operation(name[1..])
  }

  /** A binary marker call regenerates as the binary expression it was
      rewritten from. This holds when the operator's string is the marker's
      symbol. */
  lemma MarkerCallInvertsBinary(env: Env, name: string, a: Node, b: Node)
    requires name in ["%add", "%sub", "%mul", "%div", "%mod"]
    requires WellFormed(a) && WellFormed(b)
    requires env.operatorString(MarkerOperator(name)) == MarkerSymbol(name)
    ensures WellFormed(FunctionCallNode(IdentifierNode(name, None), [a, b]))
    ensures Emit(env, FunctionCallNode(IdentifierNode(name, None), [a, b])) ==
            Emit(env, BinaryExpressionNode(MarkerOperator(name), a, b))
  {
    var call := FunctionCallNode(IdentifierNode(name, None), [a, b]);
    assert WellFormed(call) by {
      forall i | 0 <= i < |call.args| ensures WellFormed(call.args[i]) {
      }
    }
  }

  // ---------------------------------------------------------------------------
  // Worked examples

  /** `%add(1,2)` gives `(1+2)`. `%Not(x)` gives `(x!)`, since the symbol
      always follows the first argument. */
  lemma MarkerCallExamples(env: Env)
    ensures Emit(env, FunctionCallNode(IdentifierNode("%add", None), [IntNode("1"), IntNode("2")])) == "(1+2)"
    ensures Emit(env, FunctionCallNode(IdentifierNode("%Not", None), [IdentifierNode("x", None)])) == "(x!)"
    ensures Emit(env, FunctionCallNode(IdentifierNode("%pow", None), [IntNode("1"), IntNode("2")])) == "(12)"
  {
    var add := FunctionCallNode(IdentifierNode("%add", None), [IntNode("1"), IntNode("2")]);
    assert WellFormed(add) by {
      forall i | 0 <= i < |add.args| ensures WellFormed(add.args[i]) {
      }
    }
  }

  /** A marker call's arguments after the second are never visited, so
      `%add(1,2,x)` gives `(1+2)` whatever `x` is, even a call whose function
      is not an identifier. */
  lemma MarkerCallIgnoresExtraArguments(env: Env)
    ensures WellFormed(FunctionCallNode(IdentifierNode("%add", None), [IntNode("1"), IntNode("2"), FunctionCallNode(IntNode("3"), [])]))
    ensures Emit(env, FunctionCallNode(IdentifierNode("%add", None), [IntNode("1"), IntNode("2"), FunctionCallNode(IntNode("3"), [])])) == "(1+2)"
  {
  }

  /** A return statement among the roots is skipped, so its expression is never
      visited: a call whose function is not an identifier is allowed there. */
  lemma RootReturnIgnoresExpression(env: Env)
    ensures AllWellFormed([ReturnNode(FunctionCallNode(IntNode("3"), []))])
    ensures !WellFormed(FunctionCallNode(IntNode("3"), []))
    ensures EmitAll(env, [ReturnNode(FunctionCallNode(IntNode("3"), []))]) == ""
  {
    assert [ReturnNode(FunctionCallNode(IntNode("3"), []))][..0] == [];
  }

  /** An ordinary call joins its arguments with commas; with no arguments it is `name()`. */
  lemma CallExamples(env: Env)
    ensures Emit(env, FunctionCallNode(IdentifierNode("f", None), [IntNode("1"), IdentifierNode("a", None), NullNode])) == "f(1,a,null)"
    ensures Emit(env, FunctionCallNode(IdentifierNode("g", None), [])) == "g()"
  {
    var args := [IntNode("1"), IdentifierNode("a", None), NullNode];
    var two := [IntNode("1"), IdentifierNode("a", None)];
    assert args[..2] == two && two[..1] == [IntNode("1")];
    assert JoinArgs(env, two) == "1,a";
    assert JoinArgs(env, args) == "1,a,null";
  }

  /** A list of three elements is its elements joined by commas, in braces,
      when the last one's text is clean. */
  lemma ExprListOfThree(env: Env, a: Node, b: Node, c: Node)
    requires WellFormed(a) && WellFormed(b) && WellFormed(c) && Clean(Emit(env, c))
    ensures WellFormed(ExprListNode([a, b, c]))
    ensures Emit(env, ExprListNode([a, b, c])) == "{" + Emit(env, a) + "," + Emit(env, b) + "," + Emit(env, c) + "}"
  {
    var l := [a, b, c];
    assert WellFormed(ExprListNode(l)) by {
      forall i | 0 <= i < |l| ensures WellFormed(l[i]) {
      }
    }
    assert l[..2] == [a, b] && l[..2][..1] == [a];
    assert JoinArgs(env, [a, b]) == Emit(env, a) + "," + Emit(env, b);
    assert JoinArgs(env, l) == Emit(env, a) + "," + Emit(env, b) + "," + Emit(env, c);
    ExprListJoined(env, ExprListNode(l));
  }

  /** `{1,2,3}` round-trips, and an empty list gives `{}`. */
  lemma ExprListExamples(env: Env)
    ensures Emit(env, ExprListNode([IntNode("1"), IntNode("2"), IntNode("3")])) == "{1,2,3}"
    ensures Emit(env, ExprListNode([])) == "{}"
  {
    ExprListOfThree(env, IntNode("1"), IntNode("2"), IntNode("3"));
  }

  /** `{1}` from a list whose last two elements emit nothing. */
  lemma ExprListGapExample(env: Env)
    ensures Emit(env, ExprListNode([IntNode("1"), OtherNode, OtherNode])) == "{1}"
  {
    ExprListTrailingGap(env, IntNode("1"));
  }

  /** Since every trailing comma is trimmed, elements that emit nothing at
      the end of a list disappear with their separators: the source's
      whole-buffer `TrimEnd`, not just its last comma. */
  lemma ExprListTrailingGap(env: Env, x: Node)
    requires WellFormed(x) && Clean(Emit(env, x))
    ensures WellFormed(ExprListNode([x, OtherNode, OtherNode]))
    ensures Emit(env, ExprListNode([x, OtherNode, OtherNode])) == "{" + Emit(env, x) + "}"
  {
    var m := [x, OtherNode, OtherNode];
    assert WellFormed(ExprListNode(m)) by {
      forall i | 0 <= i < |m| ensures WellFormed(m[i]) {
      }
    }
    var e := Emit(env, x);
    assert m[..2] == [x, OtherNode] && m[..2][..1] == [x] && [x][..0] == [];
    assert Terminated(env, [x]) == e + ",";
    assert Terminated(env, m[..2]) == e + "," + ",";
    assert Terminated(env, m) == e + "," + "," + ",";
    TrimCommasAfterClean(e);
  }

  /** Trimming commas from a clean text followed by three commas gives the text back. */
  lemma TrimCommasAfterClean(e: string)
    requires Clean(e)
    ensures TrimEndWhile(e + "," + "," + ",", IsComma) == e
  {
    assert (e + "," + "," + ",")[..|e| + 2] == e + "," + ",";
    assert (e + "," + ",")[..|e| + 1] == e + ",";
    assert (e + ",")[..|e|] == e;
    assert TrimEndWhile(e, IsComma) == e;
    assert TrimEndWhile(e + ",", IsComma) == e;
    assert TrimEndWhile(e + "," + ",", IsComma) == e;
  }

  /** `1..10..#5`: the `#` marks a step given as a number of elements. */
  lemma RangeExample(env: Env)
    ensures Emit(env, RangeExprNode(IntNode("1"), IntNode("10"), Some(IntNode("5")), Num)) == "1..10..#5"
  {
  }

  /** An identifier endpoint gives its name; an endpoint of another shape
      leaves a gap. */
  lemma RangeEndpointExamples(env: Env)
    ensures Emit(env, RangeExprNode(IdentifierNode("a", None), IntNode("10"), Some(IntNode("2")), StepSize)) == "a..10..2"
    ensures Emit(env, RangeExprNode(IntNode("1"), NullNode, None, StepSize)) == "1.."
  {
  }

  /** A non-assignment binary expression is parenthesised. An assignment is
      not, but it gets the statement terminator. Its right-hand side is
      traversed again and so parenthesised: `x = a + b` gives `x=(a+b)`. */
  lemma BinaryExamples(env: Env)
    requires env.operatorString(Operation("add")) == "+" && env.operatorString(Assign) == "="
    ensures Emit(env, BinaryExpressionNode(Operation("add"), IdentifierNode("a", None), IdentifierNode("b", None))) == "(a+b)"
    ensures Emit(env, BinaryExpressionNode(Assign, IdentifierNode("x", None),
              BinaryExpressionNode(Operation("add"), IdentifierNode("a", None), IdentifierNode("b", None)))) ==
            "x=(a+b)" + env.termline
  {
  }

  /** Leaves and selectors: `a[1]`, a second dimension through the array's
      `Type` (`a[1][2]`), `a.b`, `null` and a double's stored text. */
  lemma LeafExamples(env: Env)
    ensures Emit(env, IdentifierNode("a", Some(ArrayNode(IntNode("1"), None)))) == "a[1]"
    ensures Emit(env, IdentifierNode("a", Some(ArrayNode(IntNode("1"), Some(ArrayNode(IntNode("2"), None)))))) == "a[1][2]"
    ensures Emit(env, IdentifierListNode(IdentifierNode("a", None), IdentifierNode("b", None))) == "a.b"
    ensures Emit(env, NullNode) == "null"
    ensures Emit(env, DoubleNode("1.5")) == "1.5"
  {
  }

  /** Without a return type and a body, a definition is its name, its
      signature text and the final newline. */
  lemma FunctionDeclarationExample(env: Env)
    ensures Emit(env, FunctionDefinitionNode("g", ReturnType(InvalidIndex, "var"), Some("(x)"), None)) == "def g(x)\n"
  {
  }

  /** A node the traversal does not recognise emits nothing. So does a return
      statement outside a function body, whatever its expression, since the
      traversal has no case for it. */
  lemma SkippedNodes(env: Env, e: Node)
    ensures Emit(env, OtherNode) == ""
    ensures Emit(env, ReturnNode(e)) == ""
  {
  }

  /** A function body of an assignment, a return statement and a statement
      of another kind. */
  function SampleBody(): seq<Node>
  {
    [BinaryExpressionNode(Assign, IdentifierNode("a", None), IntNode("1")),
     ReturnNode(IdentifierNode("a", None)),
     OtherNode]
  }

  /** Every statement is terminated, even one that emits nothing, and a
      statement is not parenthesised. */
  lemma SampleBodyText(env: Env)
    requires env.operatorString(Assign) == "="
    ensures StatementsWellFormed(SampleBody())
    ensures BodyText(env, SampleBody()) == "a=1;\n" + "return = a;\n" + ";\n"
  {
    var body := SampleBody();
    assert body[..2][..1] == body[..1] && body[..1][..0] == [];
    assert StatementText(env, body[0]) == "a=1";
    assert BodyText(env, body[..1]) == "a=1;\n";
    assert StatementText(env, body[1]) == "return = a";
    assert BodyText(env, body[..2]) == "a=1;\n" + "return = a;\n";
  }

  /** A function definition with a return type, no signature and the sample body. */
  function SampleDef(): Node
  {
    FunctionDefinitionNode("f", ReturnType(3, "int"), None, Some(CodeBlockNode(SampleBody())))
  }

  lemma FunctionDefExample(env: Env)
    requires env.operatorString(Assign) == "="
    ensures WellFormed(SampleDef())
    ensures Emit(env, SampleDef()) == "def f: int()\n" + ("{\n" + ("a=1;\n" + "return = a;\n" + ";\n") + "}") + "\n"
  {
    SampleBodyText(env);
    var def := SampleDef();
    assert FunctionHeader(def) == "def f: int()\n";
  }

  // ---------------------------------------------------------------------------
  // The code generator

  /** `CodeGenDSImperative`: the roots to regenerate and the growing buffer. */
  class CodeGenDSImperative {
    const env: Env
    /** `astNodeList`, null when built with the parameterless constructor. */
    const astNodeList: Option<seq<Node>>
    var code: string

    constructor (env: Env, astList: seq<Node>)
      ensures this.env == env && astNodeList == Some(astList) && code == ""
    {
      this.env := env;
      astNodeList := Some(astList);
      code := "";
    }

    constructor WithoutRoots(env: Env)
      ensures this.env == env && astNodeList == None && code == ""
    {
      this.env := env;
      astNodeList := None;
      code := "";
    }

    /** `EmitCode`: the buffer only grows, by exactly `s`. */
    method EmitCode(s: string)
      modifies this`code
      ensures code == old(code) + s
    {
      code := code + s;
    }

    /** `GenerateCode`. It appends each root's text in list order and returns
        the buffer. The buffer is not reset, so a second call appends a second
        copy. An empty list of roots is allowed and adds nothing. */
    method GenerateCode() returns (r: string)
      requires astNodeList.Some? && AllWellFormed(astNodeList.value)
      modifies this`code
      ensures code == old(code) + EmitAll(env, astNodeList.value)
      ensures r == code
    {
      var list := astNodeList.value;
      for i := 0 to |list|
        invariant code == old(code) + EmitAll(env, list[..i])
      {
        assert list[..i + 1][..i] == list[..i];
        DFSTraverse(list[i]);
      }
      assert list[..|list|] == list;
      r := code;
    }

    /** `DFSTraverse`: append the node's text. A non-assignment binary
        expression is put in parentheses. An assignment is followed by the
        statement terminator. A node of any other class is skipped. */
    method DFSTraverse(node: Node)
      requires WellFormed(node)
      modifies this`code
      decreases node, 1
      ensures code == old(code) + Emit(env, node)
    {
      if node.IdentifierNode? {
        EmitIdentifierNode(node);
      } else if node.IdentifierListNode? {
        EmitIdentifierListNode(node);
      } else if node.IntNode? {
        EmitIntNode(node);
      } else if node.DoubleNode? {
        EmitDoubleNode(node);
      } else if node.FunctionCallNode? {
        EmitFunctionCallNode(node);
      } else if node.BinaryExpressionNode? {
        if node.optr != Assign {
          EmitCode("(");
        }
        EmitBinaryNode(node);
        if node.optr == Assign {
          EmitCode(env.termline);
        }
        if node.optr != Assign {
          EmitCode(")");
        }
      } else if node.FunctionDefinitionNode? {
        EmitFunctionDefNode(node);
      } else if node.NullNode? {
        EmitNullNode(node);
      } else if node.RangeExprNode? {
        EmitRangeExprNode(node);
      } else if node.ArrayNode? {
        EmitArrayNode(Some(node));
      } else if node.ExprListNode? {
        EmitExprListNode(node);
      }
    }

    /** `EmitExprListNode`. It writes `{`, then each element followed by a
        comma, and then trims every trailing comma from the whole buffer. The
        trim stops at the `{` just written, so text before the list is never
        touched. */
    method EmitExprListNode(n: Node)
      requires n.ExprListNode? && WellFormed(n)
      modifies this`code
      decreases n, 0
      ensures code == old(code) + Emit(env, n)
    {
      EmitCode("{");
      EmitTerminated(n.list);
      TrimEndStopsAt(old(code), '{', Terminated(env, n.list), IsComma);
      code := TrimEndWhile(code, IsComma);
      EmitCode("}");
    }

    /** The element loop of `EmitExprListNode`: each element followed by a comma. */
    method EmitTerminated(list: seq<Node>)
      requires AllWellFormed(list)
      modifies this`code
      decreases list
      ensures code == old(code) + Terminated(env, list)
    {
      for i := 0 to |list|
        invariant code == old(code) + Terminated(env, list[..i])
      {
        assert list[..i + 1][..i] == list[..i];
        DFSTraverse(list[i]);
        EmitCode(",");
      }
      assert list[..|list|] == list;
    }

    /** `EmitArrayNode`. A null node emits nothing. Otherwise it writes
        `[expr]`, then the node held in `Type` if there is one. */
    method EmitArrayNode(arrayNode: Option<Node>)
      requires arrayNode.Some? ==> arrayNode.value.ArrayNode? && WellFormed(arrayNode.value)
      modifies this`code
      decreases if arrayNode.Some? then arrayNode.value else OtherNode, 0
      ensures code == old(code) + if arrayNode.Some? then EmitArray(env, arrayNode.value) else ""
    {
      if arrayNode.Some? {
        var a := arrayNode.value;
        EmitCode("[");
        DFSTraverse(a.expr);
        EmitCode("]");
        ghost var written := "[" + Emit(env, a.expr) + "]";
        assert code == old(code) + written;
        if a.typ.Some? {
          DFSTraverse(a.typ.value);
          assert EmitArray(env, a) == written + Emit(env, a.typ.value);
        } else {
          assert EmitArray(env, a) == written;
        }
      }
    }

    /** `EmitRangeExprNode`: `from..to`, then `..`, an optional `#` and the
        step when there is a step. */
    method EmitRangeExprNode(n: Node)
      requires n.RangeExprNode?
      modifies this`code
      ensures code == old(code) + EmitRange(n)
    {
      EmitEndpoint(n.fromNode);
      EmitCode("..");
      EmitEndpoint(n.toNode);
      ghost var bounds := Endpoint(n.fromNode) + ".." + Endpoint(n.toNode);
      assert code == old(code) + bounds;
      if n.stepNode.Some? {
        EmitCode("..");
        if n.stepOperator == Num {
          EmitCode("#");
        }
        ghost var prefix := ".." + (if n.stepOperator == Num then "#" else "");
        assert code == old(code) + bounds + prefix;
        EmitEndpoint(n.stepNode.value);
        assert code == old(code) + bounds + (prefix + Endpoint(n.stepNode.value));
      }
    }

    /** The endpoint test `EmitRangeExprNode` repeats for the start, the end
        and the step: an integer's text or an identifier's name, else nothing. */
    method EmitEndpoint(n: Node)
      modifies this`code
      ensures code == old(code) + Endpoint(n)
    {
      if n.IntNode? {
        EmitCode(n.text);
      } else if n.IdentifierNode? {
        EmitCode(n.value);
      }
    }

    method EmitIdentifierNode(n: Node)
      requires n.IdentifierNode? && WellFormed(n)
      modifies this`code
      decreases n, 0
      ensures code == old(code) + EmitIdentifier(env, n)
    {
      EmitCode(n.value);
      if n.arrayDimensions.Some? {
        EmitArrayNode(n.arrayDimensions);
      }
    }

    method EmitIdentifierListNode(n: Node)
      requires n.IdentifierListNode? && WellFormed(n)
      modifies this`code
      decreases n, 0
      ensures code == old(code) + Emit(env, n.left) + "." + Emit(env, n.right)
    {
      DFSTraverse(n.left);
      EmitCode(".");
      DFSTraverse(n.right);
    }

    method EmitIntNode(n: Node)
      requires n.IntNode?
      modifies this`code
      ensures code == old(code) + n.text
    {
      EmitCode(n.text);
    }

    method EmitDoubleNode(n: Node)
      requires n.DoubleNode?
      modifies this`code
      ensures code == old(code) + n.text
    {
      EmitCode(n.text);
    }

    /** `EmitFunctionCallNode`. A marker call is written as an operator
        expression, any other call in call syntax. */
    method EmitFunctionCallNode(n: Node)
      requires n.FunctionCallNode? && WellFormed(n)
      modifies this`code
      decreases n, 0
      ensures code == old(code) + EmitCall(env, n)
    {
      var functionName := n.callee.value;
      var args := n.args;
      if IsMarker(functionName) {
        EmitCode("(");
        DFSTraverse(args[0]);
        EmitMarkerSymbol(functionName);
        ghost var head := "(" + Emit(env, args[0]) + MarkerSymbol(functionName);
        assert code == old(code) + head;
        if |args| > 1 {
          DFSTraverse(args[1]);
        }
        assert code == old(code) + head + (if |args| > 1 then Emit(env, args[1]) else "");
        EmitCode(")");
      } else {
        EmitCode(functionName);
        EmitCode("(");
        EmitArguments(args);
        EmitCode(")");
      }
    }

    /** The argument loop of `EmitFunctionCallNode`: each argument, with a
        comma before every one but the first. */
    method EmitArguments(args: seq<Node>)
      requires AllWellFormed(args)
      modifies this`code
      decreases args
      ensures code == old(code) + JoinArgs(env, args)
    {
      for k := 0 to |args|
        invariant code == old(code) + JoinArgs(env, args[..k]) + (if 0 < k < |args| then "," else "")
      {
        assert args[..k + 1][..k] == args[..k];
        DFSTraverse(args[k]);
        if k + 1 < |args| {
          EmitCode(",");
        }
      }
      assert args[..|args|] == args;
    }

    /** The operator switch of `EmitFunctionCallNode`: the symbol for a
        marker name, nothing for a marker it does not know. */
    method EmitMarkerSymbol(name: string)
      modifies this`code
      ensures code == old(code) + MarkerSymbol(name)
    {
      if name == "%add" {
        EmitCode("+");
      } else if name == "%sub" {
        EmitCode("-");
      } else if name == "%mul" {
        EmitCode("*");
      } else if name == "%div" {
        EmitCode("/");
      } else if name == "%mod" {
        EmitCode("%");
      } else if name == "%Not" {
        EmitCode("!");
      }
    }

    /** `EmitBinaryNode`: left, operator, right, with no parentheses. */
    method EmitBinaryNode(n: Node)
      requires n.BinaryExpressionNode? && WellFormed(n)
      modifies this`code
      decreases n, 0
      ensures code == old(code) + EmitBinary(env, n)
    {
      DFSTraverse(n.left);
      EmitCode(env.operatorString(n.optr));
      DFSTraverse(n.right);
    }

    /** `EmitFunctionDefNode`: `def name`, an optional `: type`, the signature
        or `()` and a newline, an optional body block, and a final newline. */
    method EmitFunctionDefNode(n: Node)
      requires n.FunctionDefinitionNode? && WellFormed(n)
      modifies this`code
      decreases n, 0
      ensures code == old(code) + EmitFunctionDef(env, n)
    {
      EmitFunctionHeader(n);
      ghost var c := code;
      if n.functionBody.Some? {
        var funcBody := n.functionBody.value.body;
        assert StatementsWellFormed(funcBody);
        ghost var bodyText := BodyText(env, funcBody);
        EmitCode("{\n");
        EmitBody(funcBody);
        EmitCode("}");
        assert code == c + ("{\n" + bodyText + "}");
      }
      assert code == c + FunctionBlock(env, n);
      EmitCode("\n");
    }

    /** The first part of `EmitFunctionDefNode`: `def`, the name, the
        return type when it is valid, then the signature or `()`. */
    method EmitFunctionHeader(n: Node)
      requires n.FunctionDefinitionNode?
      modifies this`code
      ensures code == old(code) + FunctionHeader(n)
    {
      EmitCode("def ");
      EmitCode(n.name);
      if n.returnType.uid != InvalidIndex {
        EmitCode(": " + n.returnType.name);
      }
      if n.signature.Some? {
        EmitCode(n.signature.value);
      } else {
        EmitCode("()\n");
      }
    }

    /** The body loop of `EmitFunctionDefNode`: each binary or return
        statement, and a `;` and a newline after every statement. */
    method EmitBody(funcBody: seq<Node>)
      requires StatementsWellFormed(funcBody)
      modifies this`code
      decreases funcBody
      ensures code == old(code) + BodyText(env, funcBody)
    {
      for i := 0 to |funcBody|
        invariant code == old(code) + BodyText(env, funcBody[..i])
      {
        assert funcBody[..i + 1][..i] == funcBody[..i];
        var bodyNode := funcBody[i];
        assert StatementWellFormed(bodyNode);
        if bodyNode.BinaryExpressionNode? {
          EmitBinaryNode(bodyNode);
        }
        if bodyNode.ReturnNode? {
          EmitReturnNode(bodyNode);
        }
        EmitCode(";\n");
      }
      assert funcBody[..|funcBody|] == funcBody;
    }

    method EmitReturnNode(n: Node)
      requires n.ReturnNode? && WellFormed(n.returnExpr)
      modifies this`code
      decreases n, 0
      ensures code == old(code) + EmitReturn(env, n)
    {
      EmitCode("return = ");
      DFSTraverse(n.returnExpr);
    }

    method EmitNullNode(n: Node)
      requires n.NullNode?
      modifies this`code
      ensures code == old(code) + "null"
    {
      EmitCode("null");
    }
  }
}
