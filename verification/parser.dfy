/** The recursive-descent parser: a forward-only cursor over the token
    sequence, a `Consume` primitive, one parse function per statement form,
    and the top-level loop. Every parse function takes the cursor position
    and the registry and returns the new ones, or the error that aborts the
    parse. */
module Parser {
  import opened Results
  import opened Tokens
  import opened Ast

  /** Why a parse fails. Message texts are not modelled. */
  datatype Error =
    | Mismatch(expected: TokenKind, found: TokenKind, at: nat)  // consume saw another kind
    | EndOfInput(at: nat)                                       // a token past the last one was read
    | Undefined(names: seq<string>)                             // a statement names an unplaced point
    | Unexpected(found: TokenKind)                              // no statement starts with this token

  /** A value read from the tokens and the cursor position after it. */
  datatype Advanced<T> = Advanced(value: T, pos: nat)

  /** A parsed statement: its node, the cursor after it, the registry after it. */
  datatype Parsed = Parsed(node: Node, pos: nat, registry: Registry)

  /** The error raised when the token at `at` is required to be `expected`
      and is not: a mismatch, or, past the last token, an out-of-range read. */
  function ErrorAt(ts: seq<Token>, at: nat, expected: TokenKind): Error {
    if at < |ts| then Mismatch(expected, ts[at].kind, at) else EndOfInput(at)
  }

  /** Reads the token under the cursor, which must have kind `k`. */
  function Consume(ts: seq<Token>, pos: nat, k: TokenKind): (r: Result<Advanced<string>, Error>)
    ensures r.Ok? <==> pos < |ts| && ts[pos].kind == k
    ensures r.Ok? ==> r.value.value == ts[pos].lexeme && r.value.pos == pos + 1
    ensures r.Fail? ==> r.error == ErrorAt(ts, pos, k)
  {
    if pos < |ts| && ts[pos].kind == k then Ok(Advanced(ts[pos].lexeme, pos + 1))
    else Fail(ErrorAt(ts, pos, k))
  }

  /** The tokens from `pos` on begin with the kinds of `shape`. */
  predicate Fits(ts: seq<Token>, pos: nat, shape: seq<TokenKind>) {
    pos + |shape| <= |ts| && forall i :: 0 <= i < |shape| ==> ts[pos + i].kind == shape[i]
  }

  /** Index `j` of `shape` is the first whose token does not fit. */
  ghost predicate FirstMisfit(ts: seq<Token>, pos: nat, shape: seq<TokenKind>, j: nat) {
    && j < |shape|
    && Fits(ts, pos, shape[..j])
    && !(pos + j < |ts| && ts[pos + j].kind == shape[j])
  }

  /** `e` is the error of reading `shape` from `pos` one consume at a time:
      the one raised at the first token that does not fit. */
  ghost predicate ShapeError(ts: seq<Token>, pos: nat, shape: seq<TokenKind>, e: Error) {
    exists j: nat :: FirstMisfit(ts, pos, shape, j) && e == ErrorAt(ts, pos + j, shape[j])
  }

  /** Consumes the kinds of `shape` in turn and returns their lexemes. */
  function ConsumeAll(ts: seq<Token>, pos: nat, shape: seq<TokenKind>): (r: Result<Advanced<seq<string>>, Error>)
    requires pos <= |ts|
    ensures r.Ok? <==> Fits(ts, pos, shape)
    ensures r.Ok? ==> r.value.pos == pos + |shape| && |r.value.value| == |shape|
    ensures r.Ok? ==> forall i :: 0 <= i < |shape| ==> r.value.value[i] == ts[pos + i].lexeme
    ensures r.Fail? ==> ShapeError(ts, pos, shape, r.error)
    decreases |shape|, pos  // `pos` in the measure: a call on a fixed shape is not unfolded eagerly
  {
    if shape == [] then Ok(Advanced([], pos))
    else
      match Consume(ts, pos, shape[0])
      case Fail(e) =>
        assert FirstMisfit(ts, pos, shape, 0);
        Fail(e)
      case Ok(first) =>
        FitsCons(ts, pos, shape);
        match ConsumeAll(ts, pos + 1, shape[1..])
        case Fail(e) =>
          ShapeErrorCons(ts, pos, shape, e);
          Fail(e)
        case Ok(rest) =>
          var r := Advanced([first.value] + rest.value, rest.pos);
          assert forall i :: 0 < i < |shape| ==> r.value[i] == rest.value[i - 1] == ts[pos + 1 + (i - 1)].lexeme;
          Ok(r)
  }

  lemma FitsCons(ts: seq<Token>, pos: nat, shape: seq<TokenKind>)
    requires shape != [] && pos <= |ts|
    ensures Fits(ts, pos, shape) <==>
      pos < |ts| && ts[pos].kind == shape[0] && Fits(ts, pos + 1, shape[1..])
  {
    if pos < |ts| && ts[pos].kind == shape[0] && Fits(ts, pos + 1, shape[1..]) {
      forall i | 0 < i < |shape| ensures ts[pos + i].kind == shape[i] {
        assert ts[pos + 1 + (i - 1)].kind == shape[1..][i - 1];
      }
    }
    if Fits(ts, pos, shape) {
      forall i | 0 <= i < |shape[1..]| ensures ts[pos + 1 + i].kind == shape[1..][i] {
        assert ts[pos + (i + 1)].kind == shape[i + 1];
      }
    }
  }

  lemma MisfitCons(ts: seq<Token>, pos: nat, shape: seq<TokenKind>, j: nat)
    requires shape != [] && pos < |ts| && ts[pos].kind == shape[0]
    requires FirstMisfit(ts, pos + 1, shape[1..], j)
    ensures FirstMisfit(ts, pos, shape, j + 1)
  {
    assert shape[..j + 1][1..] == shape[1..][..j];
    FitsCons(ts, pos, shape[..j + 1]);
    assert shape[1..][j] == shape[j + 1] && pos + 1 + j == pos + (j + 1);
  }

  lemma ShapeErrorCons(ts: seq<Token>, pos: nat, shape: seq<TokenKind>, e: Error)
    requires shape != [] && pos < |ts| && ts[pos].kind == shape[0]
    requires ShapeError(ts, pos + 1, shape[1..], e)
    ensures ShapeError(ts, pos, shape, e)
  {
    var j: nat :| FirstMisfit(ts, pos + 1, shape[1..], j) && e == ErrorAt(ts, pos + 1 + j, shape[1..][j]);
    MisfitCons(ts, pos, shape, j);
    assert shape[1..][j] == shape[j + 1] && pos + 1 + j == pos + (j + 1);
  }

  /** The statement forms, as token-kind sequences. */
  const PointShape: seq<TokenKind> := [PLACE, POINT, ID, LPAREN, NUMBER, COMMA, NUMBER, RPAREN]
  const RectangleShape: seq<TokenKind> := [BUILD, RECTANGLE, ID, ID, ID, ID]
  const TriangleShape: seq<TokenKind> := [BUILD, TRIANGLE, ID, ID, ID]
  const LineShape: seq<TokenKind> := [CONNECT, LINE, ID, COMMA, ID]

  /** Every name is a key of the registry. */
  predicate AllPlaced(reg: Registry, names: seq<string>) {
    forall i :: 0 <= i < |names| ==> names[i] in reg
  }

  /** Resolves point names against the registry; if any is unknown, fails
      naming all of them. */
  function Lookup(reg: Registry, names: seq<string>): (r: Result<seq<Point>, Error>)
    ensures r.Ok? <==> AllPlaced(reg, names)
    ensures r.Ok? ==> |r.value| == |names| && forall i :: 0 <= i < |names| ==> r.value[i] == reg[names[i]]
    ensures r.Fail? ==> r.error == Undefined(names)
  {
    if AllPlaced(reg, names) then
      Ok(seq(|names|, i requires 0 <= i < |names| => reg[names[i]]))
    else Fail(Undefined(names))
  }

  /** The lexemes of `ts[from..from + n]`. */
  function Lexemes(ts: seq<Token>, from: nat, n: nat): (r: seq<string>)
    requires from + n <= |ts|
    ensures |r| == n && forall i :: 0 <= i < n ==> r[i] == ts[from + i].lexeme
  {
    seq(n, i requires 0 <= i < n => ts[from + i].lexeme)
  }

  /** place-stmt: PLACE POINT ID ( NUMBER , NUMBER ). The point is stored
      under its name, overwriting any earlier point of that name. */
  function ParsePoint(ts: seq<Token>, pos: nat, reg: Registry): (r: Result<Parsed, Error>)
    requires pos <= |ts|
    ensures r.Ok? <==> Fits(ts, pos, PointShape)
    ensures r.Ok? ==>
      var p := Point(ts[pos + 2].lexeme, ts[pos + 4].lexeme, ts[pos + 6].lexeme);
      r.value == Parsed(PointNode(p), pos + 8, reg[p.name := p])
    ensures r.Fail? ==> ShapeError(ts, pos, PointShape, r.error)
  {
    var read :- ConsumeAll(ts, pos, PointShape);
    var p := Point(read.value[2], read.value[4], read.value[6]);
    Ok(Parsed(PointNode(p), read.pos, reg[p.name := p]))
  }

  /** rect-stmt: BUILD RECTANGLE ID ID ID ID; every name must be placed. */
  function ParseRectangle(ts: seq<Token>, pos: nat, reg: Registry): (r: Result<Parsed, Error>)
    requires pos <= |ts|
    ensures r.Ok? <==> Fits(ts, pos, RectangleShape) && AllPlaced(reg, Lexemes(ts, pos + 2, 4))
    ensures r.Ok? ==> r.value.pos == pos + 6 && r.value.registry == reg && r.value.node.RectangleNode?
    ensures r.Ok? ==> (|r.value.node.points| == 4 &&
      forall i :: 0 <= i < 4 ==> r.value.node.points[i] == reg[Lexemes(ts, pos + 2, 4)[i]])
    ensures r.Fail? && !Fits(ts, pos, RectangleShape) ==> ShapeError(ts, pos, RectangleShape, r.error)
    ensures r.Fail? && Fits(ts, pos, RectangleShape) ==> r.error == Undefined(Lexemes(ts, pos + 2, 4))
  {
    var read :- ConsumeAll(ts, pos, RectangleShape);
    var names := read.value[2..];
    assert names == Lexemes(ts, pos + 2, 4);
    var points :- Lookup(reg, names);
    Ok(Parsed(RectangleNode(points), read.pos, reg))
  }

  /** tri-stmt: BUILD TRIANGLE ID ID ID; every name must be placed. */
  function ParseTriangle(ts: seq<Token>, pos: nat, reg: Registry): (r: Result<Parsed, Error>)
    requires pos <= |ts|
    ensures r.Ok? <==> Fits(ts, pos, TriangleShape) && AllPlaced(reg, Lexemes(ts, pos + 2, 3))
    ensures r.Ok? ==> r.value.pos == pos + 5 && r.value.registry == reg && r.value.node.TriangleNode?
    ensures r.Ok? ==> (|r.value.node.points| == 3 &&
      forall i :: 0 <= i < 3 ==> r.value.node.points[i] == reg[Lexemes(ts, pos + 2, 3)[i]])
    ensures r.Fail? && !Fits(ts, pos, TriangleShape) ==> ShapeError(ts, pos, TriangleShape, r.error)
    ensures r.Fail? && Fits(ts, pos, TriangleShape) ==> r.error == Undefined(Lexemes(ts, pos + 2, 3))
  {
    var read :- ConsumeAll(ts, pos, TriangleShape);
    var names := read.value[2..];
    assert names == Lexemes(ts, pos + 2, 3);
    var points :- Lookup(reg, names);
    Ok(Parsed(TriangleNode(points), read.pos, reg))
  }

  /** line-stmt: CONNECT LINE ID , ID; both endpoints must be placed. */
  function ParseLine(ts: seq<Token>, pos: nat, reg: Registry): (r: Result<Parsed, Error>)
    requires pos <= |ts|
    ensures r.Ok? <==> Fits(ts, pos, LineShape) && ts[pos + 2].lexeme in reg && ts[pos + 4].lexeme in reg
    ensures r.Ok? ==> r.value == Parsed(LineNode(reg[ts[pos + 2].lexeme], reg[ts[pos + 4].lexeme]), pos + 5, reg)
    ensures r.Fail? && !Fits(ts, pos, LineShape) ==> ShapeError(ts, pos, LineShape, r.error)
    ensures r.Fail? && Fits(ts, pos, LineShape) ==>
      r.error == Undefined([ts[pos + 2].lexeme, ts[pos + 4].lexeme])
  {
    var read :- ConsumeAll(ts, pos, LineShape);
    var point1, point2 := read.value[2], read.value[4];
    if point1 in reg && point2 in reg then
      Ok(Parsed(LineNode(reg[point1], reg[point2]), read.pos, reg))
    else Fail(Undefined([point1, point2]))
  }

  /** One statement, chosen by the token under the cursor; BUILD looks one
      token further to choose between rectangle and triangle. */
  function Statement(ts: seq<Token>, pos: nat, reg: Registry): (r: Result<Parsed, Error>)
    requires pos < |ts|
    ensures r.Ok? ==> pos + 5 <= r.value.pos <= |ts|
  {
    var kind := ts[pos].kind;
    if kind == PLACE then ParsePoint(ts, pos, reg)
    else if kind == BUILD && pos + 1 == |ts| then Fail(EndOfInput(pos + 1))
    else if kind == BUILD && ts[pos + 1].kind == RECTANGLE then ParseRectangle(ts, pos, reg)
    else if kind == BUILD && ts[pos + 1].kind == TRIANGLE then ParseTriangle(ts, pos, reg)
    else if kind == CONNECT then ParseLine(ts, pos, reg)
    else Fail(Unexpected(kind))
  }

  /** PLACE selects a place statement. */
  lemma DispatchPlace(ts: seq<Token>, pos: nat, reg: Registry)
    requires pos < |ts| && ts[pos].kind == PLACE
    ensures Statement(ts, pos, reg) == ParsePoint(ts, pos, reg)
  {
  }

  /** CONNECT selects a line statement. */
  lemma DispatchConnect(ts: seq<Token>, pos: nat, reg: Registry)
    requires pos < |ts| && ts[pos].kind == CONNECT
    ensures Statement(ts, pos, reg) == ParseLine(ts, pos, reg)
  {
  }

  /** BUILD selects by the next token; reading past the end, or any next
      token other than RECTANGLE or TRIANGLE, fails. */
  lemma DispatchBuild(ts: seq<Token>, pos: nat, reg: Registry)
    requires pos < |ts| && ts[pos].kind == BUILD
    ensures pos + 1 == |ts| ==> Statement(ts, pos, reg) == Fail(EndOfInput(pos + 1))
    ensures pos + 1 < |ts| && ts[pos + 1].kind == RECTANGLE ==>
      Statement(ts, pos, reg) == ParseRectangle(ts, pos, reg)
    ensures pos + 1 < |ts| && ts[pos + 1].kind == TRIANGLE ==>
      Statement(ts, pos, reg) == ParseTriangle(ts, pos, reg)
    ensures pos + 1 < |ts| && ts[pos + 1].kind !in {RECTANGLE, TRIANGLE} ==>
      Statement(ts, pos, reg) == Fail(Unexpected(BUILD))
  {
  }

  /** Any other token, a stray DOT included, starts no statement. */
  lemma DispatchOther(ts: seq<Token>, pos: nat, reg: Registry)
    requires pos < |ts| && ts[pos].kind !in {PLACE, BUILD, CONNECT}
    ensures Statement(ts, pos, reg) == Fail(Unexpected(ts[pos].kind))
  {
  }

  /** A statement changes the registry only by storing the point a place
      statement emits, and every point a node holds is the registry's entry
      for the name written. */
  lemma StatementEffect(ts: seq<Token>, pos: nat, reg: Registry)
    requires pos < |ts| && Statement(ts, pos, reg).Ok?
    ensures Statement(ts, pos, reg).value.registry == Ast.Step(reg, Statement(ts, pos, reg).value.node)
    ensures Consistent(reg) ==> Resolved(Statement(ts, pos, reg).value.node, reg)
  {
    var s := Statement(ts, pos, reg).value;
    if Consistent(reg) {
      match s.node
      case PointNode(_) =>
      case RectangleNode(ps) =>
        assert forall i :: 0 <= i < 4 ==> ps[i] == reg[Lexemes(ts, pos + 2, 4)[i]];
      case TriangleNode(ps) =>
        assert forall i :: 0 <= i < 3 ==> ps[i] == reg[Lexemes(ts, pos + 2, 3)[i]];
      case LineNode(a, b) =>
    }
  }

  /** Consumes a single DOT under the cursor, if there is one. */
  function SkipDot(ts: seq<Token>, pos: nat): (r: nat)
    requires pos <= |ts|
    ensures r <= |ts|
    ensures r == pos + 1 <==> pos < |ts| && ts[pos].kind == DOT
    ensures r == pos <==> !(pos < |ts| && ts[pos].kind == DOT)
  {
    if pos < |ts| && ts[pos].kind == DOT then pos + 1 else pos
  }

  /** The statements from `pos` to the end of the tokens. */
  function ParseFrom(ts: seq<Token>, pos: nat, reg: Registry): Result<seq<Node>, Error>
    requires pos <= |ts|
    decreases |ts| - pos
  {
    if pos == |ts| then Ok([])
    else
      var s :- Statement(ts, pos, reg);
      var rest :- ParseFrom(ts, SkipDot(ts, s.pos), s.registry);
      Ok([s.node] + rest)
  }

  /** One statement followed by the rest of the parse. */
  lemma ParseFromCons(ts: seq<Token>, pos: nat, reg: Registry, s: Parsed, rest: seq<Node>)
    requires pos < |ts| && Statement(ts, pos, reg) == Ok(s)
    requires ParseFrom(ts, SkipDot(ts, s.pos), s.registry) == Ok(rest)
    ensures ParseFrom(ts, pos, reg) == Ok([s.node] + rest)
  {
  }

  /** A whole parse, with a fresh cursor and an empty registry. */
  function Parse(ts: seq<Token>): Result<seq<Node>, Error> {
    ParseFrom(ts, 0, map[])
  }

  /** Puts `nodes` in front of a successful result. */
  function Prepend(nodes: seq<Node>, r: Result<seq<Node>, Error>): Result<seq<Node>, Error> {
    match r
    case Ok(rest) => Ok(nodes + rest)
    case Fail(e) => Fail(e)
  }

  lemma PrependStatement(nodes: seq<Node>, ts: seq<Token>, pos: nat, reg: Registry)
    requires pos < |ts| && Statement(ts, pos, reg).Ok?
    ensures var s := Statement(ts, pos, reg).value;
      Prepend(nodes, ParseFrom(ts, pos, reg)) ==
      Prepend(nodes + [s.node], ParseFrom(ts, SkipDot(ts, s.pos), s.registry))
  {
    var s := Statement(ts, pos, reg).value;
    match ParseFrom(ts, SkipDot(ts, s.pos), s.registry)
    case Ok(rest) =>
      assert nodes + ([s.node] + rest) == (nodes + [s.node]) + rest;
    case Fail(_) =>
  }

  /** The parse loop as written: statements until the tokens run out, each
      optionally followed by one DOT; the first failure aborts. */
  method RunParse(ts: seq<Token>) returns (r: Result<seq<Node>, Error>)
    ensures r == Parse(ts)
  {
    var pos: nat := 0;
    var reg: Registry := map[];
    var nodes: seq<Node> := [];
    match Parse(ts) {
      case Ok(all) => assert [] + all == all;
      case Fail(_) =>
    }
    while pos < |ts|
      invariant pos <= |ts|
      invariant Parse(ts) == Prepend(nodes, ParseFrom(ts, pos, reg))
      decreases |ts| - pos
    {
      var s := Statement(ts, pos, reg);
      if s.Fail? {
        assert ParseFrom(ts, pos, reg) == Fail(s.error);
        return Fail(s.error);
      }
      var next := SkipDot(ts, s.value.pos);
      PrependStatement(nodes, ts, pos, reg);
      nodes := nodes + [s.value.node];
      pos, reg := next, s.value.registry;
    }
    assert nodes + [] == nodes;
    return Ok(nodes);
  }

  // ---------------------------------------------------------------------
  // Properties of a whole parse
  // ---------------------------------------------------------------------

  /** Every scene the parser produces resolves each reference against the
      registry built by the statements before it. */
  lemma {:induction false} ParseFromWellFormed(ts: seq<Token>, pos: nat, reg: Registry)
    requires pos <= |ts| && Consistent(reg)
    requires ParseFrom(ts, pos, reg).Ok?
    ensures WellFormed(reg, ParseFrom(ts, pos, reg).value)
    decreases |ts| - pos
  {
    if pos < |ts| {
      var s := Statement(ts, pos, reg).value;
      StatementEffect(ts, pos, reg);
      StepKeepsConsistent(reg, s.node);
      ParseFromWellFormed(ts, SkipDot(ts, s.pos), s.registry);
      var ns := ParseFrom(ts, pos, reg).value;
      assert ns[1..] == ParseFrom(ts, SkipDot(ts, s.pos), s.registry).value;
    }
  }

  /** Definition before use: every point a rectangle, triangle or line node
      holds was emitted as a point node earlier in the scene. */
  lemma ParseRefsPlacedEarlier(ts: seq<Token>, nodes: seq<Node>, k: nat, i: nat)
    requires Parse(ts) == Ok(nodes)
    requires k < |nodes| && i < |Refs(nodes[k])|
    ensures PointNode(Refs(nodes[k])[i]) in nodes[..k]
  {
    ParseFromWellFormed(ts, 0, map[]);
    WellFormedRefsPlacedEarlier(nodes, k, i);
  }
}
