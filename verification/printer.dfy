/** Writing a scene back out as tokens, one statement per node, each closed
    by a DOT, with fixed keyword lexemes. Parsing the printed tokens gives
    the scene back whenever the scene uses only points placed before. */
module Printer {
  import opened Results
  import opened Tokens
  import opened Ast
  import opened Parser

  /** One ID token per point, carrying its name. */
  function Names(ps: seq<Point>): (r: seq<Token>)
    ensures |r| == |ps| && forall i :: 0 <= i < |ps| ==> r[i] == Token(ID, ps[i].name)
  {
    seq(|ps|, i requires 0 <= i < |ps| => Token(ID, ps[i].name))
  }

  /** The statement that produces `node`. */
  function StatementTokens(node: Node): seq<Token> {
    match node
    case PointNode(p) =>
      [Token(PLACE, "Поставити"), Token(POINT, "точку"), Token(ID, p.name),
       Token(LPAREN, "("), Token(NUMBER, p.x), Token(COMMA, ","), Token(NUMBER, p.y), Token(RPAREN, ")")]
    case RectangleNode(ps) => [Token(BUILD, "Побудувати"), Token(RECTANGLE, "прямокутник")] + Names(ps)
    case TriangleNode(ps) => [Token(BUILD, "Побудувати"), Token(TRIANGLE, "трикутник")] + Names(ps)
    case LineNode(a, b) =>
      [Token(CONNECT, "Провести"), Token(LINE, "відрізок"), Token(ID, a.name), Token(COMMA, ","), Token(ID, b.name)]
  }

  /** A whole scene, each statement followed by a DOT. */
  function Print(nodes: seq<Node>): seq<Token>
    decreases |nodes|
  {
    if nodes == [] then [] else StatementTokens(nodes[0]) + [Token(DOT, ".")] + Print(nodes[1..])
  }

  /** `ts` holds the statement of `node` at `pos`. */
  predicate PrintedAt(ts: seq<Token>, pos: nat, node: Node) {
    pos + |StatementTokens(node)| <= |ts| && ts[pos..pos + |StatementTokens(node)|] == StatementTokens(node)
  }

  /** The tokens a printed point statement consists of. */
  lemma PointPrinted(ts: seq<Token>, pos: nat, p: Point)
    requires PrintedAt(ts, pos, PointNode(p))
    ensures ts[pos].kind == PLACE && Fits(ts, pos, PointShape)
    ensures ts[pos + 2].lexeme == p.name && ts[pos + 4].lexeme == p.x && ts[pos + 6].lexeme == p.y
  {
    var st := StatementTokens(PointNode(p));
    assert forall i :: 0 <= i < |st| ==> ts[pos + i] == st[i] by {
      forall i | 0 <= i < |st| ensures ts[pos + i] == st[i] {
        assert ts[pos..pos + |st|][i] == ts[pos + i];
      }
    }
    assert ts[pos] == st[0] && ts[pos + 1] == st[1];
    forall i | 0 <= i < 8 ensures ts[pos + i].kind == PointShape[i] {
      assert ts[pos + i] == st[i];
    }
    assert ts[pos + 2] == st[2] && ts[pos + 4] == st[4] && ts[pos + 6] == st[6];
  }

  /** The tokens a printed rectangle statement consists of. */
  lemma RectanglePrinted(ts: seq<Token>, pos: nat, ps: seq<Point>)
    requires |ps| == 4 && PrintedAt(ts, pos, RectangleNode(ps))
    ensures ts[pos].kind == BUILD && ts[pos + 1].kind == RECTANGLE && Fits(ts, pos, RectangleShape)
    ensures forall i :: 0 <= i < 4 ==> Lexemes(ts, pos + 2, 4)[i] == ps[i].name
  {
    var st := StatementTokens(RectangleNode(ps));
    assert forall i :: 0 <= i < |st| ==> ts[pos + i] == st[i] by {
      forall i | 0 <= i < |st| ensures ts[pos + i] == st[i] {
        assert ts[pos..pos + |st|][i] == ts[pos + i];
      }
    }
    assert ts[pos] == st[0] && ts[pos + 1] == st[1];
    forall i | 0 <= i < 6 ensures ts[pos + i].kind == RectangleShape[i] {
      assert ts[pos + i] == st[i];
    }
    forall i | 0 <= i < 4 ensures Lexemes(ts, pos + 2, 4)[i] == ps[i].name {
      assert ts[pos + 2 + i] == st[2 + i];
    }
  }

  /** The tokens a printed triangle statement consists of. */
  lemma TrianglePrinted(ts: seq<Token>, pos: nat, ps: seq<Point>)
    requires |ps| == 3 && PrintedAt(ts, pos, TriangleNode(ps))
    ensures ts[pos].kind == BUILD && ts[pos + 1].kind == TRIANGLE && Fits(ts, pos, TriangleShape)
    ensures forall i :: 0 <= i < 3 ==> Lexemes(ts, pos + 2, 3)[i] == ps[i].name
  {
    var st := StatementTokens(TriangleNode(ps));
    assert forall i :: 0 <= i < |st| ==> ts[pos + i] == st[i] by {
      forall i | 0 <= i < |st| ensures ts[pos + i] == st[i] {
        assert ts[pos..pos + |st|][i] == ts[pos + i];
      }
    }
    assert ts[pos] == st[0] && ts[pos + 1] == st[1];
    forall i | 0 <= i < 5 ensures ts[pos + i].kind == TriangleShape[i] {
      assert ts[pos + i] == st[i];
    }
    forall i | 0 <= i < 3 ensures Lexemes(ts, pos + 2, 3)[i] == ps[i].name {
      assert ts[pos + 2 + i] == st[2 + i];
    }
  }

  /** The tokens a printed line statement consists of. */
  lemma LinePrinted(ts: seq<Token>, pos: nat, a: Point, b: Point)
    requires PrintedAt(ts, pos, LineNode(a, b))
    ensures ts[pos].kind == CONNECT && Fits(ts, pos, LineShape)
    ensures ts[pos + 2].lexeme == a.name && ts[pos + 4].lexeme == b.name
  {
    var st := StatementTokens(LineNode(a, b));
    assert forall i :: 0 <= i < |st| ==> ts[pos + i] == st[i] by {
      forall i | 0 <= i < |st| ensures ts[pos + i] == st[i] {
        assert ts[pos..pos + |st|][i] == ts[pos + i];
      }
    }
    assert ts[pos] == st[0] && ts[pos + 1] == st[1];
    forall i | 0 <= i < 5 ensures ts[pos + i].kind == LineShape[i] {
      assert ts[pos + i] == st[i];
    }
    assert ts[pos + 2] == st[2] && ts[pos + 4] == st[4];
  }

  lemma PointParsesBack(ts: seq<Token>, pos: nat, reg: Registry, p: Point)
    requires pos < |ts| && ts[pos].kind == PLACE && Fits(ts, pos, PointShape)
    requires ts[pos + 2].lexeme == p.name && ts[pos + 4].lexeme == p.x && ts[pos + 6].lexeme == p.y
    ensures Statement(ts, pos, reg) == Ok(Parsed(PointNode(p), pos + 8, reg[p.name := p]))
  {
    DispatchPlace(ts, pos, reg);
  }

  lemma RectangleParsesBack(ts: seq<Token>, pos: nat, reg: Registry, ps: seq<Point>)
    requires Resolved(RectangleNode(ps), reg)
    requires pos + 1 < |ts| && ts[pos].kind == BUILD && ts[pos + 1].kind == RECTANGLE && Fits(ts, pos, RectangleShape)
    requires forall i :: 0 <= i < 4 ==> Lexemes(ts, pos + 2, 4)[i] == ps[i].name
    ensures Statement(ts, pos, reg) == Ok(Parsed(RectangleNode(ps), pos + 6, reg))
  {
    DispatchBuild(ts, pos, reg);
    var names := Lexemes(ts, pos + 2, 4);
    assert AllPlaced(reg, names) by {
      forall i | 0 <= i < 4 ensures names[i] in reg {
        assert Registered(ps[i], reg);
      }
    }
    assert ParseRectangle(ts, pos, reg).value.node.points == ps;
  }

  lemma TriangleParsesBack(ts: seq<Token>, pos: nat, reg: Registry, ps: seq<Point>)
    requires Resolved(TriangleNode(ps), reg)
    requires pos + 1 < |ts| && ts[pos].kind == BUILD && ts[pos + 1].kind == TRIANGLE && Fits(ts, pos, TriangleShape)
    requires forall i :: 0 <= i < 3 ==> Lexemes(ts, pos + 2, 3)[i] == ps[i].name
    ensures Statement(ts, pos, reg) == Ok(Parsed(TriangleNode(ps), pos + 5, reg))
  {
    DispatchBuild(ts, pos, reg);
    var names := Lexemes(ts, pos + 2, 3);
    assert AllPlaced(reg, names) by {
      forall i | 0 <= i < 3 ensures names[i] in reg {
        assert Registered(ps[i], reg);
      }
    }
    assert ParseTriangle(ts, pos, reg).value.node.points == ps;
  }

  lemma LineParsesBack(ts: seq<Token>, pos: nat, reg: Registry, a: Point, b: Point)
    requires Resolved(LineNode(a, b), reg)
    requires pos < |ts| && ts[pos].kind == CONNECT && Fits(ts, pos, LineShape)
    requires ts[pos + 2].lexeme == a.name && ts[pos + 4].lexeme == b.name
    ensures Statement(ts, pos, reg) == Ok(Parsed(LineNode(a, b), pos + 5, reg))
  {
    DispatchConnect(ts, pos, reg);
  }

  /** A resolved node's statement, found at `pos`, parses back to the node. */
  lemma StatementParsesBack(ts: seq<Token>, pos: nat, reg: Registry, node: Node)
    requires Resolved(node, reg) && PrintedAt(ts, pos, node)
    ensures Statement(ts, pos, reg) == Ok(Parsed(node, pos + |StatementTokens(node)|, Ast.Step(reg, node)))
  {
    if node.PointNode? {
      PointRoundTrip(ts, pos, reg, node.point);
    } else if node.RectangleNode? {
      RectangleRoundTrip(ts, pos, reg, node.points);
    } else if node.TriangleNode? {
      TriangleRoundTrip(ts, pos, reg, node.points);
    } else {
      LineRoundTrip(ts, pos, reg, node.point1, node.point2);
    }
  }

  lemma PointRoundTrip(ts: seq<Token>, pos: nat, reg: Registry, p: Point)
    requires PrintedAt(ts, pos, PointNode(p))
    ensures Statement(ts, pos, reg) == Ok(Parsed(PointNode(p), pos + 8, reg[p.name := p]))
  {
    PointPrinted(ts, pos, p);
    PointParsesBack(ts, pos, reg, p);
  }

  lemma RectangleRoundTrip(ts: seq<Token>, pos: nat, reg: Registry, ps: seq<Point>)
    requires Resolved(RectangleNode(ps), reg) && PrintedAt(ts, pos, RectangleNode(ps))
    ensures Statement(ts, pos, reg) == Ok(Parsed(RectangleNode(ps), pos + 6, reg))
  {
    RectanglePrinted(ts, pos, ps);
    RectangleParsesBack(ts, pos, reg, ps);
  }

  lemma TriangleRoundTrip(ts: seq<Token>, pos: nat, reg: Registry, ps: seq<Point>)
    requires Resolved(TriangleNode(ps), reg) && PrintedAt(ts, pos, TriangleNode(ps))
    ensures Statement(ts, pos, reg) == Ok(Parsed(TriangleNode(ps), pos + 5, reg))
  {
    TrianglePrinted(ts, pos, ps);
    TriangleParsesBack(ts, pos, reg, ps);
  }

  lemma LineRoundTrip(ts: seq<Token>, pos: nat, reg: Registry, a: Point, b: Point)
    requires Resolved(LineNode(a, b), reg) && PrintedAt(ts, pos, LineNode(a, b))
    ensures Statement(ts, pos, reg) == Ok(Parsed(LineNode(a, b), pos + 5, reg))
  {
    LinePrinted(ts, pos, a, b);
    LineParsesBack(ts, pos, reg, a, b);
  }

  /** A printed statement and its DOT parse to the node and move the cursor
      past both. */
  lemma PrintedStatementStep(ts: seq<Token>, pos: nat, reg: Registry, node: Node)
    requires Resolved(node, reg) && PrintedAt(ts, pos, node)
    requires pos + |StatementTokens(node)| < |ts| && ts[pos + |StatementTokens(node)|] == Token(DOT, ".")
    ensures Statement(ts, pos, reg) == Ok(Parsed(node, pos + |StatementTokens(node)|, Ast.Step(reg, node)))
    ensures SkipDot(ts, pos + |StatementTokens(node)|) == pos + |StatementTokens(node)| + 1
  {
    StatementParsesBack(ts, pos, reg, node);
  }

  /** The step of the round trip: a resolved node printed at `pos` and
      followed by a DOT, in front of tokens that parse to `rest`, parses to
      the node followed by `rest`. */
  lemma ParsePrintedCons(ts: seq<Token>, pos: nat, reg: Registry, node: Node, rest: seq<Node>)
    requires Resolved(node, reg) && PrintedAt(ts, pos, node)
    requires pos + |StatementTokens(node)| < |ts| && ts[pos + |StatementTokens(node)|] == Token(DOT, ".")
    requires ParseFrom(ts, pos + |StatementTokens(node)| + 1, Ast.Step(reg, node)) == Ok(rest)
    ensures ParseFrom(ts, pos, reg) == Ok([node] + rest)
  {
    PrintedStatementStep(ts, pos, reg, node);
    ParseFromCons(ts, pos, reg, Parsed(node, pos + |StatementTokens(node)|, Ast.Step(reg, node)), rest);
  }

  /** Tokens from `pos` on that are a printed scene begin with the first
      node's statement and its DOT, and go on with the rest printed. */
  lemma PrintedSuffix(ts: seq<Token>, pos: nat, node: Node, rest: seq<Node>)
    requires pos <= |ts| && ts[pos..] == Print([node] + rest)
    ensures PrintedAt(ts, pos, node)
    ensures pos + |StatementTokens(node)| < |ts| && ts[pos + |StatementTokens(node)|] == Token(DOT, ".")
    ensures ts[pos + |StatementTokens(node)| + 1..] == Print(rest)
  {
    var st := StatementTokens(node);
    assert ([node] + rest)[1..] == rest;
    assert ts[pos..] == st + [Token(DOT, ".")] + Print(rest);
    assert ts[pos..pos + |st|] == ts[pos..][..|st|];
    assert ts[pos + |st|] == ts[pos..][|st|];
    assert ts[pos + |st| + 1..] == ts[pos..][|st| + 1..];
  }

  /** Round trip: tokens that are, from `pos` to the end, a printed
      well-formed scene parse from `pos` to exactly that scene. */
  lemma {:induction false} ParsePrintedFrom(ts: seq<Token>, pos: nat, reg: Registry, nodes: seq<Node>)
    requires WellFormed(reg, nodes)
    requires pos <= |ts| && ts[pos..] == Print(nodes)
    ensures ParseFrom(ts, pos, reg) == Ok(nodes)
    decreases |nodes|
  {
    if nodes == [] {
      assert |ts[pos..]| == 0;
    } else {
      var node, rest := nodes[0], nodes[1..];
      assert nodes == [node] + rest;
      PrintedSuffix(ts, pos, node, rest);
      ParsePrintedFrom(ts, pos + |StatementTokens(node)| + 1, Ast.Step(reg, node), rest);
      ParsePrintedCons(ts, pos, reg, node, rest);
    }
  }

  /** Parsing a printed well-formed scene from the start gives the scene. */
  lemma ParsePrinted(ts: seq<Token>, nodes: seq<Node>)
    requires WellFormed(map[], nodes) && ts == Print(nodes)
    ensures Parse(ts) == Ok(nodes)
  {
    ParsePrintedFrom(ts, 0, map[], nodes);
  }
}
