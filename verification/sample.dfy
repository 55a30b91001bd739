/** The sample text the program parses, as the tokens it scans to, and the
    scene it yields. */
module Sample {
  import opened Results
  import opened Tokens
  import opened Ast
  import opened Parser
  import Printer

  /** The tokens of one place statement with its closing DOT. */
  function Place(verb: string, name: string, x: string, y: string): (r: seq<Token>)
    ensures |r| == 9 && r[0].kind == PLACE && r[8].kind == DOT
  {
    [Token(PLACE, verb), Token(POINT, "точку"), Token(ID, name), Token(LPAREN, "("), Token(NUMBER, x),
     Token(COMMA, ","), Token(NUMBER, y), Token(RPAREN, ")"), Token(DOT, ".")]
  }

  const PlaceA: seq<Token> := Place("Поставити", A.name, A.x, A.y)
  const PlaceB: seq<Token> := Place("Поставити", B.name, B.x, B.y)
  const PlaceC: seq<Token> := Place("Поставити", C.name, C.x, C.y)
  /** The fourth statement uses another form of the verb. */
  const PlaceD: seq<Token> := Place("Поставте", D.name, D.x, D.y)
  const BuildRectangle: seq<Token> := [Token(BUILD, "Побудувати"), Token(RECTANGLE, "прямокутник"),
    Token(ID, "A"), Token(ID, "B"), Token(ID, "C"), Token(ID, "D"), Token(DOT, ".")]
  const DrawLine: seq<Token> := [Token(CONNECT, "Провести"), Token(LINE, "відрізок"),
    Token(ID, "A"), Token(COMMA, ","), Token(ID, "C"), Token(DOT, ".")]
  const BuildTriangle: seq<Token> := [Token(BUILD, "Побудувати"), Token(TRIANGLE, "трикутник"),
    Token(ID, "A"), Token(ID, "B"), Token(ID, "C"), Token(DOT, ".")]

  /** The tokens of the sample text: four place statements, then a
      rectangle, a line and a triangle, each closed by a DOT. */
  const SampleTokens: seq<Token> :=
    PlaceA + PlaceB + PlaceC + PlaceD + BuildRectangle + DrawLine + BuildTriangle

  const A: Point := Point("A", "1", "1")
  const B: Point := Point("B", "3", "1")
  const C: Point := Point("C", "3", "3")
  const D: Point := Point("D", "1", "3")

  /** What the parser needs of a place statement at pos, and the DOT after it. */
  lemma PlaceAt(ts: seq<Token>, pos: nat, verb: string, p: Point)
    requires pos + 9 <= |ts| && ts[pos..pos + 9] == Place(verb, p.name, p.x, p.y)
    ensures ts[pos].kind == PLACE && Fits(ts, pos, PointShape)
    ensures ts[pos + 2].lexeme == p.name && ts[pos + 4].lexeme == p.x && ts[pos + 6].lexeme == p.y
    ensures ts[pos + 8].kind == DOT
  {
    var st := Place(verb, p.name, p.x, p.y);
    forall i | 0 <= i < 9 ensures ts[pos + i] == st[i] {
      assert ts[pos..pos + 9][i] == ts[pos + i];
    }
    forall i | 0 <= i < 8 ensures ts[pos + i].kind == PointShape[i] {
      assert ts[pos + i] == st[i];
    }
  }

  /** A place statement of any verb form stores its point. */
  lemma PlaceStep(ts: seq<Token>, pos: nat, reg: Registry, verb: string, p: Point)
    requires pos + 9 <= |ts| && ts[pos..pos + 9] == Place(verb, p.name, p.x, p.y)
    ensures Statement(ts, pos, reg) == Ok(Parsed(PointNode(p), pos + 8, reg[p.name := p]))
    ensures SkipDot(ts, pos + 8) == pos + 9
  {
    PlaceAt(ts, pos, verb, p);
    Printer.PointParsesBack(ts, pos, reg, p);
  }

  /** What the parser needs of the rectangle statement at pos. */
  lemma RectangleAt(ts: seq<Token>, pos: nat)
    requires pos + 7 <= |ts| && ts[pos..pos + 7] == BuildRectangle
    ensures pos + 1 < |ts| && ts[pos].kind == BUILD && ts[pos + 1].kind == RECTANGLE
    ensures Fits(ts, pos, RectangleShape) && ts[pos + 6].kind == DOT
    ensures forall i :: 0 <= i < 4 ==> Lexemes(ts, pos + 2, 4)[i] == [A, B, C, D][i].name
  {
    forall i | 0 <= i < 7 ensures ts[pos + i] == BuildRectangle[i] {
      assert ts[pos..pos + 7][i] == ts[pos + i];
    }
    forall i | 0 <= i < 6 ensures ts[pos + i].kind == RectangleShape[i] {
      assert ts[pos + i] == BuildRectangle[i];
    }
  }

  /** What the parser needs of the line statement at pos. */
  lemma LineAt(ts: seq<Token>, pos: nat)
    requires pos + 6 <= |ts| && ts[pos..pos + 6] == DrawLine
    ensures ts[pos].kind == CONNECT && Fits(ts, pos, LineShape) && ts[pos + 5].kind == DOT
    ensures ts[pos + 2].lexeme == A.name && ts[pos + 4].lexeme == C.name
  {
    forall i | 0 <= i < 6 ensures ts[pos + i] == DrawLine[i] {
      assert ts[pos..pos + 6][i] == ts[pos + i];
    }
    forall i | 0 <= i < 5 ensures ts[pos + i].kind == LineShape[i] {
      assert ts[pos + i] == DrawLine[i];
    }
  }

  /** What the parser needs of the triangle statement at pos. */
  lemma TriangleAt(ts: seq<Token>, pos: nat)
    requires pos + 6 <= |ts| && ts[pos..pos + 6] == BuildTriangle
    ensures pos + 1 < |ts| && ts[pos].kind == BUILD && ts[pos + 1].kind == TRIANGLE
    ensures Fits(ts, pos, TriangleShape) && ts[pos + 5].kind == DOT
    ensures forall i :: 0 <= i < 3 ==> Lexemes(ts, pos + 2, 3)[i] == [A, B, C][i].name
  {
    forall i | 0 <= i < 6 ensures ts[pos + i] == BuildTriangle[i] {
      assert ts[pos..pos + 6][i] == ts[pos + i];
    }
    forall i | 0 <= i < 5 ensures ts[pos + i].kind == TriangleShape[i] {
      assert ts[pos + i] == BuildTriangle[i];
    }
  }

  /** The closing triangle statement, over corners already placed. */
  lemma TriangleTail(ts: seq<Token>, pos: nat, reg: Registry)
    requires pos + 6 == |ts| && ts[pos..pos + 6] == BuildTriangle
    requires Resolved(TriangleNode([A, B, C]), reg)
    ensures ParseFrom(ts, pos, reg) == Ok([TriangleNode([A, B, C])])
  {
    TriangleAt(ts, pos);
    Printer.TriangleParsesBack(ts, pos, reg, [A, B, C]);
    assert ParseFrom(ts, pos + 6, reg) == Ok([]);
    ParseFromCons(ts, pos, reg, Parsed(TriangleNode([A, B, C]), pos + 5, reg), []);
    assert [TriangleNode([A, B, C])] + [] == [TriangleNode([A, B, C])];
  }

  /** The line statement, followed by a parse to rest. */
  lemma LineTail(ts: seq<Token>, pos: nat, reg: Registry, rest: seq<Node>)
    requires pos + 6 <= |ts| && ts[pos..pos + 6] == DrawLine
    requires Resolved(LineNode(A, C), reg)
    requires ParseFrom(ts, pos + 6, reg) == Ok(rest)
    ensures ParseFrom(ts, pos, reg) == Ok([LineNode(A, C)] + rest)
  {
    LineAt(ts, pos);
    Printer.LineParsesBack(ts, pos, reg, A, C);
    ParseFromCons(ts, pos, reg, Parsed(LineNode(A, C), pos + 5, reg), rest);
  }

  /** The rectangle statement, followed by a parse to rest. */
  lemma RectangleTail(ts: seq<Token>, pos: nat, reg: Registry, rest: seq<Node>)
    requires pos + 7 <= |ts| && ts[pos..pos + 7] == BuildRectangle
    requires Resolved(RectangleNode([A, B, C, D]), reg)
    requires ParseFrom(ts, pos + 7, reg) == Ok(rest)
    ensures ParseFrom(ts, pos, reg) == Ok([RectangleNode([A, B, C, D])] + rest)
  {
    RectangleAt(ts, pos);
    Printer.RectangleParsesBack(ts, pos, reg, [A, B, C, D]);
    ParseFromCons(ts, pos, reg, Parsed(RectangleNode([A, B, C, D]), pos + 6, reg), rest);
  }

  /** The place statement at pos, followed by a parse to rest. */
  lemma PlaceTail(ts: seq<Token>, pos: nat, reg: Registry, verb: string, p: Point, rest: seq<Node>)
    requires pos + 9 <= |ts| && ts[pos..pos + 9] == Place(verb, p.name, p.x, p.y)
    requires ParseFrom(ts, pos + 9, reg[p.name := p]) == Ok(rest)
    ensures ParseFrom(ts, pos, reg) == Ok([PointNode(p)] + rest)
  {
    PlaceStep(ts, pos, reg, verb, p);
    ParseFromCons(ts, pos, reg, Parsed(PointNode(p), pos + 8, reg[p.name := p]), rest);
  }

  /** The three shapes closing the sample, over the four placed points. */
  function Shapes(): seq<Node> {
    [RectangleNode([A, B, C, D])] + ([LineNode(A, C)] + [TriangleNode([A, B, C])])
  }

  /** The three shape statements, over a registry holding their corners. */
  lemma ShapesTail(ts: seq<Token>, pos: nat, reg: Registry)
    requires pos + 19 == |ts| && ts[pos..pos + 7] == BuildRectangle
    requires ts[pos + 7..pos + 13] == DrawLine && ts[pos + 13..pos + 19] == BuildTriangle
    requires Resolved(RectangleNode([A, B, C, D]), reg)
    ensures ParseFrom(ts, pos, reg) == Ok(Shapes())
  {
    assert Resolved(TriangleNode([A, B, C]), reg) && Resolved(LineNode(A, C), reg) by {
      assert [A, B, C, D][0] == A && [A, B, C, D][1] == B && [A, B, C, D][2] == C;
    }
    TriangleTail(ts, pos + 13, reg);
    LineTail(ts, pos + 7, reg, [TriangleNode([A, B, C])]);
    RectangleTail(ts, pos, reg, [LineNode(A, C)] + [TriangleNode([A, B, C])]);
  }

  /** Two place statements in a row, followed by a parse to rest. */
  lemma TwoPlacesTail(ts: seq<Token>, pos: nat, reg: Registry, v1: string, p1: Point,
                      v2: string, p2: Point, rest: seq<Node>)
    requires pos + 18 <= |ts|
    requires ts[pos..pos + 9] == Place(v1, p1.name, p1.x, p1.y)
    requires ts[pos + 9..pos + 18] == Place(v2, p2.name, p2.x, p2.y)
    requires ParseFrom(ts, pos + 18, reg[p1.name := p1][p2.name := p2]) == Ok(rest)
    ensures ParseFrom(ts, pos, reg) == Ok([PointNode(p1)] + ([PointNode(p2)] + rest))
  {
    PlaceTail(ts, pos + 9, reg[p1.name := p1], v2, p2, rest);
    PlaceTail(ts, pos, reg, v1, p1, [PointNode(p2)] + rest);
  }

  /** The scene, in the nested form the statement-by-statement parse builds. */
  function Scene(): seq<Node> {
    [PointNode(A)] + ([PointNode(B)] + ([PointNode(C)] + ([PointNode(D)] + Shapes())))
  }

  /** The sample's statements, starting at pos and running to the end of
      the tokens, parse to the scene whatever the registry held before. */
  lemma SceneTail(ts: seq<Token>, pos: nat, reg: Registry)
    requires pos + 55 == |ts|
    requires ts[pos..pos + 9] == PlaceA && ts[pos + 9..pos + 18] == PlaceB
    requires ts[pos + 18..pos + 27] == PlaceC && ts[pos + 27..pos + 36] == PlaceD
    requires ts[pos + 36..pos + 43] == BuildRectangle && ts[pos + 43..pos + 49] == DrawLine
    requires ts[pos + 49..pos + 55] == BuildTriangle
    ensures ParseFrom(ts, pos, reg) == Ok(Scene())
  {
    var reg2 := reg[A.name := A][B.name := B];
    var reg4 := reg2[C.name := C][D.name := D];
    assert Resolved(RectangleNode([A, B, C, D]), reg4);
    ShapesTail(ts, pos + 36, reg4);
    TwoPlacesTail(ts, pos + 18, reg2, "Поставити", C, "Поставте", D, Shapes());
    TwoPlacesTail(ts, pos, reg, "Поставити", A, "Поставити", B,
      [PointNode(C)] + ([PointNode(D)] + Shapes()));
  }

  /** The token sequence is laid out statement by statement as the sample. */
  predicate LaidOut(ts: seq<Token>) {
    |ts| == 55 &&
    ts[0..9] == PlaceA && ts[9..18] == PlaceB &&
    ts[18..27] == PlaceC && ts[27..36] == PlaceD &&
    ts[36..43] == BuildRectangle && ts[43..49] == DrawLine &&
    ts[49..55] == BuildTriangle
  }

  /** Any token sequence laid out as the sample parses to the sample scene. */
  lemma LaidOutParses(ts: seq<Token>)
    requires LaidOut(ts)
    ensures Parse(ts) == Ok(Scene())
  {
    SceneTail(ts, 0, map[]);
  }

  lemma SceneFlat()
    ensures Scene() == [
      PointNode(A), PointNode(B), PointNode(C), PointNode(D),
      RectangleNode([A, B, C, D]), LineNode(A, C), TriangleNode([A, B, C])]
  {
  }

  /** Where each statement of the sample sits. */
  lemma SampleLayout()
    ensures |SampleTokens| == 55
    ensures SampleTokens[0..9] == PlaceA && SampleTokens[9..18] == PlaceB
    ensures SampleTokens[18..27] == PlaceC && SampleTokens[27..36] == PlaceD
    ensures SampleTokens[36..43] == BuildRectangle && SampleTokens[43..49] == DrawLine
    ensures SampleTokens[49..55] == BuildTriangle
  {
  }

  /** The sample yields the four points, then the rectangle, the line and the
      triangle over them, in that order. */
  lemma SampleParses(ts: seq<Token>)
    requires ts == SampleTokens
    ensures Parse(ts) == Ok([
      PointNode(A), PointNode(B), PointNode(C), PointNode(D),
      RectangleNode([A, B, C, D]), LineNode(A, C), TriangleNode([A, B, C])])
  {
    SampleLayout();
    LaidOutParses(ts);
    SceneFlat();
  }
}
