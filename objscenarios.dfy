/**
 * Whole files run through the loader: two vertex lines followed by a
 * polyline joining them, a vertex line with only two coordinates, and a
 * polyline whose references name no vertex. The coordinate parser is any
 * parser that reads the digits used here as the expected numbers.
 */
module ObjScenarios {
  import opened Geometry
  import opened Wrappers
  import opened Strings
  import opened Sorting
  import opened Models
  import opened ObjLoader

  /** A file of one line without continuations is that single line. */
  lemma SingleLine(code: string)
    requires forall i :: 0 <= i < |code| ==> code[i] != '\\' && code[i] != '\n'
    ensures Lines(code) == [code]
  {
    forall i: nat | i < |code| ensures !ContinuationAt(code, i) {
      assert code[i] != '\\';
    }
    NoContinuationUnchanged(code);
    SplitFree(code, '\n');
  }

  /** The lists after a file whose three lines declare two vertices and a polyline. */
  lemma ScanThree(l0: string, l1: string, l2: string, s0: Statement, s1: Statement, s2: Statement, parseReal: RealParser)
    requires ParseLine(l0, parseReal) == Ok(s0) && ParseLine(l1, parseReal) == Ok(s1) && ParseLine(l2, parseReal) == Ok(s2)
    ensures Scan([l0, l1, l2], parseReal) == Ok(Record(Record(Record(Tables([], [], []), s0), s1), s2))
  {
    ScanStep([], l0, parseReal);
    assert [] + [l0] == [l0];
    ScanStep([l0], l1, parseReal);
    assert [l0] + [l1] == [l0, l1];
    ScanStep([l0, l1], l2, parseReal);
    assert [l0, l1] + [l2] == [l0, l1, l2];
  }

  lemma RecordChain(p: Point, q: Point, refs: seq<nat>)
    ensures Record(Record(Record(Tables([], [], []), Vertex(p)), Vertex(q)), Polyline(refs)) == Tables([p, q], [refs], [])
  {
    assert [] + [p] == [p] && [p] + [q] == [p, q];
    assert [] + [refs] == [refs];
  }

  const TwoVertices := "v 1 2 3\nv 4 5 6\nl 1 2"

  /** The three lines of `TwoVertices`, joined by newlines, are the file. */
  lemma TwoVerticesJoined()
    ensures Join(["v 1 2 3", "v 4 5 6", "l 1 2"], '\n') == TwoVertices
  {
    var parts := ["v 1 2 3", "v 4 5 6", "l 1 2"];
    assert parts[1..][1..] == ["l 1 2"];
    assert Join(["l 1 2"], '\n') == "l 1 2";
    assert Join(parts[1..], '\n') == "v 4 5 6" + ['\n'] + "l 1 2";
  }

  /** The file has no backslash, so no continuation. */
  lemma TwoVerticesNoContinuation()
    ensures NoContinuation(TwoVertices)
  {
    forall i: nat | i < |TwoVertices| ensures !ContinuationAt(TwoVertices, i) {
      assert TwoVertices[i] != '\\';
    }
  }

  /** Newline-free lines without continuations, joined by newlines, read back as those lines. */
  lemma LinesOfJoined(parts: seq<string>)
    requires |parts| >= 1
    requires forall k :: 0 <= k < |parts| ==> '\n' !in parts[k]
    requires NoContinuation(Join(parts, '\n'))
    ensures Lines(Join(parts, '\n')) == parts
  {
    NoContinuationUnchanged(Join(parts, '\n'));
    SplitJoin(parts, '\n');
  }

  lemma TwoVerticesLines()
    ensures Lines(TwoVertices) == ["v 1 2 3", "v 4 5 6", "l 1 2"]
  {
    var parts := ["v 1 2 3", "v 4 5 6", "l 1 2"];
    TwoVerticesJoined();
    TwoVerticesNoContinuation();
    assert '\n' !in parts[0] && '\n' !in parts[1] && '\n' !in parts[2];
    LinesOfJoined(parts);
  }

  /** Three words separated by single spaces read back as those words. */
  lemma ThreeWords(a: string, b: string, c: string)
    requires IsWord(a) && IsWord(b) && IsWord(c)
    ensures Tokens(a + " " + b + " " + c) == [a, b, c]
  {
    var tail := b + [' '] + c;
    assert a + " " + b + " " + c == a + [' '] + tail;
    TokensOfWord(c);
    TokensAfterWord(b, c);
    TokensAfterWord(a, tail);
  }

  /** Four words separated by single spaces read back as those words. */
  lemma FourWords(a: string, b: string, c: string, d: string)
    requires IsWord(a) && IsWord(b) && IsWord(c) && IsWord(d)
    ensures Tokens(a + " " + b + " " + c + " " + d) == [a, b, c, d]
  {
    var tail := b + " " + c + " " + d;
    assert a + " " + b + " " + c + " " + d == a + [' '] + tail;
    ThreeWords(b, c, d);
    TokensAfterWord(a, tail);
  }

  /** A one-character string is a word unless that character is whitespace. */
  lemma Letter(c: char)
    requires !IsWhitespace(c)
    ensures IsWord([c])
  {
  }

  lemma TwoVerticesTokens()
    ensures Tokens("v 1 2 3") == ["v", "1", "2", "3"]
    ensures Tokens("v 4 5 6") == ["v", "4", "5", "6"]
    ensures Tokens("l 1 2") == ["l", "1", "2"]
  {
    Letter('v'); Letter('l'); Letter('1'); Letter('2'); Letter('3'); Letter('4'); Letter('5'); Letter('6');
    assert "v 1 2 3" == "v" + " " + "1" + " " + "2" + " " + "3";
    assert "v 4 5 6" == "v" + " " + "4" + " " + "5" + " " + "6";
    assert "l 1 2" == "l" + " " + "1" + " " + "2";
    FourWords("v", "1", "2", "3");
    FourWords("v", "4", "5", "6");
    ThreeWords("l", "1", "2");
  }

  /** `1` and `2` refer to the first and second vertex. */
  lemma FirstTwoIndices()
    ensures References(["1", "2"], 2) == Ok([0, 1])
  {
    var ts := ["1", "2"];
    assert DigitsValue(ts[0]) == 1 && DigitsValue(ts[1]) == 2;
    SingleFieldRef(ts[0], 2);
    SingleFieldRef(ts[1], 2);
    ReferencesOk(ts, 2);
    ReferencesValues(ts, 2);
    var r := References(ts, 2);
    assert r.value[0] == 0 && r.value[1] == 1;
    assert r.value == [0, 1];
  }

  lemma PolylineOneTwo(parseReal: RealParser)
    ensures ParseLine("l 1 2", parseReal) == Ok(Polyline([0, 1]))
  {
    TwoVerticesTokens();
    FirstTwoIndices();
    assert ["l", "1", "2"][1..] == ["1", "2"];
  }

  /** Digits read as the numbers they spell. */
  predicate ReadsDigits(parseReal: RealParser) {
    && parseReal("1") == Some(1.0) && parseReal("2") == Some(2.0) && parseReal("3") == Some(3.0)
    && parseReal("4") == Some(4.0) && parseReal("5") == Some(5.0) && parseReal("6") == Some(6.0)
  }

  lemma TwoVertexLines(parseReal: RealParser)
    requires ReadsDigits(parseReal)
    ensures ParseLine("v 1 2 3", parseReal) == Ok(Vertex(Point(1.0, 2.0, 3.0)))
    ensures ParseLine("v 4 5 6", parseReal) == Ok(Vertex(Point(4.0, 5.0, 6.0)))
  {
    TwoVerticesTokens();
  }

  lemma OneEdge()
    ensures Normalise(IndexEdges([[0, 1]], [])) == [(0, 1)]
  {
    assert IndexEdges([[0, 1]], []) == [(0, 1)];
  }

  lemma ResolveOneEdge(vertices: seq<Point>)
    requires |vertices| == 2
    ensures Resolve(vertices, [(0, 1)]) == Ok([(vertices[0], vertices[1])])
  {
    var r := Resolve(vertices, [(0, 1)]);
    assert InRange((0, 1), 2);
    assert r.Ok? && |r.value| == 1;
    assert r.value[0] == (vertices[0], vertices[1]);
    assert r.value == [(vertices[0], vertices[1])];
  }

  /**
   * `v 1 2 3`, `v 4 5 6`, `l 1 2`: the two points, and one edge from the
   * first to the second.
   */
  lemma TwoVerticesOneEdge(parseReal: RealParser, position: Point)
    requires ReadsDigits(parseReal)
    ensures LoadObj(TwoVertices, position, parseReal)
         == Ok(Model([Point(1.0, 2.0, 3.0), Point(4.0, 5.0, 6.0)], [(Point(1.0, 2.0, 3.0), Point(4.0, 5.0, 6.0))], position))
  {
    TwoVerticesLines();
    TwoVertexLines(parseReal);
    PolylineOneTwo(parseReal);
    var p, q := Point(1.0, 2.0, 3.0), Point(4.0, 5.0, 6.0);
    ScanThree("v 1 2 3", "v 4 5 6", "l 1 2", Vertex(p), Vertex(q), Polyline([0, 1]), parseReal);
    RecordChain(p, q, [0, 1]);
    OneEdge();
    ResolveOneEdge([p, q]);
  }

  /** `v 1 2`: a vertex with two coordinates fails the whole load. */
  lemma ShortVertexFails(parseReal: RealParser, position: Point)
    ensures LoadObj("v 1 2", position, parseReal) == Err(ParseError)
  {
    var code := "v 1 2";
    SingleLine(code);
    Letter('v'); Letter('1'); Letter('2');
    assert code == "v" + " " + "1" + " " + "2";
    ThreeWords("v", "1", "2");
    assert ParseLine(code, parseReal).Err?;
    ScanStep([], code, parseReal);
    assert [] + [code] == [code];
    assert Scan([code], parseReal).Err?;
  }

  lemma DanglingScan(parseReal: RealParser)
    ensures Scan(Lines("l 1 2"), parseReal) == Ok(Tables([], [[0, 1]], []))
  {
    SingleLine("l 1 2");
    PolylineOneTwo(parseReal);
    assert [] + [[0, 1]] == [[0, 1]];
    ScanStep([], "l 1 2", parseReal);
    assert [] + ["l 1 2"] == ["l 1 2"];
    assert Scan(["l 1 2"], parseReal) == Ok(Record(Tables([], [], []), Polyline([0, 1])));
  }

  /**
   * `l 1 2` in a file without vertices: every line parses, and yet the
   * sorted pairs name vertices that do not exist, which the source's
   * unchecked indexing (`ResolveUnchecked`) cannot take.
   */
  lemma DanglingReferenceUnchecked(parseReal: RealParser)
    ensures Scan(Lines("l 1 2"), parseReal) == Ok(Tables([], [[0, 1]], []))
    ensures !AllInRange(Normalise(IndexEdges([[0, 1]], [])), 0)
  {
    DanglingScan(parseReal);
    OneEdge();
    assert (0, 1) in [(0, 1)];
  }

  /** With the check in place the same file is refused with `IndexOutOfRange`. */
  lemma DanglingReferenceRefused(parseReal: RealParser, position: Point)
    ensures LoadObj("l 1 2", position, parseReal) == Err(IndexOutOfRange)
  {
    DanglingReferenceUnchecked(parseReal);
    OneEdge();
    assert !InRange((0, 1), 0);
  }
}
