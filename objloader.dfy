/**
 * `Model::new_obj` (model.rs): loading a mesh from the text of a Wavefront
 * OBJ file. Only the statements the renderer draws are understood: `v`
 * (a vertex), `l` (a polyline) and `f`/`fo` (a face); every other line is
 * skipped. The polylines and faces become a list of index pairs, which is
 * sorted, deduplicated and finally resolved to pairs of points.
 *
 * Reading the file is outside the model: the loader starts from its
 * contents. Parsing a coordinate (`str::parse::<f32>`) is a parameter, so
 * every statement below holds for any number parser.
 */
module ObjLoader {
  import opened Geometry
  import opened Wrappers
  import opened Strings
  import opened Sorting
  import opened Models

  /**
   * Why a load failed. The source reports every parse failure through one
   * boxed error; `IndexOutOfRange` is the case where it panics instead.
   */
  datatype LoadError = ParseError | IndexOutOfRange

  datatype Result<T> = Ok(value: T) | Err(error: LoadError)

  /** A coordinate parser: `Some` value for a number, `None` for anything else. */
  type RealParser = string -> Option<real>

  /** What one line of the file declares; references are 0-based vertex indices. */
  datatype Statement = Vertex(point: Point) | Polyline(refs: seq<nat>) | Face(refs: seq<nat>) | Ignored

  /** The `vertices`, `lines` and `faces` lists filled while reading. */
  datatype Tables = Tables(vertices: seq<Point>, polylines: seq<seq<nat>>, faces: seq<seq<nat>>)

  // ---------------------------------------------------------------------
  // Vertex references
  // ---------------------------------------------------------------------

  /**
   * One vertex reference `index[/…]` of an `l` (at most 2 slash fields) or
   * `f` (at most 3) statement: the 1-based index in the first field, stored
   * 0-based. More fields, a field that is not a `usize`, or index 0 fail.
   */
  function VertexRef(token: string, maxFields: nat): (r: Result<nat>)
    ensures r.Err? ==> r.error == ParseError
  {
    var fields := Split(token, '/');
    if |fields| > maxFields then Err(ParseError)
    else
      match ParseUsize(fields[0])
      case None => Err(ParseError)
      case Some(n) => if n == 0 then Err(ParseError) else Ok(n - 1)
  }

  /**
   * Every token read by `read`, in order, or the first failure: the `?` on
   * each reference inside the token loops.
   */
  function Gather(tokens: seq<string>, read: string -> Result<nat>): (r: Result<seq<nat>>)
    ensures r.Ok? ==> |r.value| == |tokens|
    ensures r.Err? ==> exists k :: 0 <= k < |tokens| && read(tokens[k]) == Err(r.error)
  {
    if tokens == [] then Ok([])
    else
      var n := |tokens| - 1;
      match Gather(tokens[..n], read)
      case Err(e) =>
        ghost var k :| 0 <= k < n && read(tokens[..n][k]) == Err(e);
        assert tokens[..n][k] == tokens[k];
        Err(e)
      case Ok(refs) =>
        match read(tokens[n])
        case Err(e) => Err(e)
        case Ok(i) => Ok(refs + [i])
  }

  /** Gathering succeeds exactly when every token reads. */
  lemma {:induction false} GatherOk(tokens: seq<string>, read: string -> Result<nat>)
    ensures Gather(tokens, read).Ok? <==> forall k :: 0 <= k < |tokens| ==> read(tokens[k]).Ok?
  {
    if tokens != [] {
      var n := |tokens| - 1;
      var before := tokens[..n];
      GatherOk(before, read);
      assert Gather(tokens, read).Ok? <==> Gather(before, read).Ok? && read(tokens[n]).Ok?;
      if forall k :: 0 <= k < |tokens| ==> read(tokens[k]).Ok? {
        forall k | 0 <= k < n ensures read(before[k]).Ok? {
          assert before[k] == tokens[k];
        }
      }
      if Gather(tokens, read).Ok? {
        forall k | 0 <= k < |tokens| ensures read(tokens[k]).Ok? {
          if k < n {
            assert before[k] == tokens[k];
          }
        }
      }
    }
  }

  /** Gathered values are what each token reads as, in order. */
  lemma {:induction false} GatherValues(tokens: seq<string>, read: string -> Result<nat>)
    requires Gather(tokens, read).Ok?
    ensures forall k :: 0 <= k < |tokens| ==>
      read(tokens[k]).Ok? && Gather(tokens, read).value[k] == read(tokens[k]).value
  {
    if tokens != [] {
      var n := |tokens| - 1;
      var before := tokens[..n];
      var refs := Gather(before, read).value;
      var i := read(tokens[n]).value;
      assert Gather(tokens, read).value == refs + [i];
      GatherValues(before, read);
      forall k | 0 <= k < |tokens|
        ensures read(tokens[k]).Ok? && (refs + [i])[k] == read(tokens[k]).value
      {
        if k < n {
          assert before[k] == tokens[k];
          assert (refs + [i])[k] == refs[k];
        }
      }
    }
  }

  /** The references of one statement: all of them, or the failure of any. */
  function References(tokens: seq<string>, maxFields: nat): (r: Result<seq<nat>>)
    ensures r.Err? ==> r.error == ParseError
    ensures r.Ok? ==> |r.value| == |tokens|
  {
    Gather(tokens, t => VertexRef(t, maxFields))
  }

  /** A statement's references are read exactly when every token is a reference. */
  lemma ReferencesOk(tokens: seq<string>, maxFields: nat)
    ensures References(tokens, maxFields).Ok? <==> forall k :: 0 <= k < |tokens| ==> VertexRef(tokens[k], maxFields).Ok?
  {
    GatherOk(tokens, t => VertexRef(t, maxFields));
  }

  /** Read references are the tokens' indices, in order. */
  lemma ReferencesValues(tokens: seq<string>, maxFields: nat)
    requires References(tokens, maxFields).Ok?
    ensures forall k :: 0 <= k < |tokens| ==>
      VertexRef(tokens[k], maxFields).Ok? && References(tokens, maxFields).value[k] == VertexRef(tokens[k], maxFields).value
  {
    GatherValues(tokens, t => VertexRef(t, maxFields));
  }

  /** The body of the loop over the tokens of an `l` or `f` statement (model.rs:141-155, 166-180). */
  method ReadRef(token: string, maxFields: nat) returns (r: Result<nat>)
    ensures r == VertexRef(token, maxFields)
  {
    var params := Split(token, '/');
    if |params| > maxFields {
      return Err(ParseError);
    }
    var index := ParseUsize(params[0]);
    if index.None? || index.value == 0 {
      return Err(ParseError);
    }
    return Ok(index.value - 1);
  }

  /** The loop over the tokens of an `l` or `f` statement (model.rs:140-156, 165-181). */
  method ParseReferences(tokens: seq<string>, maxFields: nat) returns (r: Result<seq<nat>>)
    ensures r == References(tokens, maxFields)
  {
    var refs: seq<nat> := [];
    for k := 0 to |tokens|
      invariant References(tokens[..k], maxFields) == Ok(refs)
    {
      var ref := ReadRef(tokens[k], maxFields);
      if ref.Err? {
        ReferencesOk(tokens, maxFields);
        return Err(ParseError);
      }
      assert tokens[..k + 1][..k] == tokens[..k];
      refs := refs + [ref.value];
    }
    assert tokens[..|tokens|] == tokens;
    return Ok(refs);
  }

  /**
   * A reference written as its slash-separated fields: it is accepted exactly
   * when there are at most `maxFields` fields and the first is a positive
   * `usize`, and it then denotes that number minus one.
   */
  lemma VertexRefFields(fields: seq<string>, maxFields: nat)
    requires |fields| >= 1
    requires forall k :: 0 <= k < |fields| ==> '/' !in fields[k]
    ensures VertexRef(Join(fields, '/'), maxFields).Ok?
      <==> |fields| <= maxFields && ParseUsize(fields[0]).Some? && ParseUsize(fields[0]).value > 0
    ensures VertexRef(Join(fields, '/'), maxFields).Ok?
      ==> VertexRef(Join(fields, '/'), maxFields).value == ParseUsize(fields[0]).value - 1
  {
    SplitJoin(fields, '/');
  }

  /** A reference with a single field is read by `ParseUsize` alone. */
  lemma SingleFieldRef(t: string, maxFields: nat)
    requires '/' !in t && maxFields >= 1
    ensures VertexRef(t, maxFields) == match ParseUsize(t)
      case None => Err(ParseError)
      case Some(n) => if n == 0 then Err(ParseError) else Ok(n - 1)
  {
    SplitFree(t, '/');
  }

  /** A numeral for a positive `m` refers to vertex `m - 1`, in a polyline and in a face. */
  lemma NumeralRef(d: string, m: nat)
    requires AllDigits(d) && ParseUsize(d) == Some(m) && m > 0
    ensures VertexRef(d, 2) == Ok(m - 1) && VertexRef(d, 3) == Ok(m - 1)
  {
    assert '/' !in d by {
      forall i | 0 <= i < |d| ensures d[i] != '/' {
        assert IsDigit(d[i]);
      }
    }
    SingleFieldRef(d, 2);
    SingleFieldRef(d, 3);
  }

  /** The 1-based numeral of vertex `n` refers to vertex `n`, in a polyline and in a face. */
  lemma OneBasedIndex(n: nat)
    requires n < USIZE_MAX
    ensures VertexRef(Decimal(n + 1), 2) == Ok(n)
    ensures VertexRef(Decimal(n + 1), 3) == Ok(n)
  {
    ParseDecimal(n + 1);
    NumeralRef(Decimal(n + 1), n + 1);
  }

  /** Index 0 is not a vertex: a reference to it fails whatever its other fields. */
  lemma IndexZeroRejected(maxFields: nat)
    ensures VertexRef("0", maxFields).Err?
    ensures VertexRef("0/1", maxFields).Err?
  {
    assert DigitsValue("0") == 0;
    SplitFree("0", '/');
    SplitAfterPiece("0", "1", '/');
    assert "0" + ['/'] + "1" == "0/1";
  }

  // ---------------------------------------------------------------------
  // Statements
  // ---------------------------------------------------------------------

  /**
   * One line of the file, as the `match` on its first token (model.rs:116-192):
   * `v` needs three or four fields and parses the first three, `l` and
   * `f`/`fo` parse their references, and anything else is skipped.
   */
  function ParseLine(line: string, parseReal: RealParser): (r: Result<Statement>)
    ensures r.Err? ==> r.error == ParseError
  {
    var tokens := Tokens(line);
    if tokens == [] then Ok(Ignored)
    else if tokens[0] == "v" then
      if 4 <= |tokens| <= 5 then
        match (parseReal(tokens[1]), parseReal(tokens[2]), parseReal(tokens[3]))
        case (Some(x), Some(y), Some(z)) => Ok(Vertex(Point(x, y, z)))
        case _ => Err(ParseError)
      else Err(ParseError)
    else if tokens[0] == "l" then
      match References(tokens[1..], 2)
      case Err(e) => Err(e)
      case Ok(refs) => Ok(Polyline(refs))
    else if tokens[0] == "f" || tokens[0] == "fo" then
      match References(tokens[1..], 3)
      case Err(e) => Err(e)
      case Ok(refs) => Ok(Face(refs))
    else Ok(Ignored)
  }

  /** The lists after one more statement. */
  function Record(t: Tables, s: Statement): Tables {
    match s
    case Vertex(p) => t.(vertices := t.vertices + [p])
    case Polyline(refs) => t.(polylines := t.polylines + [refs])
    case Face(refs) => t.(faces := t.faces + [refs])
    case Ignored => t
  }

  /** The statement parser with the coordinate parser fixed. */
  function LineReader(parseReal: RealParser): string -> Result<Statement> {
    line => ParseLine(line, parseReal)
  }

  /** The lists after reading `lines` with `read` in order; the first bad line fails the whole read. */
  function ScanWith(lines: seq<string>, read: string -> Result<Statement>): (r: Result<Tables>)
    ensures r.Ok? <==> forall k :: 0 <= k < |lines| ==> read(lines[k]).Ok?
    ensures r.Err? ==> exists k :: 0 <= k < |lines| && read(lines[k]) == Err(r.error)
  {
    if lines == [] then Ok(Tables([], [], []))
    else
      var n := |lines| - 1;
      assert forall k :: 0 <= k < n ==> lines[..n][k] == lines[k];
      match ScanWith(lines[..n], read)
      case Err(e) => Err(e)
      case Ok(t) =>
        match read(lines[n])
        case Err(e) => Err(e)
        case Ok(s) => Ok(Record(t, s))
  }

  /** The lists after reading `lines` in order; the first bad line fails the whole read. */
  function Scan(lines: seq<string>, parseReal: RealParser): (r: Result<Tables>)
    ensures r.Ok? <==> forall k :: 0 <= k < |lines| ==> ParseLine(lines[k], parseReal).Ok?
    ensures r.Err? ==> r.error == ParseError
  {
    ScanWith(lines, LineReader(parseReal))
  }

  /** Reading one more line: the lists so far, then that line's statement recorded. */
  lemma ScanStep(lines: seq<string>, line: string, parseReal: RealParser)
    ensures Scan(lines + [line], parseReal) == match Scan(lines, parseReal)
      case Err(e) => Err(e)
      case Ok(t) => (match ParseLine(line, parseReal) case Err(e) => Err(e) case Ok(s) => Ok(Record(t, s)))
  {
    ScanWithStep(lines, line, LineReader(parseReal));
  }

  /** The physical lines of the file after its continuations are joined (model.rs:106, 114). */
  function Lines(code: string): seq<string> {
    Split(JoinContinuations(code), '\n')
  }

  /** No line handed to the statement parser still holds a continuation or a newline. */
  lemma LinesAreJoined(code: string)
    ensures forall k :: 0 <= k < |Lines(code)| ==> '\n' !in Lines(code)[k] && NoContinuation(Lines(code)[k])
  {
    SplitPiecesFree(JoinContinuations(code), '\n');
  }

  /**
   * A `v` line with the fields `fields`: it is accepted exactly when there
   * are three or four fields and the first three are numbers; it then
   * declares the point they give. A fourth field is never parsed.
   */
  lemma VertexLine(fields: seq<string>, parseReal: RealParser)
    requires forall k :: 0 <= k < |fields| ==> IsWord(fields[k])
    ensures var r := ParseLine(Join(["v"] + fields, ' '), parseReal);
      && (r.Ok? <==> (3 <= |fields| <= 4
                      && parseReal(fields[0]).Some? && parseReal(fields[1]).Some? && parseReal(fields[2]).Some?))
      && (r.Ok? ==> r.value == Vertex(Point(parseReal(fields[0]).value, parseReal(fields[1]).value, parseReal(fields[2]).value)))
  {
    var words := ["v"] + fields;
    assert IsWord("v");
    forall k | 0 <= k < |words| ensures IsWord(words[k]) {
      if k > 0 { assert words[k] == fields[k - 1]; }
    }
    TokensOfSpacedWords(words);
    assert words[1..] == fields;
  }

  /** Statements that leave the lists alone: blank lines, comments and unknown keywords. */
  predicate Skipped(line: string) {
    var tokens := Tokens(line);
    tokens == [] || (tokens[0] != "v" && tokens[0] != "l" && tokens[0] != "f" && tokens[0] != "fo")
  }

  /** Reading one more line with `read`: the lists so far, then that line's statement recorded. */
  lemma ScanWithStep(lines: seq<string>, line: string, read: string -> Result<Statement>)
    ensures ScanWith(lines + [line], read) == match ScanWith(lines, read)
      case Err(e) => Err(e)
      case Ok(t) => (match read(line) case Err(e) => Err(e) case Ok(s) => Ok(Record(t, s)))
  {
    assert (lines + [line])[..|lines|] == lines;
  }

  /** A line inserted before the last one: the insertion into the rest, then the last line. */
  lemma InsertBeforeLast(lines: seq<string>, k: nat, line: string)
    requires k < |lines|
    ensures lines[..k] + [line] + lines[k..]
         == (lines[..|lines| - 1][..k] + [line] + lines[..|lines| - 1][k..]) + [lines[|lines| - 1]]
  {
    var n := |lines| - 1;
    assert lines[k..] == lines[..n][k..] + [lines[n]];
    assert lines[..n][..k] == lines[..k];
  }

  /** Inserting a line that reads as no statement anywhere changes nothing. */
  lemma {:induction false} IgnoredLineAnywhere(lines: seq<string>, k: nat, line: string, read: string -> Result<Statement>)
    requires k <= |lines| && read(line) == Ok(Ignored)
    ensures ScanWith(lines[..k] + [line] + lines[k..], read) == ScanWith(lines, read)
  {
    if k == |lines| {
      assert lines[..k] + [line] + lines[k..] == lines + [line];
      ScanWithStep(lines, line, read);
    } else {
      var n := |lines| - 1;
      IgnoredLineAnywhere(lines[..n], k, line, read);
      InsertBeforeLast(lines, k, line);
      ScanWithStep(lines[..n][..k] + [line] + lines[..n][k..], lines[n], read);
      ScanWithStep(lines[..n], lines[n], read);
      assert lines[..n] + [lines[n]] == lines;
    }
  }

  /** Inserting a blank, comment or unknown line anywhere changes nothing. */
  lemma SkippedLineAnywhere(lines: seq<string>, k: nat, line: string, parseReal: RealParser)
    requires k <= |lines| && Skipped(line)
    ensures Scan(lines[..k] + [line] + lines[k..], parseReal) == Scan(lines, parseReal)
  {
    assert LineReader(parseReal)(line) == Ok(Ignored);
    IgnoredLineAnywhere(lines, k, line, LineReader(parseReal));
  }

  /** Whether `read` takes a line for a vertex. */
  predicate IsVertexLine(line: string, read: string -> Result<Statement>) {
    read(line).Ok? && read(line).value.Vertex?
  }

  /** How many of `lines` `read` takes for vertices. */
  function VertexLines(lines: seq<string>, read: string -> Result<Statement>): nat {
    if lines == [] then 0
    else VertexLines(lines[..|lines| - 1], read) + (if IsVertexLine(lines[|lines| - 1], read) then 1 else 0)
  }

  /** Whether a line declares a vertex. */
  predicate Declares(line: string, parseReal: RealParser) {
    ParseLine(line, parseReal).Ok? && ParseLine(line, parseReal).value.Vertex?
  }

  /** How many of `lines` declare a vertex. */
  function VertexCount(lines: seq<string>, parseReal: RealParser): nat {
    VertexLines(lines, LineReader(parseReal))
  }

  /** The vertex list holds one point per vertex line. */
  lemma {:induction false} VertexLinesTotal(lines: seq<string>, read: string -> Result<Statement>)
    requires ScanWith(lines, read).Ok?
    ensures |ScanWith(lines, read).value.vertices| == VertexLines(lines, read)
  {
    if lines != [] {
      VertexLinesTotal(lines[..|lines| - 1], read);
    }
  }

  /** The vertex list holds one point per `v` line. */
  lemma VertexTotal(lines: seq<string>, parseReal: RealParser)
    requires Scan(lines, parseReal).Ok?
    ensures |Scan(lines, parseReal).value.vertices| == VertexCount(lines, parseReal)
  {
    VertexLinesTotal(lines, LineReader(parseReal));
  }

  /** The vertex line at `k` gives the entry after those of the vertex lines before it. */
  lemma {:induction false} VertexLinesNumbering(lines: seq<string>, read: string -> Result<Statement>, k: nat)
    requires ScanWith(lines, read).Ok?
    requires k < |lines| && IsVertexLine(lines[k], read)
    ensures VertexLines(lines[..k], read) < |ScanWith(lines, read).value.vertices|
    ensures ScanWith(lines, read).value.vertices[VertexLines(lines[..k], read)] == read(lines[k]).value.point
  {
    var n := |lines| - 1;
    if k == n {
      VertexLinesTotal(lines[..n], read);
      assert lines[..k] == lines[..n];
    } else {
      VertexLinesNumbering(lines[..n], read, k);
      assert lines[..n][..k] == lines[..k];
    }
  }

  /**
   * Vertices are numbered in file order: the point of the `v` line at `k`
   * is the entry after those of the `v` lines before it, which is the entry
   * a reference to that count plus one resolves to.
   */
  lemma VertexNumbering(lines: seq<string>, parseReal: RealParser, k: nat)
    requires Scan(lines, parseReal).Ok?
    requires k < |lines| && Declares(lines[k], parseReal)
    ensures VertexCount(lines[..k], parseReal) < |Scan(lines, parseReal).value.vertices|
    ensures Scan(lines, parseReal).value.vertices[VertexCount(lines[..k], parseReal)]
         == ParseLine(lines[k], parseReal).value.point
  {
    assert LineReader(parseReal)(lines[k]) == ParseLine(lines[k], parseReal);
    VertexLinesNumbering(lines, LineReader(parseReal), k);
  }

  // ---------------------------------------------------------------------
  // Edges
  // ---------------------------------------------------------------------

  /** The pairs of neighbouring references of a polyline; fewer than two references give none. */
  function PolylineEdges(refs: seq<nat>): (r: seq<Pair>)
    ensures |refs| < 2 ==> r == []
    ensures |refs| >= 2 ==> |r| == |refs| - 1
    ensures forall k :: 0 <= k < |r| ==> r[k] == (refs[k], refs[k + 1])
  {
    if |refs| < 2 then []
    else
      var n := |refs| - 1;
      PolylineEdges(refs[..n]) + [(refs[n - 1], refs[n])]
  }

  /** The sides of a face: the polyline through its references, closed from the last back to the first. */
  function FaceEdges(refs: seq<nat>): seq<Pair> {
    if |refs| < 2 then [] else PolylineEdges(refs) + [(refs[|refs| - 1], refs[0])]
  }

  function AllPolylineEdges(polylines: seq<seq<nat>>): seq<Pair> {
    if polylines == [] then []
    else
      var n := |polylines| - 1;
      AllPolylineEdges(polylines[..n]) + PolylineEdges(polylines[n])
  }

  function AllFaceEdges(faces: seq<seq<nat>>): seq<Pair> {
    if faces == [] then []
    else
      var n := |faces| - 1;
      AllFaceEdges(faces[..n]) + FaceEdges(faces[n])
  }

  /** The edge list before sorting: polylines first, then faces, each in file order. */
  function IndexEdges(polylines: seq<seq<nat>>, faces: seq<seq<nat>>): seq<Pair> {
    AllPolylineEdges(polylines) + AllFaceEdges(faces)
  }

  /** `e` joins two neighbouring references of `refs`. */
  predicate Consecutive(refs: seq<nat>, e: Pair) {
    exists k :: 0 <= k < |refs| - 1 && e == (refs[k], refs[k + 1])
  }

  /** `e` is the closing side of the face `refs`, from its last reference to its first. */
  predicate Closing(refs: seq<nat>, e: Pair) {
    |refs| >= 2 && e == (refs[|refs| - 1], refs[0])
  }

  lemma PolylineEdgeSource(refs: seq<nat>, e: Pair)
    ensures e in PolylineEdges(refs) <==> Consecutive(refs, e)
  {
    if e in PolylineEdges(refs) {
      var k :| 0 <= k < |PolylineEdges(refs)| && PolylineEdges(refs)[k] == e;
      assert 0 <= k < |refs| - 1 && e == (refs[k], refs[k + 1]);
    }
    if Consecutive(refs, e) {
      var k :| 0 <= k < |refs| - 1 && e == (refs[k], refs[k + 1]);
      assert PolylineEdges(refs)[k] == e;
    }
  }

  /** Some polyline among `polylines` has `e` as a consecutive pair. */
  predicate OnSomePolyline(polylines: seq<seq<nat>>, e: Pair) {
    exists i :: 0 <= i < |polylines| && Consecutive(polylines[i], e)
  }

  lemma OnSomePolylineSplits(polylines: seq<seq<nat>>, e: Pair)
    requires polylines != []
    ensures OnSomePolyline(polylines, e)
        <==> OnSomePolyline(polylines[..|polylines| - 1], e) || Consecutive(polylines[|polylines| - 1], e)
  {
    var n := |polylines| - 1;
    if OnSomePolyline(polylines, e) {
      var i :| 0 <= i < |polylines| && Consecutive(polylines[i], e);
      if i < n {
        assert polylines[..n][i] == polylines[i];
      }
    }
    if OnSomePolyline(polylines[..n], e) {
      var i :| 0 <= i < n && Consecutive(polylines[..n][i], e);
      assert polylines[..n][i] == polylines[i];
    }
  }

  lemma {:induction false} PolylinesSource(polylines: seq<seq<nat>>, e: Pair)
    ensures e in AllPolylineEdges(polylines) <==> OnSomePolyline(polylines, e)
  {
    if polylines != [] {
      var n := |polylines| - 1;
      PolylinesSource(polylines[..n], e);
      PolylineEdgeSource(polylines[n], e);
      OnSomePolylineSplits(polylines, e);
    }
  }

  /** `e` is a side of the face `refs`: it joins neighbours or closes the face. */
  predicate FaceSide(refs: seq<nat>, e: Pair) {
    Consecutive(refs, e) || Closing(refs, e)
  }

  /** Some face among `faces` has `e` as a side. */
  predicate OnSomeFace(faces: seq<seq<nat>>, e: Pair) {
    exists i :: 0 <= i < |faces| && FaceSide(faces[i], e)
  }

  /** A pair is an edge of a face exactly when it is a side of that face. */
  lemma FaceEdgeSource(refs: seq<nat>, e: Pair)
    ensures e in FaceEdges(refs) <==> FaceSide(refs, e)
  {
    PolylineEdgeSource(refs, e);
  }

  lemma OnSomeFaceSplits(faces: seq<seq<nat>>, e: Pair)
    requires faces != []
    ensures OnSomeFace(faces, e)
        <==> OnSomeFace(faces[..|faces| - 1], e) || FaceSide(faces[|faces| - 1], e)
  {
    var n := |faces| - 1;
    if OnSomeFace(faces, e) {
      var i :| 0 <= i < |faces| && FaceSide(faces[i], e);
      if i < n {
        assert faces[..n][i] == faces[i];
      }
    }
    if OnSomeFace(faces[..n], e) {
      var i :| 0 <= i < n && FaceSide(faces[..n][i], e);
      assert faces[..n][i] == faces[i];
    }
  }

  lemma {:induction false} FacesSource(faces: seq<seq<nat>>, e: Pair)
    ensures e in AllFaceEdges(faces) <==> OnSomeFace(faces, e)
  {
    if faces != [] {
      var n := |faces| - 1;
      FacesSource(faces[..n], e);
      FaceEdgeSource(faces[n], e);
      OnSomeFaceSplits(faces, e);
    }
  }

  /**
   * Where the edges come from: a pair is in the list exactly when it joins
   * neighbours of some polyline or face, or closes some face.
   */
  lemma EdgeSources(polylines: seq<seq<nat>>, faces: seq<seq<nat>>, e: Pair)
    ensures e in IndexEdges(polylines, faces) <==>
      OnSomePolyline(polylines, e) || OnSomeFace(faces, e)
  {
    PolylinesSource(polylines, e);
    FacesSource(faces, e);
  }

  /** The inner loop of model.rs:197-213: `edges` with the neighbouring pairs of `refs` appended. */
  method PushNeighbours(edges: seq<Pair>, refs: seq<nat>) returns (r: seq<Pair>)
    ensures r == edges + PolylineEdges(refs)
  {
    r := edges;
    if |refs| >= 2 {
      for start := 0 to |refs| - 1
        invariant r == edges + PolylineEdges(refs[..start + 1])
      {
        assert refs[..start + 2][..start + 1] == refs[..start + 1];
        r := r + [(refs[start], refs[start + 1])];
      }
      assert refs[..|refs|] == refs;
    }
  }

  /** The body of the face loop of model.rs:205-214: the neighbouring pairs, then the closing pair. */
  method PushFace(edges: seq<Pair>, face: seq<nat>) returns (r: seq<Pair>)
    ensures r == edges + FaceEdges(face)
  {
    r := edges;
    if |face| >= 2 {
      r := PushNeighbours(r, face);
      r := r + [(face[|face| - 1], face[0])];
    }
  }

  /** The loop over the polylines in model.rs:197-204. */
  method PushPolylines(polylines: seq<seq<nat>>) returns (edges: seq<Pair>)
    ensures edges == AllPolylineEdges(polylines)
  {
    edges := [];
    for i := 0 to |polylines|
      invariant edges == AllPolylineEdges(polylines[..i])
    {
      assert polylines[..i + 1][..i] == polylines[..i];
      edges := PushNeighbours(edges, polylines[i]);
    }
    assert polylines[..|polylines|] == polylines;
  }

  /** The loop over the faces in model.rs:205-214, appending to `edges`. */
  method PushFaces(edges: seq<Pair>, faces: seq<seq<nat>>) returns (r: seq<Pair>)
    ensures r == edges + AllFaceEdges(faces)
  {
    r := edges;
    for i := 0 to |faces|
      invariant r == edges + AllFaceEdges(faces[..i])
    {
      assert faces[..i + 1][..i] == faces[..i];
      r := PushFace(r, faces[i]);
    }
    assert faces[..|faces|] == faces;
  }

  /** The loops building the edge list from the polylines, then the faces (model.rs:196-214). */
  method CollectEdges(polylines: seq<seq<nat>>, faces: seq<seq<nat>>) returns (edges: seq<Pair>)
    ensures edges == IndexEdges(polylines, faces)
  {
    edges := PushPolylines(polylines);
    edges := PushFaces(edges, faces);
  }

  /**
   * Deduplication works on ordered pairs: a pair and its reverse both
   * survive sorting and deduplication.
   */
  lemma BothDirectionsSurvive(edges: seq<Pair>, a: nat, b: nat)
    requires (a, b) in edges && (b, a) in edges
    ensures (a, b) in Normalise(edges) && (b, a) in Normalise(edges)
  {
    NormaliseSpec(edges);
  }

  /** A face of two references is drawn as two edges, one in each direction. */
  lemma TwoSidedFace(a: nat, b: nat)
    requires a != b
    ensures FaceEdges([a, b]) == [(a, b), (b, a)]
    ensures (a, b) in Normalise(FaceEdges([a, b])) && (b, a) in Normalise(FaceEdges([a, b]))
  {
    BothDirectionsSurvive(FaceEdges([a, b]), a, b);
  }

  // ---------------------------------------------------------------------
  // Resolution and the whole load
  // ---------------------------------------------------------------------

  predicate InRange(e: Pair, count: nat) {
    e.0 < count && e.1 < count
  }

  predicate AllInRange(pairs: seq<Pair>, count: nat) {
    forall e :: e in pairs ==> InRange(e, count)
  }

  /**
   * Index pairs turned into pairs of points (model.rs:221-224). The source
   * indexes the vertex list unchecked and panics on a dangling reference;
   * here that is the error `IndexOutOfRange`.
   */
  function Resolve(vertices: seq<Point>, pairs: seq<Pair>): (r: Result<seq<(Point, Point)>>)
    ensures r.Ok? <==> forall k :: 0 <= k < |pairs| ==> InRange(pairs[k], |vertices|)
    ensures r.Err? ==> r.error == IndexOutOfRange
    ensures r.Ok? ==> |r.value| == |pairs|
    ensures r.Ok? ==> forall k :: 0 <= k < |pairs| ==> r.value[k] == (vertices[pairs[k].0], vertices[pairs[k].1])
  {
    if pairs == [] then Ok([])
    else
      var n := |pairs| - 1;
      match Resolve(vertices, pairs[..n])
      case Err(e) => Err(e)
      case Ok(points) =>
        if InRange(pairs[n], |vertices|) then Ok(points + [(vertices[pairs[n].0], vertices[pairs[n].1])])
        else Err(IndexOutOfRange)
  }

  /**
   * The source's own resolution: it demands that every index is in range,
   * since an index past the vertex list panics.
   */
  function ResolveUnchecked(vertices: seq<Point>, pairs: seq<Pair>): (r: seq<(Point, Point)>)
    requires AllInRange(pairs, |vertices|)
    ensures Resolve(vertices, pairs) == Ok(r)
  {
    if pairs == [] then []
    else
      var n := |pairs| - 1;
      assert pairs[n] in pairs;
      assert AllInRange(pairs[..n], |vertices|) by {
        forall e | e in pairs[..n] ensures InRange(e, |vertices|) { assert e in pairs; }
      }
      ResolveUnchecked(vertices, pairs[..n]) + [(vertices[pairs[n].0], vertices[pairs[n].1])]
  }

  /** `new_obj` on the contents `code`, placing the model at `position`. */
  function LoadObj(code: string, position: Point, parseReal: RealParser): Result<Model> {
    match Scan(Lines(code), parseReal)
    case Err(e) => Err(e)
    case Ok(t) =>
      match Resolve(t.vertices, Normalise(IndexEdges(t.polylines, t.faces)))
      case Err(e) => Err(e)
      case Ok(edges) => Ok(Model(t.vertices, edges, position))
  }

  /**
   * What a successful load `m` holds for the lists `t`: the points are the
   * vertex list, every index pair appears as the pair of its points, and
   * nothing else appears.
   */
  predicate Loaded(vertices: seq<Point>, pairs: seq<Pair>, position: Point, m: Model)
    requires AllInRange(pairs, |vertices|)
  {
    && m.points == vertices
    && m.position == position
    && |m.edges| <= |pairs|
    && (forall e :: e in pairs ==> (vertices[e.0], vertices[e.1]) in m.edges)
    && (forall k :: 0 <= k < |m.edges| ==>
          exists e :: e in pairs && m.edges[k] == (vertices[e.0], vertices[e.1]))
  }

  /**
   * The load succeeds exactly when every line parses and every reference
   * names a declared vertex. It then yields the vertex list, and one edge
   * per pair of a strictly increasing index list that holds exactly the
   * referenced pairs, each edge being the points of its pair. A failure is
   * a parse error when some line is bad.
   */
  lemma LoadObjSpec(code: string, position: Point, parseReal: RealParser)
    ensures Scan(Lines(code), parseReal).Err? ==> LoadObj(code, position, parseReal) == Err(ParseError)
    ensures Scan(Lines(code), parseReal).Ok? ==>
      var t := Scan(Lines(code), parseReal).value;
      && (LoadObj(code, position, parseReal).Ok? <==> AllInRange(IndexEdges(t.polylines, t.faces), |t.vertices|))
      && (LoadObj(code, position, parseReal).Ok? ==>
            Loaded(t.vertices, IndexEdges(t.polylines, t.faces), position, LoadObj(code, position, parseReal).value))
    ensures Scan(Lines(code), parseReal).Ok? ==>
      var t := Scan(Lines(code), parseReal).value;
      var sorted := Normalise(IndexEdges(t.polylines, t.faces));
      && StrictlyIncreasing(sorted)
      && (forall e :: e in sorted <==> e in IndexEdges(t.polylines, t.faces))
      && (LoadObj(code, position, parseReal).Ok? ==>
            && AllInRange(sorted, |t.vertices|)
            && LoadObj(code, position, parseReal).value.edges == ResolveUnchecked(t.vertices, sorted))
  {
    if Scan(Lines(code), parseReal).Ok? {
      var t := Scan(Lines(code), parseReal).value;
      var pairs := IndexEdges(t.polylines, t.faces);
      NormaliseSpec(pairs);
      ResolveNormalised(t.vertices, pairs, position);
    }
  }

  /**
   * Sorting, deduplicating and resolving index pairs succeeds exactly when
   * every pair names declared vertices, and then gives their point pairs.
   */
  lemma ResolveNormalised(vertices: seq<Point>, pairs: seq<Pair>, position: Point)
    ensures Resolve(vertices, Normalise(pairs)).Ok? <==> AllInRange(pairs, |vertices|)
    ensures Resolve(vertices, Normalise(pairs)).Ok? ==>
      Loaded(vertices, pairs, position, Model(vertices, Resolve(vertices, Normalise(pairs)).value, position))
  {
    NormaliseSpec(pairs);
    assert |Sort(pairs)| == |multiset(Sort(pairs))| == |pairs|;
    ResolveSamePairs(vertices, Normalise(pairs), pairs, position);
  }

  /** Resolving a list that holds the same pairs as `pairs`, and no more of them. */
  lemma ResolveSamePairs(vertices: seq<Point>, listed: seq<Pair>, pairs: seq<Pair>, position: Point)
    requires forall x :: x in listed <==> x in pairs
    requires |listed| <= |pairs|
    ensures Resolve(vertices, listed).Ok? <==> AllInRange(pairs, |vertices|)
    ensures Resolve(vertices, listed).Ok? ==>
      Loaded(vertices, pairs, position, Model(vertices, Resolve(vertices, listed).value, position))
  {
    var r := Resolve(vertices, listed);
    if r.Ok? {
      var edges := r.value;
      forall e | e in pairs ensures InRange(e, |vertices|) && (vertices[e.0], vertices[e.1]) in edges {
        var k :| 0 <= k < |listed| && listed[k] == e;
        assert edges[k] == (vertices[e.0], vertices[e.1]);
      }
      forall k | 0 <= k < |edges|
        ensures exists e :: e in pairs && edges[k] == (vertices[e.0], vertices[e.1])
      {
        assert listed[k] in listed;
      }
    } else {
      var k :| 0 <= k < |listed| && !InRange(listed[k], |vertices|);
      assert listed[k] in pairs;
    }
  }

  /**
   * A loaded model with an edge has a point, since each edge end names a
   * declared vertex: `world_bounds` never meets an edge-only model that came
   * from a file.
   */
  lemma LoadedModelsHaveBounds(code: string, position: Point, parseReal: RealParser)
    ensures LoadObj(code, position, parseReal).Ok? ==>
      var m := LoadObj(code, position, parseReal).value;
      |m.points| > 0 || |m.edges| == 0
  {
    LoadObjSpec(code, position, parseReal);
    var r := LoadObj(code, position, parseReal);
    if r.Ok? && |r.value.edges| > 0 {
      var t := Scan(Lines(code), parseReal).value;
      var pairs := IndexEdges(t.polylines, t.faces);
      var e :| e in pairs && r.value.edges[0] == (t.vertices[e.0], t.vertices[e.1]);
      assert InRange(e, |t.vertices|);
    }
  }

  /**
   * The body of the loop over lines in model.rs:114-193: one line read
   * into the three lists, or the parse error that ends the load.
   */
  method ReadLine(t: Tables, line: string, parseReal: RealParser) returns (r: Result<Tables>)
    ensures r == (match ParseLine(line, parseReal) case Err(e) => Err(e) case Ok(s) => Ok(Record(t, s)))
  {
    var tokens := Tokens(line);
    if tokens != [] && tokens[0] == "v" {
      if !(4 <= |tokens| <= 5) {
        return Err(ParseError);
      }
      var x := parseReal(tokens[1]);
      var y := parseReal(tokens[2]);
      var z := parseReal(tokens[3]);
      if x.None? || y.None? || z.None? {
        return Err(ParseError);
      }
      return Ok(t.(vertices := t.vertices + [Point(x.value, y.value, z.value)]));
    } else if tokens != [] && tokens[0] == "l" {
      var refs := ParseReferences(tokens[1..], 2);
      if refs.Err? {
        return Err(ParseError);
      }
      return Ok(t.(polylines := t.polylines + [refs.value]));
    } else if tokens != [] && (tokens[0] == "f" || tokens[0] == "fo") {
      var refs := ParseReferences(tokens[1..], 3);
      if refs.Err? {
        return Err(ParseError);
      }
      return Ok(t.(faces := t.faces + [refs.value]));
    }
    return Ok(t);
  }

  /**
   * `Model::new_obj` over the file contents: the loop over lines fills the
   * three lists, the edges are collected, sorted, deduplicated and resolved.
   */
  method NewObj(code: string, position: Point, parseReal: RealParser) returns (r: Result<Model>)
    ensures r == LoadObj(code, position, parseReal)
  {
    var text := JoinContinuations(code);
    var lines := Split(text, '\n');
    var tables := Tables([], [], []);
    for i := 0 to |lines|
      invariant Scan(lines[..i], parseReal) == Ok(tables)
    {
      assert lines[..i + 1] == lines[..i] + [lines[i]];
      ScanStep(lines[..i], lines[i], parseReal);
      var next := ReadLine(tables, lines[i], parseReal);
      if next.Err? {
        return Err(next.error);
      }
      tables := next.value;
    }
    assert lines[..|lines|] == lines;
    var edges := CollectEdges(tables.polylines, tables.faces);
    edges := Sort(edges);
    edges := Dedup(edges);
    var resolved := Resolve(tables.vertices, edges);
    if resolved.Err? {
      return Err(resolved.error);
    }
    return Ok(Model(tables.vertices, resolved.value, position));
  }
}
