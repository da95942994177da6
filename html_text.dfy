/**
 * The whitespace normalisation at the end of `extract_content_from_html`:
 * the text is cut into lines (`str.splitlines`), each line is stripped and
 * cut at every double space, each phrase is stripped, empty phrases are
 * dropped and the rest are joined with '\n'. Parsing the HTML and getting
 * its text is not part of this model; the normalisation starts from that text.
 */
module HtmlText {
  import opened Text

  /** The characters at which `str.splitlines` ends a line ("\r\n" counts as one break). */
  predicate IsLineBoundary(c: char) {
    c == '\n' || c == '\r' || c == '\U{000B}' || c == '\U{000C}' || c == '\U{001C}' || c == '\U{001D}'
    || c == '\U{001E}' || c == '\U{0085}' || c == '\U{2028}' || c == '\U{2029}'
  }

  /** The position of the first line boundary in `s`, or `|s|` when there is none. */
  function LineEnd(s: string): (k: nat)
    ensures k <= |s| && (k < |s| ==> IsLineBoundary(s[k]))
    ensures forall i :: 0 <= i < k ==> !IsLineBoundary(s[i])
    decreases |s|
  {
    if s == [] || IsLineBoundary(s[0]) then 0 else 1 + LineEnd(s[1..])
  }

  /** The length of the line break at the front of `s`: 2 for "\r\n", 1 for another boundary, 0 otherwise. */
  function BreakLength(s: string): (n: nat)
    ensures n <= |s|
  {
    if |s| >= 2 && s[0] == '\r' && s[1] == '\n' then 2
    else if s != [] && IsLineBoundary(s[0]) then 1
    else 0
  }

  /**
   * `str.splitlines()`: no line holds a boundary, and a break at the very end
   * opens no empty last line. Empty text has no lines; otherwise the first
   * line is the text up to its first boundary, and there are never more
   * lines than characters.
   */
  function SplitLines(s: string): (lines: seq<string>)
    ensures forall l :: l in lines ==> BreakFree(l)
    ensures lines == [] <==> s == []
    ensures s != [] ==> lines[0] == s[..LineEnd(s)]
    ensures |lines| <= |s|
    decreases |s|
  {
    if s == [] then []
    else
      var k := LineEnd(s);
      var rest := s[k..];
      [s[..k]] + SplitLines(rest[BreakLength(rest)..])
  }

  /** A '\n' ends the first line and is dropped. */
  lemma SplitLinesAtNewline(s: string, k: nat)
    requires k < |s| && LineEnd(s) == k && s[k] == '\n'
    ensures SplitLines(s) == [s[..k]] + SplitLines(s[k + 1..])
  {
    var rest := s[k..];
    assert rest[0] == '\n';
    assert BreakLength(rest) == 1;
    assert rest[1..] == s[k + 1..];
  }

  /** Text without a boundary is one line. */
  lemma SplitLinesOneLine(s: string)
    requires s != [] && LineEnd(s) == |s|
    ensures SplitLines(s) == [s]
  {
    assert s[|s|..] == [];
    assert s[..|s|] == s;
  }

  /** `line.split("  ")` on the stripped line, each phrase stripped. */
  function Phrases(line: string): seq<string> {
    StripEach(Split(PyStrip(line), "  "))
  }

  /** Each piece stripped, in order. */
  function StripEach(pieces: seq<string>): (r: seq<string>)
    ensures |r| == |pieces|
    ensures forall i :: 0 <= i < |pieces| ==> r[i] == PyStrip(pieces[i])
  {
    seq(|pieces|, i requires 0 <= i < |pieces| => PyStrip(pieces[i]))
  }

  /** The `if chunk` filter. */
  function NonEmpty(xs: seq<string>): (r: seq<string>)
    ensures forall x :: x in r ==> x in xs && x != []
    ensures forall x :: x in xs && x != [] ==> x in r
    decreases |xs|
  {
    if xs == [] then []
    else if xs[0] == [] then NonEmpty(xs[1..])
    else [xs[0]] + NonEmpty(xs[1..])
  }

  /** The chunks of the lines, in order. */
  function Chunks(lines: seq<string>): seq<string>
    decreases |lines|
  {
    if lines == [] then [] else NonEmpty(Phrases(lines[0])) + Chunks(lines[1..])
  }

  /** The normalised text. */
  function Normalize(text: string): string {
    Join(Chunks(SplitLines(text)), "\n")
  }

  /** `s` holds no line boundary. */
  predicate BreakFree(s: string) {
    forall i :: 0 <= i < |s| ==> !IsLineBoundary(s[i])
  }

  /** A chunk is non-empty, stripped, free of double spaces and of line boundaries. */
  predicate IsChunk(c: string) {
    && c != []
    && !IsPyWhitespace(c[0]) && !IsPyWhitespace(c[|c| - 1])
    && !Contains(c, "  ")
    && BreakFree(c)
  }

  /** Every non-empty phrase of a line is a chunk. */
  lemma PhraseIsChunk(line: string, piece: string)
    requires BreakFree(line)
    requires piece in Split(PyStrip(line), "  ")
    ensures PyStrip(piece) != [] ==> IsChunk(PyStrip(piece))
  {
    var p := PyStrip(piece);
    PieceAvoidsDoubleSpace(PyStrip(line), piece);
    PieceBreakFree(line, piece);
    InfixAvoids(p, piece, "  ");
    InfixBreakFree(p, piece);
  }

  /** Every phrase is a stripped piece of the split. */
  lemma PhraseOrigin(line: string, p: string)
    requires p in Phrases(line)
    ensures exists piece :: piece in Split(PyStrip(line), "  ") && p == PyStrip(piece)
  {
    StrippedOrigin(Split(PyStrip(line), "  "), p);
  }

  lemma StrippedOrigin(pieces: seq<string>, p: string)
    requires p in StripEach(pieces)
    ensures exists piece :: piece in pieces && p == PyStrip(piece)
  {
    var r := StripEach(pieces);
    var i :| 0 <= i < |r| && r[i] == p;
    assert pieces[i] in pieces;
  }

  lemma PieceAvoidsDoubleSpace(s: string, piece: string)
    requires piece in Split(s, "  ")
    ensures !Contains(piece, "  ")
  {
    SplitPiecesAvoidSeparator(s, "  ");
  }

  lemma PieceBreakFree(line: string, piece: string)
    requires BreakFree(line)
    requires piece in Split(PyStrip(line), "  ")
    ensures BreakFree(piece)
  {
    var stripped := PyStrip(line);
    SplitPiecesChars(stripped, "  ");
    InfixChars(stripped, line);
    forall j | 0 <= j < |piece| ensures !IsLineBoundary(piece[j]) {
      assert piece[j] in piece;
      assert piece[j] in line;
      var k :| 0 <= k < |line| && line[k] == piece[j];
    }
  }

  lemma InfixBreakFree(r: string, s: string)
    requires IsInfix(r, s) && BreakFree(s)
    ensures BreakFree(r)
  {
    var i :| 0 <= i <= |s| - |r| && InfixAt(r, s, i);
    forall j | 0 <= j < |r| ensures !IsLineBoundary(r[j]) {
      assert r[j] == s[i + j];
    }
  }

  /** Every chunk of boundary-free lines is a chunk in the sense of `IsChunk`. */
  lemma {:induction false} ChunksAreChunks(lines: seq<string>)
    requires forall l :: l in lines ==> BreakFree(l)
    ensures forall c :: c in Chunks(lines) ==> IsChunk(c)
    decreases |lines|
  {
    if lines != [] {
      assert lines[0] in lines;
      forall l | l in lines[1..] ensures l in lines {
        var k :| 0 <= k < |lines[1..]| && lines[1..][k] == l;
        assert lines[k + 1] == l;
      }
      ChunksAreChunks(lines[1..]);
      forall c | c in NonEmpty(Phrases(lines[0])) ensures IsChunk(c) {
        PhraseOrigin(lines[0], c);
        var piece :| piece in Split(PyStrip(lines[0]), "  ") && c == PyStrip(piece);
        PhraseIsChunk(lines[0], piece);
      }
    }
  }

  /**
   * The normalised text is its chunks joined by '\n', and splitting it at
   * '\n' gives those chunks back: every line of the output is non-empty,
   * stripped and free of double spaces. Text without chunks becomes "".
   */
  lemma NormalizeLines(text: string)
    ensures var chunks := Chunks(SplitLines(text));
            (forall c :: c in chunks ==> IsChunk(c))
            && (chunks == [] ==> Normalize(text) == [])
            && (chunks != [] ==> Split(Normalize(text), "\n") == chunks)
  {
    var chunks := Chunks(SplitLines(text));
    ChunksAreChunks(SplitLines(text));
    if chunks != [] {
      forall c | c in chunks ensures '\n' !in c {
        assert IsChunk(c);
      }
      SplitJoinChar(chunks, '\n');
    }
  }

  /** Normalising twice is normalising once. */
  lemma NormalizeIdempotent(text: string)
    ensures Normalize(Normalize(text)) == Normalize(text)
  {
    var chunks := Chunks(SplitLines(text));
    NormalizeLines(text);
    if chunks != [] {
      var out := Normalize(text);
      JoinSplitLinesChunks(chunks);
      ChunksOfChunks(chunks);
    }
  }

  /** Joined chunks split back into the chunks at `str.splitlines`. */
  lemma {:induction false} JoinSplitLinesChunks(chunks: seq<string>)
    requires forall c :: c in chunks ==> c != [] && BreakFree(c)
    ensures SplitLines(Join(chunks, "\n")) == chunks
    decreases |chunks|
  {
    if chunks != [] {
      assert chunks[0] in chunks;
      forall d | d in chunks[1..] ensures d != [] && BreakFree(d) {
        assert d in chunks;
      }
      JoinSplitLinesChunks(chunks[1..]);
      JoinSplitLinesCons(chunks);
    }
  }

  /** The first chunk comes back as the first line, in front of the lines of the rest. */
  lemma JoinSplitLinesCons(chunks: seq<string>)
    requires chunks != [] && chunks[0] != [] && BreakFree(chunks[0])
    requires SplitLines(Join(chunks[1..], "\n")) == chunks[1..]
    ensures SplitLines(Join(chunks, "\n")) == chunks
  {
    var c := chunks[0];
    if |chunks| == 1 {
      LineEndOfChunk(c, []);
      assert c + [] == c;
      SplitLinesOneLine(c);
    } else {
      var t := Join(chunks[1..], "\n");
      assert Join(chunks, "\n") == c + "\n" + t;
      SplitLinesAfterLine(c, t);
      assert [c] + chunks[1..] == chunks;
    }
  }

  /** A boundary-free line followed by '\n' is the first line. */
  lemma SplitLinesAfterLine(c: string, t: string)
    requires BreakFree(c)
    ensures SplitLines(c + "\n" + t) == [c] + SplitLines(t)
  {
    var s := c + "\n" + t;
    assert s == c + ("\n" + t);
    LineEndOfChunk(c, "\n" + t);
    assert s[|c|] == '\n';
    SplitLinesAtNewline(s, |c|);
    assert s[..|c|] == c;
    assert s[|c| + 1..] == t;
  }

  lemma LineEndOfChunk(c: string, t: string)
    requires BreakFree(c)
    requires t != [] ==> t[0] == '\n'
    ensures LineEnd(c + t) == |c|
  {
    var s := c + t;
    assert forall i :: 0 <= i < |c| ==> s[i] == c[i];
    assert |c| < |s| ==> IsLineBoundary(s[|c|]);
  }

  /** A line that is itself a chunk has itself as its only chunk. */
  lemma ChunkPhrases(c: string)
    requires IsChunk(c)
    ensures NonEmpty(Phrases(c)) == [c]
  {
    assert PyStrip(c) == c;
    assert !Contains(c, "  ");
    SplitNoSeparator(c, "  ");
    assert Split(c, "  ") == [c];
    var ps := Phrases(c);
    assert ps == [c];
    assert ps[1..] == [];
  }

  lemma {:induction false} SplitNoSeparator(s: string, sep: string)
    requires sep != [] && !Contains(s, sep)
    ensures Split(s, sep) == [s]
    decreases |s|
  {
    if |s| >= |sep| {
      assert !OccursAt(s, sep, 0);
      assert s[..|sep|] != sep;
      ContainsCons(s, sep);
      SplitNoSeparator(s[1..], sep);
      assert [s[0]] + s[1..] == s;
    }
  }

  /** Lines that are chunks are their own chunks. */
  lemma {:induction false} ChunksOfChunks(chunks: seq<string>)
    requires forall c :: c in chunks ==> IsChunk(c)
    ensures Chunks(chunks) == chunks
    decreases |chunks|
  {
    if chunks != [] {
      assert chunks[0] in chunks;
      forall d | d in chunks[1..] ensures IsChunk(d) {
        assert d in chunks;
      }
      ChunkPhrases(chunks[0]);
      ChunksOfChunks(chunks[1..]);
      ChunksCons(chunks);
    }
  }

  lemma ChunksCons(chunks: seq<string>)
    requires chunks != [] && NonEmpty(Phrases(chunks[0])) == [chunks[0]]
    requires Chunks(chunks[1..]) == chunks[1..]
    ensures Chunks(chunks) == chunks
  {
    assert Chunks(chunks) == [chunks[0]] + chunks[1..];
    HeadTail(chunks);
  }
}
