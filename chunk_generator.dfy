/**
 * The raw diff chunk generator (reviewboard/diffviewer/chunk_generator.py,
 * `RawDiffChunkGenerator`): its chunk-index and header-tracking state and
 * the operations that update it while the chunks of one file are generated.
 */
module ChunkGenerator {
  import opened Wrappers
  import opened Text
  import opened ChunkLines
  import opened ChunkPlan

  /** A function or class header shown for a collapsed region. */
  datatype Header = Header(line: int, text: string)

  /**
   * The differ's interesting header lines for the original (`left`) and
   * modified (`right`) file, as `(0-based line, text)` pairs.
   */
  datatype InterestingLines = InterestingLines(left: seq<(int, string)>, right: seq<(int, string)>)

  /** A chunk's metadata: headers found in it, the headers to show when collapsed, the opcode's metadata. */
  datatype ChunkMeta = ChunkMeta(
    leftHeaders: seq<Header>,
    rightHeaders: seq<Header>,
    headers: Option<(Option<Header>, Option<Header>)>,
    opcodeMeta: Option<OpcodeMeta>)

  /** A `DiffChunk` dictionary. */
  datatype DiffChunk = DiffChunk(
    index: nat, lines: seq<DiffLine>, numLines: nat, change: Tag, collapsable: bool, meta: ChunkMeta)

  // ---------------------------------------------------------------------
  // Header tracking
  // ---------------------------------------------------------------------

  /** Python's `lines[i]` position: a negative index counts from the end. */
  function PyIndex(len: nat, i: int): (r: Option<nat>)
    ensures r.Some? ==> r.value < len
  {
    if 0 <= i < len then Some(i) else if -(len as int) <= i < 0 then Some(len + i) else None
  }

  /** The result of scanning the header list: the headers found and the saved scan position. */
  datatype Scan = Scan(found: seq<Header>, lastIndex: nat)

  /**
   * The loop of `_get_interesting_headers` from position `i`: headers up to
   * `i2` are visited, those from `i1` on are yielded, and the position of
   * the last one yielded is remembered.
   */
  function ScanHeaders(pf: seq<(int, string)>, i: nat, lastIndex: nat, i1: Option<int>, i2: Option<int>): Scan
    decreases |pf| - i
  {
    if i >= |pf| then Scan([], lastIndex)
    else
      var lineNum := pf[i].0 + 1;
      if i2.Some? && lineNum > i2.value then Scan([], lastIndex)
      else if i1.Some? && lineNum >= i1.value then
        var rest := ScanHeaders(pf, i + 1, i, i1, i2);
        Scan([Header(lineNum, pf[i].1)] + rest.found, rest.lastIndex)
      else ScanHeaders(pf, i + 1, lastIndex, i1, i2)
  }

  /**
   * Every header the scan yields lies between `i1` and `i2`; the saved position is that of
   * the last header yielded, or the old one when none is.
   */
  lemma {:induction false} ScanHeadersBounds(pf: seq<(int, string)>, i: nat, lastIndex: nat, i1: Option<int>, i2: Option<int>)
    ensures var r := ScanHeaders(pf, i, lastIndex, i1, i2);
      && (forall k :: 0 <= k < |r.found| ==>
            i1.Some? && i1.value <= r.found[k].line && (i2.Some? ==> r.found[k].line <= i2.value))
      && (|r.found| == 0 ==> r.lastIndex == lastIndex)
      && (|r.found| > 0 ==> i <= r.lastIndex < |pf| && pf[r.lastIndex].0 + 1 == r.found[|r.found| - 1].line)
    decreases |pf| - i
  {
    if i < |pf| {
      var lineNum := pf[i].0 + 1;
      if !(i2.Some? && lineNum > i2.value) {
        if i1.Some? && lineNum >= i1.value {
          ScanHeadersBounds(pf, i + 1, i, i1, i2);
        } else {
          ScanHeadersBounds(pf, i + 1, lastIndex, i1, i2);
        }
      }
    }
  }

  /** The headers found before a scan position, followed by the rest of the scan. */
  function Joined(before: seq<Header>, rest: Scan): (r: Scan)
    ensures |r.found| == |before| + |rest.found| && r.lastIndex == rest.lastIndex
  {
    Scan(before + rest.found, rest.lastIndex)
  }

  lemma JoinedStep(before: seq<Header>, h: Header, rest: Scan)
    ensures Joined(before, Scan([h] + rest.found, rest.lastIndex)) == Joined(before + [h], rest)
  {
    assert before + ([h] + rest.found) == (before + [h]) + rest.found;
  }

  lemma JoinedStart(rest: Scan)
    ensures Joined([], rest) == rest
  {
    assert [] + rest.found == rest.found;
  }

  lemma JoinedEnd(before: seq<Header>, lastIndex: nat)
    ensures Joined(before, Scan([], lastIndex)) == Scan(before, lastIndex)
  {
    assert before + [] == before;
  }

  /** One step of the scan at position `i`: stop, yield the header there, or skip it. */
  lemma ScanStep(pf: seq<(int, string)>, i: nat, lastIndex: nat, i1: Option<int>, i2: Option<int>)
    requires i < |pf|
    ensures var lineNum := pf[i].0 + 1;
      ScanHeaders(pf, i, lastIndex, i1, i2) ==
        if i2.Some? && lineNum > i2.value then Scan([], lastIndex)
        else if i1.Some? && lineNum >= i1.value then
          Scan([Header(lineNum, pf[i].1)] + ScanHeaders(pf, i + 1, i, i1, i2).found,
               ScanHeaders(pf, i + 1, i, i1, i2).lastIndex)
        else ScanHeaders(pf, i + 1, lastIndex, i1, i2)
  {
  }

  /**
   * The loop of `_get_interesting_headers`: walks the header lines from the
   * saved position `from` until one lies past `i2`, collecting those from
   * `i1` on and the position of the last one collected.
   */
  method ScanHeaderLines(pf: seq<(int, string)>, from: nat, i1: Option<int>, i2: Option<int>)
    returns (headers: seq<Header>, lastIndex: nat)
    ensures Scan(headers, lastIndex) == ScanHeaders(pf, from, from, i1, i2)
  {
    headers := [];
    lastIndex := from;
    var i: nat := from;
    JoinedStart(ScanHeaders(pf, i, lastIndex, i1, i2));
    // The loop stops at the end of the list or at the first header past `i2`.
    while i < |pf| && !(i2.Some? && pf[i].0 + 1 > i2.value)
      invariant ScanHeaders(pf, from, from, i1, i2) == Joined(headers, ScanHeaders(pf, i, lastIndex, i1, i2))
      decreases |pf| - i
    {
      var lineNum := pf[i].0 + 1;
      ghost var before, saved := headers, lastIndex;
      if i1.Some? && lineNum >= i1.value {
        lastIndex := i;
        headers := headers + [Header(lineNum, pf[i].1)];
      }
      ScanAdvance(pf, from, i, i1, i2, before, saved, headers, lastIndex);
      i := i + 1;
    }
    ScanFinish(pf, i, lastIndex, i1, i2, headers);
  }

  /** Visiting a header within `i2` either collects it or skips it, and the scan goes on from the next one. */
  lemma ScanAdvance(pf: seq<(int, string)>, from: nat, i: nat, i1: Option<int>, i2: Option<int>,
                    before: seq<Header>, saved: nat, headers: seq<Header>, lastIndex: nat)
    requires i < |pf| && !(i2.Some? && pf[i].0 + 1 > i2.value)
    requires ScanHeaders(pf, from, from, i1, i2) == Joined(before, ScanHeaders(pf, i, saved, i1, i2))
    requires if i1.Some? && pf[i].0 + 1 >= i1.value
             then headers == before + [Header(pf[i].0 + 1, pf[i].1)] && lastIndex == i
             else headers == before && lastIndex == saved
    ensures ScanHeaders(pf, from, from, i1, i2) == Joined(headers, ScanHeaders(pf, i + 1, lastIndex, i1, i2))
  {
    var lineNum := pf[i].0 + 1;
    ScanStep(pf, i, saved, i1, i2);
    if i1.Some? && lineNum >= i1.value {
      JoinedStep(before, Header(lineNum, pf[i].1), ScanHeaders(pf, i + 1, i, i1, i2));
    }
  }

  /** At the end of the list, or at a header past `i2`, the scan has nothing more to add. */
  lemma ScanFinish(pf: seq<(int, string)>, i: nat, lastIndex: nat, i1: Option<int>, i2: Option<int>, headers: seq<Header>)
    requires i >= |pf| || (i2.Some? && pf[i].0 + 1 > i2.value)
    ensures Joined(headers, ScanHeaders(pf, i, lastIndex, i1, i2)) == Scan(headers, lastIndex)
  {
    if i < |pf| {
      ScanStep(pf, i, lastIndex, i1, i2);
    }
    JoinedEnd(headers, lastIndex);
  }

  /** Header lines in ascending order, as the differ reports them. */
  predicate SortedLines(pf: seq<(int, string)>) {
    forall a, b :: 0 <= a < b < |pf| ==> pf[a].0 <= pf[b].0
  }

  /** Every header from position `i` on whose (1-based) line lies in `lo..hi`. */
  function HeadersWithin(pf: seq<(int, string)>, i: nat, lo: int, hi: int): seq<Header>
    decreases |pf| - i
  {
    if i >= |pf| then []
    else
      (if lo <= pf[i].0 + 1 <= hi then [Header(pf[i].0 + 1, pf[i].1)] else [])
      + HeadersWithin(pf, i + 1, lo, hi)
  }

  lemma {:induction false} NoHeadersBeyond(pf: seq<(int, string)>, i: nat, lo: int, hi: int)
    requires SortedLines(pf)
    requires i < |pf| ==> pf[i].0 + 1 > hi
    ensures HeadersWithin(pf, i, lo, hi) == []
    decreases |pf| - i
  {
    if i < |pf| {
      if i + 1 < |pf| {
        assert pf[i].0 <= pf[i + 1].0;
      }
      NoHeadersBeyond(pf, i + 1, lo, hi);
    }
  }

  /** On sorted header lines, the scan finds exactly the headers within the bounds. */
  lemma {:induction false} ScanFindsHeadersWithin(pf: seq<(int, string)>, i: nat, lastIndex: nat, lo: int, hi: int)
    requires SortedLines(pf)
    ensures ScanHeaders(pf, i, lastIndex, Some(lo), Some(hi)).found == HeadersWithin(pf, i, lo, hi)
    decreases |pf| - i
  {
    if i < |pf| {
      var lineNum := pf[i].0 + 1;
      if lineNum > hi {
        NoHeadersBeyond(pf, i, lo, hi);
      } else if lineNum >= lo {
        ScanFindsHeadersWithin(pf, i + 1, i, lo, hi);
      } else {
        ScanFindsHeadersWithin(pf, i + 1, lastIndex, lo, hi);
      }
    }
  }

  /** The line number a row has in the original (`false`) or modified (`true`) file. */
  function LineNumOn(line: DiffLine, isModified: bool): Option<int> {
    if isModified then line.newLineNum else line.oldLineNum
  }

  /**
   * `_get_interesting_headers(lines, start, end, is_modified_file)`: the
   * headers between the rows `lines[start]` and `lines[end - 1]`, scanning
   * from the saved position; nothing, and no new position, when there are no
   * header lines or either row does not exist.
   */
  function InterestingHeaders(lines: seq<DiffLine>, start: int, end: int, isModified: bool,
                              pf: seq<(int, string)>, saved: nat): (r: Scan)
    ensures |r.found| == 0 ==> r.lastIndex == saved
    ensures |r.found| > 0 ==> saved <= r.lastIndex < |pf|
  {
    var first := PyIndex(|lines|, start);
    var last := PyIndex(|lines|, end - 1);
    if |pf| == 0 || first.None? || last.None? then Scan([], saved)
    else
      var i1 := LineNumOn(lines[first.value], isModified);
      var i2 := LineNumOn(lines[last.value], isModified);
      ScanHeadersBounds(pf, saved, saved, i1, i2);
      ScanHeaders(pf, saved, saved, i1, i2)
  }

  /**
   * `_new_chunk` passes `end - 1` for the chunk `start..end`, so the scan
   * stops at the chunk's second-to-last row: a header on the chunk's last
   * row is not reported for it.
   */
  lemma LastRowHeaderNotFound(lines: seq<DiffLine>, start: nat, end: nat, isModified: bool, text: string)
    requires start + 2 <= end <= |lines|
    requires LineNumOn(lines[end - 2], isModified).Some? && LineNumOn(lines[end - 1], isModified).Some?
    requires LineNumOn(lines[end - 2], isModified).value < LineNumOn(lines[end - 1], isModified).value
    ensures InterestingHeaders(lines, start, end - 1, isModified,
                               [(LineNumOn(lines[end - 1], isModified).value - 1, text)], 0).found == []
  {
  }

  /** `compute_chunk_last_header` for one side: the last header found, stripped, replaces the old one. */
  function LastHeaderAfter(previous: Option<Header>, found: seq<Header>): (r: Option<Header>)
    ensures |found| == 0 ==> r == previous
    ensures |found| > 0 ==> r.Some? && r.value.line == found[|found| - 1].line
  {
    if |found| == 0 then previous
    else Some(Header(found[|found| - 1].line, Strip(found[|found| - 1].text)))
  }

  // ---------------------------------------------------------------------
  // Chunk lists
  // ---------------------------------------------------------------------

  /** The rows of the chunks, in order. */
  function Flatten(chunks: seq<DiffChunk>): seq<DiffLine> {
    if |chunks| == 0 then [] else Flatten(chunks[..|chunks| - 1]) + chunks[|chunks| - 1].lines
  }

  lemma {:induction false} FlattenAppend(a: seq<DiffChunk>, b: seq<DiffChunk>)
    ensures Flatten(a + b) == Flatten(a) + Flatten(b)
    decreases |b|
  {
    if |b| == 0 {
      assert a + b == a;
    } else {
      assert (a + b)[..|a + b| - 1] == a + b[..|b| - 1];
      FlattenAppend(a, b[..|b| - 1]);
    }
  }

  function ChunkShapes(chunks: seq<DiffChunk>): (r: seq<Shape>)
    ensures |r| == |chunks|
  {
    seq(|chunks|, k requires 0 <= k < |chunks| => Shape(chunks[k].numLines, chunks[k].change, chunks[k].collapsable))
  }

  /** The chunks carry consecutive indices from `base`. */
  predicate Indexed(chunks: seq<DiffChunk>, base: nat) {
    |chunks| == 0 ||
    (Indexed(chunks[..|chunks| - 1], base) && chunks[|chunks| - 1].index == base + |chunks| - 1)
  }

  /** Chunk `k` of an indexed list carries index `base + k`. */
  lemma {:induction false} IndexedAt(chunks: seq<DiffChunk>, base: nat, k: nat)
    requires Indexed(chunks, base) && k < |chunks|
    ensures chunks[k].index == base + k
    decreases |chunks|
  {
    if k < |chunks| - 1 {
      IndexedAt(chunks[..|chunks| - 1], base, k);
    }
  }

  // ---------------------------------------------------------------------
  // Sources for plain (unhighlighted) text
  // ---------------------------------------------------------------------

  /**
   * The lines and markup `generate_chunks` uses for two texts without
   * syntax highlighting: the normalised lines, and the normalised text split
   * again as markup (HTML escaping is not modelled).
   */
  function PlainSources(oldText: string, newText: string): (src: LineSources)
    ensures |src.oldMarkup| == |src.oldLines| + 1 && |src.newMarkup| == |src.newLines| + 1
    ensures forall k :: 0 <= k < |src.oldLines| ==> src.oldMarkup[k] == src.oldLines[k]
    ensures forall k :: 0 <= k < |src.newLines| ==> src.newMarkup[k] == src.newLines[k]
  {
    var before := NormalizeSourceString(oldText);
    var after := NormalizeSourceString(newText);
    LineSources(before.1, after.1, SplitNewlines(before.0), SplitNewlines(after.0))
  }

  // ---------------------------------------------------------------------
  // The generator
  // ---------------------------------------------------------------------

  class RawDiffChunkGenerator {
    /** Settings the generator was created with. */
    const tabSize: nat
    const enableSyntaxHighlighting: bool
    const syntaxHighlightingThreshold: int
    const contextNumLines: nat

    /** `_last_header`: the last header seen on each side. */
    var lastLeftHeader: Option<Header>
    var lastRightHeader: Option<Header>
    /** `_last_header_index`: where the header scan of each side resumes. */
    var leftHeaderIndex: nat
    var rightHeaderIndex: nat
    /** `_chunk_index`: the index the next chunk gets. */
    var chunkIndex: nat
    /** `counts`: rows per tag, set once all chunks have been generated. */
    var counts: Option<Counts>

    predicate Valid() {
      tabSize > 0
    }

    constructor (tabSize: nat, syntaxHighlighting: bool, syntaxHighlightingThreshold: int, contextNumLines: nat)
      requires tabSize > 0
      ensures Valid()
      ensures this.tabSize == tabSize && enableSyntaxHighlighting == syntaxHighlighting
      ensures this.syntaxHighlightingThreshold == syntaxHighlightingThreshold && this.contextNumLines == contextNumLines
      ensures lastLeftHeader == None && lastRightHeader == None
      ensures leftHeaderIndex == 0 && rightHeaderIndex == 0
      ensures chunkIndex == 0 && counts == None
    {
      this.tabSize := tabSize;
      enableSyntaxHighlighting := syntaxHighlighting;
      this.syntaxHighlightingThreshold := syntaxHighlightingThreshold;
      this.contextNumLines := contextNumLines;
      lastLeftHeader, lastRightHeader := None, None;
      leftHeaderIndex, rightHeaderIndex := 0, 0;
      chunkIndex := 0;
      counts := None;
    }

    /** `_get_enable_syntax_highlighting`. */
    method GetEnableSyntaxHighlighting(oldData: seq<bv8>, newData: seq<bv8>, oldLines: seq<string>, newLines: seq<string>)
      returns (r: bool)
      ensures r == HighlightingAffordable(
        enableSyntaxHighlighting, syntaxHighlightingThreshold, oldData, newData, oldLines, newLines)
    {
      if !enableSyntaxHighlighting {
        return false;
      }
      var threshold := syntaxHighlightingThreshold;
      if threshold != 0 && (|oldLines| > threshold || |newLines| > threshold) {
        return false;
      }
      if |oldData| > StyledMaxLimitBytes || |newData| > StyledMaxLimitBytes {
        return false;
      }
      var sides := [oldLines, newLines];
      for s := 0 to 2
        invariant forall t :: 0 <= t < s ==> ShortLines(sides[t])
      {
        var lines := sides[s];
        for k := 0 to |lines|
          invariant forall m :: 0 <= m < k ==> |lines[m]| <= StyledMaxLineLen
        {
          if |lines[k]| > StyledMaxLineLen {
            assert !ShortLines(sides[s]);
            return false;
          }
        }
      }
      assert sides[0] == oldLines && sides[1] == newLines;
      return true;
    }

    /** `_serialize_indentation`: spaces as `&gt;`, tabs as `------>|`, until the column reaches the difference. */
    method SerializeIndentation(chars: string, normIndentLenDiff: int) returns (s: string, remainder: string)
      requires Valid() && |chars| >= 1
      ensures (s, remainder) == Serialization(chars, normIndentLenDiff, tabSize, true)
    {
      s := "";
      var i := 0;
      var k := 0;
      var reached := false;
      while k < |chars| && !reached
        invariant 0 <= k <= |chars|
        invariant s == Rendered(chars[..k], tabSize, true) && i == ColumnAfter(chars[..k], tabSize)
        invariant forall m :: 1 <= m < k ==> ColumnAfter(chars[..m], tabSize) < normIndentLenDiff
        invariant reached == (k >= 1 && i >= normIndentLenDiff)
      {
        s, i := IndentChar(chars[k], s, i);
        RenderedStep(chars, k, tabSize, true);
        k := k + 1;
        reached := i >= normIndentLenDiff;
      }
      StopAtIsFirstReach(chars, normIndentLenDiff, tabSize, 1, k);
      remainder := chars[k..];
    }

    /** The body of the `_serialize_indentation` loop for one character `c` at column `i`. */
    method IndentChar(c: char, s0: string, i0: nat) returns (s: string, i: nat)
      requires Valid()
      ensures s == s0 + IndentPiece(c, i0, tabSize).0 && i == IndentPiece(c, i0, tabSize).1
    {
      s, i := s0, i0;
      if c == ' ' {
        s := s + "&gt;";
        i := i + 1;
      } else if c == '\t' {
        var inTabPos := i % tabSize;
        if inTabPos < tabSize - 1 {
          if inTabPos < tabSize - 2 {
            var numDashes := tabSize - 2 - inTabPos;
            s := s + Dashes(numDashes);
            i := i + numDashes;
          }
          s := s + "&gt;";
          i := i + 1;
        }
        s := s + "|";
        i := i + 1;
      }
    }

    /** `_serialize_unindentation`: spaces as `&lt;`, tabs as `|<------`, until the column reaches the difference. */
    method SerializeUnindentation(chars: string, normIndentLenDiff: int) returns (s: string, remainder: string)
      requires Valid() && |chars| >= 1
      ensures (s, remainder) == Serialization(chars, normIndentLenDiff, tabSize, false)
    {
      s := "";
      var i := 0;
      var k := 0;
      var reached := false;
      while k < |chars| && !reached
        invariant 0 <= k <= |chars|
        invariant s == Rendered(chars[..k], tabSize, false) && i == ColumnAfter(chars[..k], tabSize)
        invariant forall m :: 1 <= m < k ==> ColumnAfter(chars[..m], tabSize) < normIndentLenDiff
        invariant reached == (k >= 1 && i >= normIndentLenDiff)
      {
        s, i := UnindentChar(chars[k], s, i);
        RenderedStep(chars, k, tabSize, false);
        k := k + 1;
        reached := i >= normIndentLenDiff;
      }
      StopAtIsFirstReach(chars, normIndentLenDiff, tabSize, 1, k);
      remainder := chars[k..];
    }

    /** The body of the `_serialize_unindentation` loop for one character `c` at column `i`. */
    method UnindentChar(c: char, s0: string, i0: nat) returns (s: string, i: nat)
      requires Valid()
      ensures s == s0 + UnindentPiece(c, i0, tabSize).0 && i == UnindentPiece(c, i0, tabSize).1
    {
      s, i := s0, i0;
      if c == ' ' {
        s := s + "&lt;";
        i := i + 1;
      } else if c == '\t' {
        var inTabPos := i % tabSize;
        s := s + "|";
        i := i + 1;
        if inTabPos < tabSize - 1 {
          s := s + "&lt;";
          i := i + 1;
          if inTabPos < tabSize - 2 {
            var numDashes := tabSize - 2 - inTabPos;
            s := s + Dashes(numDashes);
            i := i + numDashes;
          }
        }
      }
    }

    /** `_wrap_indentation_chars` with the indenting (`indent`) or unindenting serialiser. */
    method WrapIndentationChars(className: string, markup: string, rawIndentLen: nat, normIndentLenDiff: int, indent: bool)
      returns (r: Result<string, ChunkError>)
      requires Valid()
      ensures r == WrapIndentation(className, markup, rawIndentLen, normIndentLenDiff, tabSize, indent)
    {
      var startPos := 0;
      while startPos < |markup| && markup[startPos] == '<'
        invariant startPos <= |markup|
        invariant TextStart(markup, 0) == TextStart(markup, startPos)
        decreases |markup| - startPos
      {
        var endTagPos := FindChar(markup, '>', startPos + 1);
        if endTagPos == -1 {
          return Failure(AssertionError);
        }
        startPos := endTagPos + 1;
      }
      if startPos >= |markup| {
        return Failure(IndexError);
      }
      r := WrapFrom(className, markup, startPos, rawIndentLen, normIndentLenDiff, indent);
    }

    /** The part of `_wrap_indentation_chars` after the leading tags. */
    method WrapFrom(className: string, markup: string, startPos: nat, rawIndentLen: nat, normIndentLenDiff: int, indent: bool)
      returns (r: Result<string, ChunkError>)
      requires Valid() && startPos <= |markup|
      ensures r == WrapAt(className, markup, startPos, rawIndentLen, normIndentLenDiff, tabSize, indent)
    {
      var endPos := Min(startPos + rawIndentLen, |markup|);
      var indentation := markup[startPos..endPos];
      if Strip(indentation) != "" {
        return Success(markup);
      }
      if |indentation| == 0 {
        return Failure(AssertionError);
      }
      var serialized, remainder;
      if indent {
        serialized, remainder := SerializeIndentation(indentation, normIndentLenDiff);
      } else {
        serialized, remainder := SerializeUnindentation(indentation, normIndentLenDiff);
      }
      r := Success(Spliced(markup, startPos, endPos, className, (serialized, remainder)));
    }

    /** `_get_interesting_headers`: scans one side's header lines and saves where the scan stopped. */
    method GetInterestingHeaders(lines: seq<DiffLine>, start: int, end: int, isModified: bool, pf: seq<(int, string)>)
      returns (headers: seq<Header>)
      modifies this
      ensures var scan := InterestingHeaders(lines, start, end, isModified, pf,
                                             if isModified then old(rightHeaderIndex) else old(leftHeaderIndex));
        && headers == scan.found
        && (if isModified then rightHeaderIndex == scan.lastIndex && leftHeaderIndex == old(leftHeaderIndex)
            else leftHeaderIndex == scan.lastIndex && rightHeaderIndex == old(rightHeaderIndex))
      ensures lastLeftHeader == old(lastLeftHeader) && lastRightHeader == old(lastRightHeader)
      ensures chunkIndex == old(chunkIndex) && counts == old(counts)
    {
      headers := [];
      if |pf| == 0 {
        return;
      }
      var first := PyIndex(|lines|, start);
      var last := PyIndex(|lines|, end - 1);
      if first.None? || last.None? {
        return;
      }
      var saved := if isModified then rightHeaderIndex else leftHeaderIndex;
      var i1 := LineNumOn(lines[first.value], isModified);
      var i2 := LineNumOn(lines[last.value], isModified);
      var lastIndex;
      headers, lastIndex := ScanHeaderLines(pf, saved, i1, i2);
      if isModified {
        rightHeaderIndex := lastIndex;
      } else {
        leftHeaderIndex := lastIndex;
      }
    }

    /** `compute_chunk_last_header` on this generator's `_last_header`. */
    method ComputeChunkLastHeader(lines: seq<DiffLine>, leftHeaders: seq<Header>, rightHeaders: seq<Header>)
      returns (r: Result<(), ChunkError>)
      modifies this
      ensures r.Success? <==> |lines| > 0
      ensures r.Success? ==> lastLeftHeader == LastHeaderAfter(old(lastLeftHeader), leftHeaders)
      ensures r.Success? ==> lastRightHeader == LastHeaderAfter(old(lastRightHeader), rightHeaders)
      ensures r.Failure? ==> lastLeftHeader == old(lastLeftHeader) && lastRightHeader == old(lastRightHeader)
      ensures leftHeaderIndex == old(leftHeaderIndex) && rightHeaderIndex == old(rightHeaderIndex)
      ensures chunkIndex == old(chunkIndex) && counts == old(counts)
    {
      if |lines| == 0 {
        return Failure(IndexError);
      }
      if |leftHeaders| > 0 {
        var header := leftHeaders[|leftHeaders| - 1];
        lastLeftHeader := Some(Header(header.line, Strip(header.text)));
      }
      if |rightHeaders| > 0 {
        var header := rightHeaders[|rightHeaders| - 1];
        lastRightHeader := Some(Header(header.line, Strip(header.text)));
      }
      return Success(());
    }

    /**
     * `_new_chunk`: the chunk of rows `start..end`, with the headers found in
     * it and, when collapsible and not last, the headers to show in its place.
     */
    method NewChunk(allLines: seq<DiffLine>, start: nat, end: nat, collapsible: bool, tag: Tag,
                    meta: Option<OpcodeMeta>, interesting: InterestingLines)
      returns (r: Result<DiffChunk, ChunkError>)
      requires start <= end <= |allLines|
      modifies this
      ensures var left := InterestingHeaders(allLines, start, end - 1, false, interesting.left, old(leftHeaderIndex));
        var right := InterestingHeaders(allLines, start, end - 1, true, interesting.right, old(rightHeaderIndex));
        && leftHeaderIndex == left.lastIndex && rightHeaderIndex == right.lastIndex
        && (r.Success? ==>
              && lastLeftHeader == LastHeaderAfter(old(lastLeftHeader), left.found)
              && lastRightHeader == LastHeaderAfter(old(lastRightHeader), right.found)
              && r.value.meta.leftHeaders == left.found && r.value.meta.rightHeaders == right.found)
      ensures r.Success? <==> start < end
      ensures r.Success? ==>
        && Covers(r.value, allLines, start, end, collapsible, tag) && r.value.index == old(chunkIndex)
        && chunkIndex == old(chunkIndex) + 1
        && r.value.meta.opcodeMeta == meta
        && (r.value.meta.headers.Some? <==>
              collapsible && end < |allLines| && (lastLeftHeader.Some? || lastRightHeader.Some?))
        && (r.value.meta.headers.Some? ==> r.value.meta.headers.value == (lastLeftHeader, lastRightHeader))
      ensures r.Failure? ==> chunkIndex == old(chunkIndex)
      ensures counts == old(counts)
    {
      var leftHeaders := GetInterestingHeaders(allLines, start, end - 1, false, interesting.left);
      var rightHeaders := GetInterestingHeaders(allLines, start, end - 1, true, interesting.right);
      var lines := allLines[start..end];
      var numLines := |lines|;
      var computed := ComputeChunkLastHeader(lines, leftHeaders, rightHeaders);
      if computed.Failure? {
        return Failure(computed.error);
      }
      var headers :=
        if collapsible && end < |allLines| && (lastLeftHeader.Some? || lastRightHeader.Some?)
        then Some((lastLeftHeader, lastRightHeader)) else None;
      r := Success(DiffChunk(chunkIndex, lines, numLines, tag, collapsible,
                             ChunkMeta(leftHeaders, rightHeaders, headers, meta)));
      chunkIndex := chunkIndex + 1;
    }

    /**
     * The chunks `generate_chunks` emits for one opcode's rows: one chunk,
     * or a long equal run split around its collapsible middle.
     */
    method ChunkOpcode(rows: seq<DiffLine>, op: Opcode, lineNum: int, reachesEnd: bool, interesting: InterestingLines)
      returns (r: Result<seq<DiffChunk>, ChunkError>)
      modifies this
      ensures var segs := SplitOpcode(op.tag, |rows|, contextNumLines, lineNum, reachesEnd);
        && (r.Success? <==> SegmentsNonEmpty(segs))
        && (r.Success? ==>
              && ChunkShapes(r.value) == SegmentShapes(segs, op.tag)
              && Flatten(r.value) == rows
              && Indexed(r.value, old(chunkIndex))
              && chunkIndex == old(chunkIndex) + |r.value|)
      ensures counts == old(counts)
    {
      var numLines := |rows|;
      var segs := SplitOpcode(op.tag, numLines, contextNumLines, lineNum, reachesEnd);
      if op.tag == Equal && numLines > CollapseThreshold(contextNumLines) {
        r := SplitEqualRun(rows, lineNum, reachesEnd, interesting);
      } else {
        var a :- NewChunk(rows, 0, numLines, false, op.tag, Some(op.meta), interesting);
        assert segs == [Segment(0, numLines, false)];
        r := Success([a]);
        assert ChunksFollow(r.value, rows, segs, op.tag, old(chunkIndex));
      }
      if r.Success? {
        ChunksFollowSegments(r.value, rows, segs, op.tag, old(chunkIndex));
      }
    }

    /** The chunks of a long equal run: context kept around its collapsible middle. */
    method SplitEqualRun(rows: seq<DiffLine>, lineNum: int, reachesEnd: bool, interesting: InterestingLines)
      returns (r: Result<seq<DiffChunk>, ChunkError>)
      requires Splits(Equal, |rows|, contextNumLines)
      modifies this
      ensures var segs := SplitOpcode(Equal, |rows|, contextNumLines, lineNum, reachesEnd);
        && (r.Success? <==> SegmentsNonEmpty(segs))
        && (r.Success? ==> ChunksFollow(r.value, rows, segs, Equal, old(chunkIndex)))
        && (r.Success? ==> chunkIndex == old(chunkIndex) + |r.value|)
      ensures counts == old(counts)
    {
      var numLines := |rows|;
      var segs := SplitOpcode(Equal, numLines, contextNumLines, lineNum, reachesEnd);
      var lastRangeStart := numLines - contextNumLines;
      if lineNum == 1 {
        assert segs == [Segment(0, lastRangeStart, true), Segment(lastRangeStart, numLines, false)];
        var a := NewChunk(rows, 0, lastRangeStart, true, Equal, None, interesting);
        var b := NewChunk(rows, lastRangeStart, numLines, false, Equal, None, interesting);
        if b.Failure? {
          return Failure(b.error);
        }
        r := Success([a.value, b.value]);
        FollowTwo(a.value, b.value, rows, segs[0], segs[1], Equal, old(chunkIndex));
      } else {
        r := SplitLaterEqualRun(rows, lineNum, reachesEnd, interesting);
      }
    }

    /** The chunks of a long equal run after the first row: context kept on either side of the middle. */
    method SplitLaterEqualRun(rows: seq<DiffLine>, lineNum: int, reachesEnd: bool, interesting: InterestingLines)
      returns (r: Result<seq<DiffChunk>, ChunkError>)
      requires Splits(Equal, |rows|, contextNumLines) && lineNum != 1
      modifies this
      ensures var segs := SplitOpcode(Equal, |rows|, contextNumLines, lineNum, reachesEnd);
        && (r.Success? <==> SegmentsNonEmpty(segs))
        && (r.Success? ==> ChunksFollow(r.value, rows, segs, Equal, old(chunkIndex)))
        && (r.Success? ==> chunkIndex == old(chunkIndex) + |r.value|)
      ensures counts == old(counts)
    {
      var numLines := |rows|;
      var segs := SplitOpcode(Equal, numLines, contextNumLines, lineNum, reachesEnd);
      var lastRangeStart := numLines - contextNumLines;
      var a :- NewChunk(rows, 0, contextNumLines, false, Equal, None, interesting);
      if reachesEnd {
        var b := NewChunk(rows, contextNumLines, numLines, true, Equal, None, interesting);
        assert segs == [Segment(0, contextNumLines, false), Segment(contextNumLines, numLines, true)];
        r := Success([a, b.value]);
        FollowTwo(a, b.value, rows, segs[0], segs[1], Equal, old(chunkIndex));
      } else {
        var b := NewChunk(rows, contextNumLines, lastRangeStart, true, Equal, None, interesting);
        var c := NewChunk(rows, lastRangeStart, numLines, false, Equal, None, interesting);
        assert segs == [Segment(0, contextNumLines, false), Segment(contextNumLines, lastRangeStart, true),
                        Segment(lastRangeStart, numLines, false)];
        r := Success([a, b.value, c.value]);
        FollowThree(a, b.value, c.value, rows, segs[0], segs[1], segs[2], Equal, old(chunkIndex));
      }
    }

    /**
     * One turn of the loop of `generate_chunks`: the rows of opcode `i`,
     * numbered on from `lineNum`, and the chunks made of them, which extend
     * the rows and the plan of the opcodes before it.
     */
    method ChunkNextOpcode(ops: seq<Opcode>, i: nat, lineNum: int, src: LineSources, interesting: InterestingLines,
                           regions: (string, string) -> (Regions, Regions),
                           ghost chunks: seq<DiffChunk>, ghost base: nat)
      returns (r: Result<seq<DiffChunk>, ChunkError>)
      requires Valid() && AllWellFormed(ops) && i < |ops|
      requires lineNum == 1 + TotalRows(ops[..i])
      requires ChunkedPrefix(ops, i, src, tabSize, regions, contextNumLines, chunks, base)
      requires chunkIndex == base + |chunks|
      modifies this
      ensures r.Failure? ==> !(AllRows(ops, src, tabSize, regions).Success? && PlanNonEmpty(ops, contextNumLines, src))
      ensures r.Success? ==>
        && ChunkedPrefix(ops, i + 1, src, tabSize, regions, contextNumLines, chunks + r.value, base)
        && chunkIndex == base + |chunks + r.value|
      ensures counts == old(counts)
    {
      var op := ops[i];
      var rows := OpcodeRows(op, lineNum, RowCount(op), src, tabSize, regions);
      if rows.Failure? {
        var pre := ops[..i + 1];
        assert pre[..i] == ops[..i] && pre[i] == op;
        AllRowsPrefixFailure(ops, i + 1, src, tabSize, regions);
        return Failure(rows.error);
      }
      r := ChunkOpcodeRows(ops, i, lineNum, src, interesting, regions, rows.value, chunks, base);
    }

    /** The chunks of the rows of opcode `i`, once those rows were made. */
    method ChunkOpcodeRows(ops: seq<Opcode>, i: nat, lineNum: int, src: LineSources, interesting: InterestingLines,
                           regions: (string, string) -> (Regions, Regions), rows: seq<DiffLine>,
                           ghost chunks: seq<DiffChunk>, ghost base: nat)
      returns (r: Result<seq<DiffChunk>, ChunkError>)
      requires Valid() && AllWellFormed(ops) && i < |ops|
      requires lineNum == 1 + TotalRows(ops[..i])
      requires OpcodeRows(ops[i], lineNum, RowCount(ops[i]), src, tabSize, regions) == Success(rows)
      requires ChunkedPrefix(ops, i, src, tabSize, regions, contextNumLines, chunks, base)
      requires chunkIndex == base + |chunks|
      modifies this
      ensures r.Failure? ==> !PlanNonEmpty(ops, contextNumLines, src)
      ensures r.Success? ==>
        && ChunkedPrefix(ops, i + 1, src, tabSize, regions, contextNumLines, chunks + r.value, base)
        && chunkIndex == base + |chunks + r.value|
      ensures counts == old(counts)
    {
      var op := ops[i];
      var reachesEnd := op.i2 == |src.oldLines| && op.j2 == |src.newLines|;
      r := ChunkOpcode(rows, op, lineNum, reachesEnd, interesting);
      if r.Failure? {
        var pre := ops[..i + 1];
        assert pre[..i] == ops[..i] && pre[i] == op;
        PlanPrefixEmpty(ops, i + 1, contextNumLines, src);
        return;
      }
      ChunksExtend(ops, i, src, tabSize, regions, contextNumLines, chunks, base, r.value, rows, old(chunkIndex));
    }

    /**
     * `generate_chunks` over the differ's opcodes: every opcode's rows,
     * numbered on from 1, split into chunks with consecutive indices, and
     * the rows counted per tag.
     */
    method GenerateChunks(ops: seq<Opcode>, src: LineSources, interesting: InterestingLines,
                          regions: (string, string) -> (Regions, Regions))
      returns (r: Result<seq<DiffChunk>, ChunkError>)
      requires Valid() && AllWellFormed(ops)
      modifies this
      ensures r.Success? <==>
        AllRows(ops, src, tabSize, regions).Success? && PlanNonEmpty(ops, contextNumLines, src)
      ensures r.Success? ==>
        && Flatten(r.value) == AllRows(ops, src, tabSize, regions).value
        && NumberedFrom(Flatten(r.value), 1)
        && ChunkShapes(r.value) == PlannedShapes(ops, contextNumLines, src)
        && Indexed(r.value, old(chunkIndex))
        && chunkIndex == old(chunkIndex) + |r.value|
        && counts == Some(CountsOf(ops))
      ensures r.Failure? ==> counts == old(counts)
    {
      var lineNum := 1;
      var rowCounts := Counts(0, 0, 0, 0);
      var chunks: seq<DiffChunk> := [];
      var i := 0;
      while i < |ops|
        invariant 0 <= i <= |ops|
        invariant ChunkedPrefix(ops, i, src, tabSize, regions, contextNumLines, chunks, old(chunkIndex))
        invariant chunkIndex == old(chunkIndex) + |chunks|
        invariant lineNum == 1 + TotalRows(ops[..i])
        invariant rowCounts == CountsOf(ops[..i])
        invariant counts == old(counts)
      {
        var emitted := ChunkNextOpcode(ops, i, lineNum, src, interesting, regions, chunks, old(chunkIndex));
        if emitted.Failure? {
          return Failure(emitted.error);
        }
        assert ops[..i + 1][..i] == ops[..i];
        rowCounts := AddRows(rowCounts, ops[i].tag, RowCount(ops[i]));
        chunks := chunks + emitted.value;
        lineNum := lineNum + RowCount(ops[i]);
        i := i + 1;
      }
      assert ops[..i] == ops;
      AllRowsNumbered(ops, src, tabSize, regions);
      counts := Some(rowCounts);
      r := Success(chunks);
    }
  }

  /**
   * The chunks emitted for the first `n` opcodes: their rows are those
   * opcodes' rows, their shapes the planned ones, and their indices run on
   * from `base`.
   */
  predicate ChunkedPrefix(ops: seq<Opcode>, n: nat, src: LineSources, tabSize: nat,
                          regions: (string, string) -> (Regions, Regions), context: nat,
                          chunks: seq<DiffChunk>, base: nat)
    requires AllWellFormed(ops) && tabSize > 0 && n <= |ops|
  {
    && AllRows(ops[..n], src, tabSize, regions).Success?
    && PlanNonEmpty(ops[..n], context, src)
    && Flatten(chunks) == AllRows(ops[..n], src, tabSize, regions).value
    && ChunkShapes(chunks) == PlannedShapes(ops[..n], context, src)
    && Indexed(chunks, base)
  }

  /** One more opcode's chunks extend the rows, the plan and the indices of the opcodes before it. */
  lemma ChunksExtend(ops: seq<Opcode>, i: nat, src: LineSources, tabSize: nat,
                     regions: (string, string) -> (Regions, Regions), context: nat,
                     chunks: seq<DiffChunk>, base: nat, emitted: seq<DiffChunk>, rows: seq<DiffLine>, start: nat)
    requires AllWellFormed(ops) && tabSize > 0 && i < |ops|
    requires ChunkedPrefix(ops, i, src, tabSize, regions, context, chunks, base)
    requires OpcodeRows(ops[i], 1 + TotalRows(ops[..i]), RowCount(ops[i]), src, tabSize, regions) == Success(rows)
    requires var segs := SplitOpcode(ops[i].tag, |rows|, context, 1 + TotalRows(ops[..i]), ReachesEnd(ops[i], src));
      && SegmentsNonEmpty(segs)
      && ChunkShapes(emitted) == SegmentShapes(segs, ops[i].tag)
      && Flatten(emitted) == rows
    requires start == base + |chunks| && Indexed(emitted, start)
    ensures ChunkedPrefix(ops, i + 1, src, tabSize, regions, context, chunks + emitted, base)
  {
    RowsExtend(ops, i, src, tabSize, regions, chunks, emitted, rows);
    PlanExtend(ops, i, src, context, chunks, emitted);
    IndexedJoin(chunks, emitted, base, start);
  }

  /** The rows of the chunks of one more opcode follow those of the opcodes before it. */
  lemma RowsExtend(ops: seq<Opcode>, i: nat, src: LineSources, tabSize: nat,
                   regions: (string, string) -> (Regions, Regions),
                   chunks: seq<DiffChunk>, emitted: seq<DiffChunk>, rows: seq<DiffLine>)
    requires AllWellFormed(ops) && tabSize > 0 && i < |ops|
    requires AllRows(ops[..i], src, tabSize, regions).Success?
    requires Flatten(chunks) == AllRows(ops[..i], src, tabSize, regions).value
    requires OpcodeRows(ops[i], 1 + TotalRows(ops[..i]), RowCount(ops[i]), src, tabSize, regions) == Success(rows)
    requires Flatten(emitted) == rows
    ensures AllRows(ops[..i + 1], src, tabSize, regions).Success?
    ensures Flatten(chunks + emitted) == AllRows(ops[..i + 1], src, tabSize, regions).value
  {
    assert ops[..i + 1] == ops[..i] + [ops[i]];
    AllRowsSnoc(ops[..i], ops[i], src, tabSize, regions, rows);
    FlattenAppend(chunks, emitted);
  }

  /** The shapes of the chunks of one more opcode follow the plan of the opcodes before it. */
  lemma PlanExtend(ops: seq<Opcode>, i: nat, src: LineSources, context: nat,
                   chunks: seq<DiffChunk>, emitted: seq<DiffChunk>)
    requires AllWellFormed(ops) && i < |ops|
    requires PlanNonEmpty(ops[..i], context, src)
    requires ChunkShapes(chunks) == PlannedShapes(ops[..i], context, src)
    requires var segs := SplitOpcode(ops[i].tag, RowCount(ops[i]), context, 1 + TotalRows(ops[..i]), ReachesEnd(ops[i], src));
      SegmentsNonEmpty(segs) && ChunkShapes(emitted) == SegmentShapes(segs, ops[i].tag)
    ensures PlanNonEmpty(ops[..i + 1], context, src)
    ensures ChunkShapes(chunks + emitted) == PlannedShapes(ops[..i + 1], context, src)
  {
    PlanSnoc(ops, i, context, src);
    ChunkShapesAppend(chunks, emitted);
  }

  /** The rows of one more opcode follow the rows of the opcodes before it. */
  lemma AllRowsSnoc(init: seq<Opcode>, op: Opcode, src: LineSources, tabSize: nat,
                    regions: (string, string) -> (Regions, Regions), rows: seq<DiffLine>)
    requires AllWellFormed(init) && WellFormed(op) && tabSize > 0
    requires AllRows(init, src, tabSize, regions).Success?
    requires OpcodeRows(op, 1 + TotalRows(init), RowCount(op), src, tabSize, regions) == Success(rows)
    ensures AllRows(init + [op], src, tabSize, regions) == Success(AllRows(init, src, tabSize, regions).value + rows)
  {
    var ops := init + [op];
    assert AllWellFormed(ops) by {
      forall k | 0 <= k < |ops| ensures WellFormed(ops[k]) {
        if k < |init| { assert ops[k] == init[k]; }
      }
    }
    assert ops[..|ops| - 1] == init && ops[|ops| - 1] == op;
  }

  /** The plan of one more opcode follows the plan of the opcodes before it. */
  lemma PlanSnoc(ops: seq<Opcode>, i: nat, context: nat, src: LineSources)
    requires AllWellFormed(ops) && i < |ops|
    ensures var segs := SplitOpcode(ops[i].tag, RowCount(ops[i]), context, 1 + TotalRows(ops[..i]), ReachesEnd(ops[i], src));
      && PlannedShapes(ops[..i + 1], context, src) == PlannedShapes(ops[..i], context, src) + SegmentShapes(segs, ops[i].tag)
      && (PlanNonEmpty(ops[..i + 1], context, src) <==> PlanNonEmpty(ops[..i], context, src) && SegmentsNonEmpty(segs))
  {
    var pre := ops[..i + 1];
    assert pre[..|pre| - 1] == ops[..i] && pre[|pre| - 1] == ops[i];
  }

  lemma ChunkShapesAppend(a: seq<DiffChunk>, b: seq<DiffChunk>)
    ensures ChunkShapes(a + b) == ChunkShapes(a) + ChunkShapes(b)
  {
  }

  /** `IndexedAppend` with the second list's first index named. */
  lemma IndexedJoin(a: seq<DiffChunk>, b: seq<DiffChunk>, base: nat, start: nat)
    requires Indexed(a, base) && start == base + |a| && Indexed(b, start)
    ensures Indexed(a + b, base)
  {
    IndexedAppend(a, b, base);
  }

  lemma {:induction false} IndexedAppend(a: seq<DiffChunk>, b: seq<DiffChunk>, base: nat)
    requires Indexed(a, base) && Indexed(b, base + |a|)
    ensures Indexed(a + b, base)
    decreases |b|
  {
    if |b| > 0 {
      assert (a + b)[..|a + b| - 1] == a + b[..|b| - 1];
      IndexedAppend(a, b[..|b| - 1], base);
    } else {
      assert a + b == a;
    }
  }

  /** The chunk holds rows `start..end` of `allLines`, with the given kind. */
  predicate Covers(c: DiffChunk, allLines: seq<DiffLine>, start: nat, end: nat, collapsible: bool, tag: Tag)
    requires start <= end <= |allLines|
  {
    && c.lines == allLines[start..end] && c.numLines == end - start
    && c.change == tag && c.collapsable == collapsible
  }

  /** The chunks cover the segments of `rows` one by one, with indices from `base`. */
  predicate ChunksFollow(chunks: seq<DiffChunk>, rows: seq<DiffLine>, segs: seq<Segment>, tag: Tag, base: nat)
    requires Tiles(segs, |rows|)
  {
    && |chunks| == |segs|
    && Indexed(chunks, base)
    && forall k :: 0 <= k < |segs| ==>
         Covers(chunks[k], rows, segs[k].start, segs[k].end, segs[k].collapsible, tag)
  }

  /** Two chunks covering two adjacent segments, indexed in turn, follow them. */
  lemma FollowTwo(x: DiffChunk, y: DiffChunk, rows: seq<DiffLine>, s0: Segment, s1: Segment, tag: Tag, base: nat)
    requires s0.start == 0 <= s0.end == s1.start <= s1.end == |rows|
    requires Covers(x, rows, s0.start, s0.end, s0.collapsible, tag) && x.index == base
    requires Covers(y, rows, s1.start, s1.end, s1.collapsible, tag) && y.index == base + 1
    ensures Tiles([s0, s1], |rows|) && ChunksFollow([x, y], rows, [s0, s1], tag, base)
  {
    assert [x, y][..1] == [x];
  }

  /** Three chunks covering three adjacent segments, indexed in turn, follow them. */
  lemma FollowThree(x: DiffChunk, y: DiffChunk, z: DiffChunk, rows: seq<DiffLine>,
                    s0: Segment, s1: Segment, s2: Segment, tag: Tag, base: nat)
    requires s0.start == 0 <= s0.end == s1.start <= s1.end == s2.start <= s2.end == |rows|
    requires Covers(x, rows, s0.start, s0.end, s0.collapsible, tag) && x.index == base
    requires Covers(y, rows, s1.start, s1.end, s1.collapsible, tag) && y.index == base + 1
    requires Covers(z, rows, s2.start, s2.end, s2.collapsible, tag) && z.index == base + 2
    ensures Tiles([s0, s1, s2], |rows|) && ChunksFollow([x, y, z], rows, [s0, s1, s2], tag, base)
  {
    assert [x, y, z][..2] == [x, y] && [x, y][..1] == [x];
    assert Indexed([x, y], base);
  }

  /** Chunks that follow a tiling give the rows back, in the planned shapes. */
  lemma ChunksFollowSegments(chunks: seq<DiffChunk>, rows: seq<DiffLine>, segs: seq<Segment>, tag: Tag, base: nat)
    requires Tiles(segs, |rows|) && ChunksFollow(chunks, rows, segs, tag, base)
    ensures ChunkShapes(chunks) == SegmentShapes(segs, tag)
    ensures Flatten(chunks) == rows
    ensures Indexed(chunks, base)
  {
    FlattenIsSlices(chunks, rows, segs, |segs|);
    assert chunks[..|segs|] == chunks && segs[..|segs|] == segs;
    TiledSlicesGiveRows(rows, segs);
  }

  lemma {:induction false} FlattenIsSlices(chunks: seq<DiffChunk>, rows: seq<DiffLine>, segs: seq<Segment>, m: nat)
    requires Tiles(segs, |rows|) && |chunks| == |segs| && m <= |segs|
    requires forall k :: 0 <= k < |segs| ==> chunks[k].lines == rows[segs[k].start..segs[k].end]
    ensures Flatten(chunks[..m]) == Slices(rows, segs[..m])
  {
    if m > 0 {
      FlattenIsSlices(chunks, rows, segs, m - 1);
      assert chunks[..m][..m - 1] == chunks[..m - 1];
      assert segs[..m][..m - 1] == segs[..m - 1];
    }
  }

  // ---------------------------------------------------------------------
  // Cache keys (`DiffChunkGenerator.make_cache_key`)
  // ---------------------------------------------------------------------

  /** Bumped whenever the cached chunk format changes incompatibly. */
  const CacheFormatVersion: nat := 1

  const CacheKeyPrefix := "diff-sidebyside-"

  /** The part of a cache key that names the file: the FileDiff alone, or it and its interdiff partner. */
  function FilePart(filediffPk: nat, forceInterdiff: bool, interfilediffPk: Option<nat>): (r: string)
    ensures !forceInterdiff ==> |r| >= 1 && IsDigit(r[0])
    ensures forceInterdiff ==> StartsWith(r, "interdiff-" + NatToString(filediffPk) + "-")
  {
    if !forceInterdiff then NatToString(filediffPk)
    else if interfilediffPk.Some? then "interdiff-" + NatToString(filediffPk) + "-" + NatToString(interfilediffPk.value)
    else "interdiff-" + NatToString(filediffPk) + "-none"
  }

  /** The key parts before the file part: the format version and, when diffing against a base, the base FileDiff. */
  function KeyHead(baseFilediffPk: Option<nat>): string {
    CacheKeyPrefix + NatToString(CacheFormatVersion)
      + (if baseFilediffPk.Some? then "-base-" + NatToString(baseFilediffPk.value) else "")
  }

  /**
   * The key under which the chunks of one file are cached: the parts joined
   * with "-", ending in the diff settings' state hash and the active language.
   */
  function MakeCacheKey(baseFilediffPk: Option<nat>, filediffPk: nat, forceInterdiff: bool,
                        interfilediffPk: Option<nat>, stateHash: string, language: string): (r: string)
    ensures StartsWith(r, CacheKeyPrefix + "1-")
    ensures EndsWith(r, "-" + stateHash + "-" + language)
  {
    var head := KeyHead(baseFilediffPk);
    assert NatToString(CacheFormatVersion) == "1";
    var r := head + "-" + FilePart(filediffPk, forceInterdiff, interfilediffPk) + "-" + stateHash + "-" + language;
    assert r == (head + "-" + FilePart(filediffPk, forceInterdiff, interfilediffPk)) + ("-" + stateHash + "-" + language);
    assert r[..|CacheKeyPrefix + "1-"|] == CacheKeyPrefix + "1-";
    r
  }

  /** A plain key and a forced-interdiff key for the same base never collide. */
  lemma PlainAndInterdiffKeysDiffer(base: Option<nat>, pk: nat, otherPk: nat, interPk: Option<nat>,
                                    hash: string, hash2: string, language: string, language2: string)
    ensures MakeCacheKey(base, pk, false, interPk, hash, language) !=
            MakeCacheKey(base, otherPk, true, interPk, hash2, language2)
  {
    var k := KeyHead(base) + "-";
    var tail1 := "-" + hash + "-" + language;
    var tail2 := "-" + hash2 + "-" + language2;
    var p := FilePart(pk, false, interPk);
    var q := FilePart(otherPk, true, interPk);
    assert MakeCacheKey(base, pk, false, interPk, hash, language) == k + p + tail1;
    assert MakeCacheKey(base, otherPk, true, interPk, hash2, language2) == k + q + tail2;
    assert q[0] == 'i';
    DifferAfter(k, p, q, tail1, tail2);
  }

  /** Strings with a common head differ if the parts after it start differently. */
  lemma DifferAfter(head: string, x: string, y: string, t1: string, t2: string)
    requires |x| > 0 && |y| > 0 && x[0] != y[0]
    ensures head + x + t1 != head + y + t2
  {
    assert (head + x + t1)[|head|] == x[0];
    assert (head + y + t2)[|head|] == y[0];
  }

  /** With the same FileDiff, an interdiff key with a partner and one without never collide. */
  lemma InterdiffPartnerKeysDiffer(base: Option<nat>, pk: nat, interPk: nat,
                                   hash: string, hash2: string, language: string, language2: string)
    ensures MakeCacheKey(base, pk, true, Some(interPk), hash, language) !=
            MakeCacheKey(base, pk, true, None, hash2, language2)
  {
    var k := KeyHead(base) + "-";
    var mid := "interdiff-" + NatToString(pk) + "-";
    var digits := NatToString(interPk);
    var p := FilePart(pk, true, Some(interPk));
    var q := FilePart(pk, true, None);
    assert p == mid + digits && p[|mid|] == digits[0];
    assert q == mid + "none" && q[|mid|] == 'n';
    var key1 := MakeCacheKey(base, pk, true, Some(interPk), hash, language);
    var key2 := MakeCacheKey(base, pk, true, None, hash2, language2);
    var at := |k| + |mid|;
    assert key1[at] == (k + p)[at] == p[|mid|];
    assert key2[at] == (k + q)[at] == q[|mid|];
  }
}
