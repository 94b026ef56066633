/**
 * How `generate_chunks` (reviewboard/diffviewer/chunk_generator.py) turns
 * the differ's opcodes into rows and splits each opcode's rows into chunks:
 * row numbering, per-tag counts and the collapsing of long equal runs.
 */
module ChunkPlan {
  import opened Wrappers
  import opened ChunkLines

  /** A differ opcode `(tag, i1, i2, j1, j2, meta)`: old lines `i1..i2` against new lines `j1..j2`. */
  datatype Opcode = Opcode(tag: Tag, i1: nat, i2: nat, j1: nat, j2: nat, meta: OpcodeMeta)

  predicate WellFormed(op: Opcode) {
    op.i1 <= op.i2 && op.j1 <= op.j2
  }

  predicate AllWellFormed(ops: seq<Opcode>) {
    forall k :: 0 <= k < |ops| ==> WellFormed(ops[k])
  }

  /** The rows one opcode contributes: `max(i2 - i1, j2 - j1)`. */
  function RowCount(op: Opcode): nat
    requires WellFormed(op)
  {
    if op.i2 - op.i1 >= op.j2 - op.j1 then op.i2 - op.i1 else op.j2 - op.j1
  }

  /** The rows all the opcodes contribute. */
  function TotalRows(ops: seq<Opcode>): nat
    requires AllWellFormed(ops)
  {
    if |ops| == 0 then 0 else TotalRows(ops[..|ops| - 1]) + RowCount(ops[|ops| - 1])
  }

  // ---------------------------------------------------------------------
  // Splitting one opcode's rows into chunks
  // ---------------------------------------------------------------------

  /** A chunk's rows `start..end` of its opcode, and whether it is collapsible. */
  datatype Segment = Segment(start: nat, end: nat, collapsible: bool)

  /** An equal run longer than this is split (`2 * context_num_lines + 3`). */
  function CollapseThreshold(context: nat): nat {
    2 * context + 3
  }

  predicate Splits(tag: Tag, n: nat, context: nat) {
    tag == Equal && n > CollapseThreshold(context)
  }

  /** Segments that are contiguous and cover rows `0..n` in order. */
  predicate Tiles(segs: seq<Segment>, n: nat) {
    && |segs| >= 1
    && segs[0].start == 0
    && segs[|segs| - 1].end == n
    && (forall k :: 0 <= k < |segs| ==> segs[k].start <= segs[k].end <= n)
    && (forall k :: 0 <= k < |segs| - 1 ==> segs[k].end == segs[k + 1].start)
  }

  predicate SegmentsNonEmpty(segs: seq<Segment>) {
    forall k :: 0 <= k < |segs| ==> segs[k].start < segs[k].end
  }

  /**
   * The chunks `generate_chunks` makes of an opcode with `n` rows starting at
   * row `lineNum`; `reachesEnd` says the opcode ends both files.
   */
  function SplitOpcode(tag: Tag, n: nat, context: nat, lineNum: int, reachesEnd: bool): (segs: seq<Segment>)
    ensures Tiles(segs, n)
    ensures !Splits(tag, n, context) ==> |segs| == 1 && !segs[0].collapsible
    ensures Splits(tag, n, context) ==> 2 <= |segs| <= 3
  {
    if !Splits(tag, n, context) then [Segment(0, n, false)]
    else
      var lastRangeStart := n - context;
      if lineNum == 1 then
        [Segment(0, lastRangeStart, true), Segment(lastRangeStart, n, false)]
      else if reachesEnd then
        [Segment(0, context, false), Segment(context, n, true)]
      else
        [Segment(0, context, false), Segment(context, lastRangeStart, true), Segment(lastRangeStart, n, false)]
  }

  /**
   * Which rows of an opcode end up hidden: those of a long equal run that
   * are more than `context` rows away from a change, where the start of
   * the file counts as no change and the end of both files as none either.
   */
  predicate RowCollapsed(tag: Tag, n: nat, context: nat, lineNum: int, reachesEnd: bool, r: nat) {
    && Splits(tag, n, context)
    && (lineNum == 1 || context <= r)
    && (r < n - context || (lineNum != 1 && reachesEnd))
  }

  /** Every row lies in exactly one chunk, collapsible exactly when the row is hidden. */
  lemma SplitMatchesCollapsedRows(tag: Tag, n: nat, context: nat, lineNum: int, reachesEnd: bool, r: nat)
    requires r < n
    ensures var segs := SplitOpcode(tag, n, context, lineNum, reachesEnd);
      && (exists k :: 0 <= k < |segs| && segs[k].start <= r < segs[k].end)
      && (forall k :: 0 <= k < |segs| && segs[k].start <= r < segs[k].end ==>
            segs[k].collapsible == RowCollapsed(tag, n, context, lineNum, reachesEnd, r))
  {
    var segs := SplitOpcode(tag, n, context, lineNum, reachesEnd);
    if !Splits(tag, n, context) {
      assert segs[0].start <= r < segs[0].end;
    } else if lineNum == 1 {
      if r < n - context { assert segs[0].start <= r < segs[0].end; }
      else { assert segs[1].start <= r < segs[1].end; }
    } else if reachesEnd {
      if r < context { assert segs[0].start <= r < segs[0].end; }
      else { assert segs[1].start <= r < segs[1].end; }
    } else {
      if r < context { assert segs[0].start <= r < segs[0].end; }
      else if r < n - context { assert segs[1].start <= r < segs[1].end; }
      else { assert segs[2].start <= r < segs[2].end; }
    }
  }

  /**
   * Every chunk of an opcode holds a row exactly when the opcode has rows
   * and a split run has some context; otherwise one chunk is empty (and
   * `compute_chunk_last_header` raises on it).
   */
  lemma SplitChunksNonEmpty(tag: Tag, n: nat, context: nat, lineNum: int, reachesEnd: bool)
    ensures SegmentsNonEmpty(SplitOpcode(tag, n, context, lineNum, reachesEnd))
      <==> n > 0 && (Splits(tag, n, context) ==> context > 0)
  {
    var segs := SplitOpcode(tag, n, context, lineNum, reachesEnd);
    if Splits(tag, n, context) && context == 0 {
      if lineNum == 1 {
        assert segs[1].start == segs[1].end;
      } else {
        assert segs[0].start == segs[0].end;
      }
    }
  }

  /** `rows[s.start:s.end]` for each segment, concatenated in order. */
  function Slices<T>(rows: seq<T>, segs: seq<Segment>): seq<T>
    requires forall k :: 0 <= k < |segs| ==> segs[k].start <= segs[k].end <= |rows|
  {
    if |segs| == 0 then []
    else Slices(rows, segs[..|segs| - 1]) + rows[segs[|segs| - 1].start..segs[|segs| - 1].end]
  }

  /** The chunks of a tiling concatenate to exactly the opcode's rows. */
  lemma TiledSlicesGiveRows<T>(rows: seq<T>, segs: seq<Segment>)
    requires Tiles(segs, |rows|)
    ensures Slices(rows, segs) == rows
  {
    TiledPrefix(rows, segs, |segs|);
    assert segs[..|segs|] == segs;
  }

  lemma {:induction false} TiledPrefix<T>(rows: seq<T>, segs: seq<Segment>, m: nat)
    requires Tiles(segs, |rows|) && 1 <= m <= |segs|
    ensures Slices(rows, segs[..m]) == rows[..segs[m - 1].end]
  {
    var pre := segs[..m];
    assert pre[..m - 1] == segs[..m - 1];
    if m == 1 {
      assert Slices(rows, pre[..0]) == [];
    } else {
      TiledPrefix(rows, segs, m - 1);
      assert segs[m - 2].end == segs[m - 1].start;
      assert rows[..segs[m - 1].start] + rows[segs[m - 1].start..segs[m - 1].end] == rows[..segs[m - 1].end];
    }
  }

  // ---------------------------------------------------------------------
  // Rows of an opcode
  // ---------------------------------------------------------------------

  /** The old and new lines and their markup. */
  datatype LineSources = LineSources(
    oldLines: seq<string>, newLines: seq<string>,
    oldMarkup: seq<string>, newMarkup: seq<string>)

  /** Element `k` of the Python slice `xs[lo:hi]`, or None past its end (`zip_longest`). */
  function SliceAt(xs: seq<string>, lo: nat, hi: nat, k: nat): Option<string> {
    if lo + k < Min(hi, |xs|) then Some(xs[lo + k]) else None
  }

  /** The line number of row `k` on a side covering lines `lo..hi`, or None past them. */
  function SideLineNum(lo: nat, hi: nat, k: nat): Option<int> {
    if k < hi - lo then Some(lo + 1 + k) else None
  }

  /** Row `k` of an opcode whose first row is `lineNum`. */
  function RowAt(op: Opcode, lineNum: int, k: nat, src: LineSources, tabSize: nat,
                 regions: (string, string) -> (Regions, Regions)): Result<DiffLine, ChunkError>
    requires tabSize > 0
  {
    MakeDiffLine(
      op.tag, op.meta, lineNum + k,
      SideLineNum(op.i1, op.i2, k), SideLineNum(op.j1, op.j2, k),
      SliceAt(src.oldLines, op.i1, op.i2, k), SliceAt(src.newLines, op.j1, op.j2, k),
      SliceAt(src.oldMarkup, op.i1, op.i2, k), SliceAt(src.newMarkup, op.j1, op.j2, k),
      tabSize, regions)
  }

  /** The first `count` rows of an opcode, or the error the first failing row raises. */
  function OpcodeRows(op: Opcode, lineNum: int, count: nat, src: LineSources, tabSize: nat,
                      regions: (string, string) -> (Regions, Regions)): (r: Result<seq<DiffLine>, ChunkError>)
    requires tabSize > 0
    ensures r.Success? ==> |r.value| == count
  {
    if count == 0 then Success([])
    else
      var prev :- OpcodeRows(op, lineNum, count - 1, src, tabSize, regions);
      var row :- RowAt(op, lineNum, count - 1, src, tabSize, regions);
      Success(prev + [row])
  }

  /** Every row of every opcode, numbered on from the previous opcodes' rows. */
  function AllRows(ops: seq<Opcode>, src: LineSources, tabSize: nat,
                   regions: (string, string) -> (Regions, Regions)): (r: Result<seq<DiffLine>, ChunkError>)
    requires AllWellFormed(ops) && tabSize > 0
    ensures r.Success? ==> |r.value| == TotalRows(ops)
  {
    if |ops| == 0 then Success([])
    else
      var pre := ops[..|ops| - 1];
      var op := ops[|ops| - 1];
      var prev :- AllRows(pre, src, tabSize, regions);
      var rows :- OpcodeRows(op, 1 + TotalRows(pre), RowCount(op), src, tabSize, regions);
      Success(prev + rows)
  }

  /** The rows are numbered `first`, `first + 1`, ... in order. */
  predicate NumberedFrom(rows: seq<DiffLine>, first: int) {
    |rows| == 0 ||
    (NumberedFrom(rows[..|rows| - 1], first) && rows[|rows| - 1].vLineNum == first + |rows| - 1)
  }

  /** Row `k` of rows numbered from `first` is numbered `first + k`. */
  lemma {:induction false} NumberedAt(rows: seq<DiffLine>, first: int, k: nat)
    requires NumberedFrom(rows, first) && k < |rows|
    ensures rows[k].vLineNum == first + k
    decreases |rows|
  {
    if k < |rows| - 1 {
      NumberedAt(rows[..|rows| - 1], first, k);
    }
  }

  /** Numbered rows followed by rows numbered on from them are numbered throughout. */
  lemma {:induction false} NumberedAppend(a: seq<DiffLine>, b: seq<DiffLine>, first: int)
    requires NumberedFrom(a, first) && NumberedFrom(b, first + |a|)
    ensures NumberedFrom(a + b, first)
    decreases |b|
  {
    if |b| > 0 {
      assert (a + b)[..|a + b| - 1] == a + b[..|b| - 1];
      NumberedAppend(a, b[..|b| - 1], first);
    } else {
      assert a + b == a;
    }
  }

  /** A successful run of an opcode's rows extends the run before its last row with that row. */
  lemma OpcodeRowsStep(op: Opcode, lineNum: int, count: nat, src: LineSources, tabSize: nat,
                       regions: (string, string) -> (Regions, Regions), rows: seq<DiffLine>)
    requires tabSize > 0 && count > 0 && OpcodeRows(op, lineNum, count, src, tabSize, regions) == Success(rows)
    ensures OpcodeRows(op, lineNum, count - 1, src, tabSize, regions) == Success(rows[..count - 1])
    ensures rows[count - 1].vLineNum == lineNum + count - 1
    ensures rows[count - 1].oldLineNum == SideLineNum(op.i1, op.i2, count - 1)
    ensures rows[count - 1].newLineNum == SideLineNum(op.j1, op.j2, count - 1)
  {
    var prev := OpcodeRows(op, lineNum, count - 1, src, tabSize, regions).value;
    var row := RowAt(op, lineNum, count - 1, src, tabSize, regions).value;
    assert rows == prev + [row];
    assert rows[..count - 1] == prev;
  }

  /** The rows of an opcode are numbered on from `lineNum`. */
  lemma {:induction false} OpcodeRowsNumbered(op: Opcode, lineNum: int, count: nat, src: LineSources, tabSize: nat,
                                              regions: (string, string) -> (Regions, Regions), rows: seq<DiffLine>)
    requires tabSize > 0 && OpcodeRows(op, lineNum, count, src, tabSize, regions) == Success(rows)
    ensures NumberedFrom(rows, lineNum)
    decreases count
  {
    if count > 0 {
      OpcodeRowsStep(op, lineNum, count, src, tabSize, regions, rows);
      OpcodeRowsNumbered(op, lineNum, count - 1, src, tabSize, regions, rows[..count - 1]);
    }
  }

  /**
   * Row `k` carries the `k`-th line number of each side of the opcode, or
   * none past that side's lines.
   */
  predicate SidesNumbered(rows: seq<DiffLine>, op: Opcode) {
    |rows| == 0 ||
    (&& SidesNumbered(rows[..|rows| - 1], op)
     && rows[|rows| - 1].oldLineNum == SideLineNum(op.i1, op.i2, |rows| - 1)
     && rows[|rows| - 1].newLineNum == SideLineNum(op.j1, op.j2, |rows| - 1))
  }

  lemma {:induction false} SidesNumberedAt(rows: seq<DiffLine>, op: Opcode, k: nat)
    requires SidesNumbered(rows, op) && k < |rows|
    ensures rows[k].oldLineNum == SideLineNum(op.i1, op.i2, k)
    ensures rows[k].newLineNum == SideLineNum(op.j1, op.j2, k)
    decreases |rows|
  {
    if k < |rows| - 1 {
      SidesNumberedAt(rows[..|rows| - 1], op, k);
    }
  }

  /** The rows of an opcode carry the line numbers of its two sides. */
  lemma {:induction false} OpcodeRowsSides(op: Opcode, lineNum: int, count: nat, src: LineSources, tabSize: nat,
                                           regions: (string, string) -> (Regions, Regions), rows: seq<DiffLine>)
    requires tabSize > 0 && OpcodeRows(op, lineNum, count, src, tabSize, regions) == Success(rows)
    ensures SidesNumbered(rows, op)
    decreases count
  {
    if count > 0 {
      OpcodeRowsStep(op, lineNum, count, src, tabSize, regions, rows);
      OpcodeRowsSides(op, lineNum, count - 1, src, tabSize, regions, rows[..count - 1]);
    }
  }

  /** The rows of a run of opcodes are numbered 1, 2, 3, ... without gaps. */
  lemma {:induction false} AllRowsNumbered(ops: seq<Opcode>, src: LineSources, tabSize: nat,
                                           regions: (string, string) -> (Regions, Regions))
    requires AllWellFormed(ops) && tabSize > 0 && AllRows(ops, src, tabSize, regions).Success?
    ensures NumberedFrom(AllRows(ops, src, tabSize, regions).value, 1)
  {
    if |ops| > 0 {
      var pre := ops[..|ops| - 1];
      var op := ops[|ops| - 1];
      AllRowsNumbered(pre, src, tabSize, regions);
      OpcodeRowsNumbered(op, 1 + TotalRows(pre), RowCount(op), src, tabSize, regions,
                         OpcodeRows(op, 1 + TotalRows(pre), RowCount(op), src, tabSize, regions).value);
      NumberedAppend(AllRows(pre, src, tabSize, regions).value,
                     OpcodeRows(op, 1 + TotalRows(pre), RowCount(op), src, tabSize, regions).value, 1);
    }
  }

  /** A failure among the first opcodes' rows is the failure of all of them. */
  lemma {:induction false} AllRowsPrefixFailure(ops: seq<Opcode>, i: nat, src: LineSources, tabSize: nat,
                                                regions: (string, string) -> (Regions, Regions))
    requires AllWellFormed(ops) && tabSize > 0 && i <= |ops|
    requires AllRows(ops[..i], src, tabSize, regions).Failure?
    ensures AllRows(ops, src, tabSize, regions).Failure?
    decreases |ops| - i
  {
    if i < |ops| {
      assert ops[..i + 1][..i] == ops[..i];
      AllRowsPrefixFailure(ops, i + 1, src, tabSize, regions);
    } else {
      assert ops[..i] == ops;
    }
  }

  // ---------------------------------------------------------------------
  // Counts
  // ---------------------------------------------------------------------

  /** The `counts` dictionary: rows per tag. */
  datatype Counts = Counts(equal: nat, replace: nat, insert: nat, delete: nat)

  function AddRows(c: Counts, tag: Tag, n: nat): Counts {
    match tag
    case Equal => c.(equal := c.equal + n)
    case Replace => c.(replace := c.replace + n)
    case Insert => c.(insert := c.insert + n)
    case Delete => c.(delete := c.delete + n)
  }

  /** The counts after all the opcodes, starting from zero. */
  function CountsOf(ops: seq<Opcode>): Counts
    requires AllWellFormed(ops)
  {
    if |ops| == 0 then Counts(0, 0, 0, 0)
    else AddRows(CountsOf(ops[..|ops| - 1]), ops[|ops| - 1].tag, RowCount(ops[|ops| - 1]))
  }

  function Total(c: Counts): nat {
    c.equal + c.replace + c.insert + c.delete
  }

  /** Every row is counted under exactly one tag. */
  lemma {:induction false} CountsCoverAllRows(ops: seq<Opcode>)
    requires AllWellFormed(ops)
    ensures Total(CountsOf(ops)) == TotalRows(ops)
  {
    if |ops| > 0 {
      CountsCoverAllRows(ops[..|ops| - 1]);
    }
  }

  /** Rows of one tag never count under another. */
  lemma {:induction false} CountsOnlyPresentTags(ops: seq<Opcode>, tag: Tag)
    requires AllWellFormed(ops)
    requires forall k :: 0 <= k < |ops| ==> ops[k].tag != tag
    ensures AddRows(CountsOf(ops), tag, 0) == CountsOf(ops)
    ensures match tag
      case Equal => CountsOf(ops).equal == 0
      case Replace => CountsOf(ops).replace == 0
      case Insert => CountsOf(ops).insert == 0
      case Delete => CountsOf(ops).delete == 0
  {
    if |ops| > 0 {
      CountsOnlyPresentTags(ops[..|ops| - 1], tag);
    }
  }

  // ---------------------------------------------------------------------
  // The plan for a whole run of opcodes
  // ---------------------------------------------------------------------

  /** What a chunk looks like, apart from its rows and headers. */
  datatype Shape = Shape(numLines: int, change: Tag, collapsable: bool)

  function SegmentShapes(segs: seq<Segment>, tag: Tag): (r: seq<Shape>)
    ensures |r| == |segs|
  {
    seq(|segs|, k requires 0 <= k < |segs| => Shape(segs[k].end - segs[k].start, tag, segs[k].collapsible))
  }

  /** Whether the opcode ends both files. */
  predicate ReachesEnd(op: Opcode, src: LineSources) {
    op.i2 == |src.oldLines| && op.j2 == |src.newLines|
  }

  /** The segments of the last opcode, placed after the rows of the ones before it. */
  function LastSegments(ops: seq<Opcode>, context: nat, src: LineSources): seq<Segment>
    requires AllWellFormed(ops) && |ops| > 0
  {
    var op := ops[|ops| - 1];
    SplitOpcode(op.tag, RowCount(op), context, 1 + TotalRows(ops[..|ops| - 1]), ReachesEnd(op, src))
  }

  /** The shapes of every chunk of a run of opcodes. */
  function PlannedShapes(ops: seq<Opcode>, context: nat, src: LineSources): seq<Shape>
    requires AllWellFormed(ops)
  {
    if |ops| == 0 then []
    else PlannedShapes(ops[..|ops| - 1], context, src) + SegmentShapes(LastSegments(ops, context, src), ops[|ops| - 1].tag)
  }

  /** No opcode of the run is split into an empty chunk. */
  predicate PlanNonEmpty(ops: seq<Opcode>, context: nat, src: LineSources)
    requires AllWellFormed(ops)
  {
    |ops| == 0 || (PlanNonEmpty(ops[..|ops| - 1], context, src) && SegmentsNonEmpty(LastSegments(ops, context, src)))
  }

  lemma {:induction false} PlanPrefixEmpty(ops: seq<Opcode>, i: nat, context: nat, src: LineSources)
    requires AllWellFormed(ops) && i <= |ops|
    requires !PlanNonEmpty(ops[..i], context, src)
    ensures !PlanNonEmpty(ops, context, src)
    decreases |ops| - i
  {
    if i < |ops| {
      assert ops[..i + 1][..i] == ops[..i];
      PlanPrefixEmpty(ops, i + 1, context, src);
    } else {
      assert ops[..i] == ops;
    }
  }
}
