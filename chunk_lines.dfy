/**
 * Per-line logic of the diff chunk generator
 * (reviewboard/diffviewer/chunk_generator.py): source normalisation, the
 * syntax-highlighting gate, move information, indentation serialisation and
 * the construction of one side-by-side row.
 */
module ChunkLines {
  import opened Wrappers
  import opened Text

  /** Lines longer than this are neither styled nor region-highlighted. */
  const StyledMaxLineLen := 1000
  /** Files larger than this many bytes are not styled. */
  const StyledMaxLimitBytes := 200000

  /** The opcode tags produced by the differ. */
  datatype Tag = Equal | Replace | Insert | Delete

  /** What chunk generation raises instead of producing chunks. */
  datatype ChunkError =
    | IndexError       // a list or string index out of range
    | AssertionError   // a failed `assert` in the generator

  // ---------------------------------------------------------------------
  // Source normalisation
  // ---------------------------------------------------------------------

  /** The number of `\n` characters in `s`. */
  function Newlines(s: string): nat
    decreases |s|
  {
    if |s| == 0 then 0 else (if s[0] == '\n' then 1 else 0) + Newlines(s[1..])
  }

  lemma {:induction false} NewlinesAppend(s: string, t: string)
    ensures Newlines(s + t) == Newlines(s) + Newlines(t)
    decreases |s|
  {
    if |s| > 0 {
      assert (s + t)[1..] == s[1..] + t;
      NewlinesAppend(s[1..], t);
    } else {
      assert s + t == t;
    }
  }

  /** `NEWLINES_RE.split(s)` with `NEWLINES_RE = \r?\n`. */
  function SplitNewlines(s: string): (parts: seq<string>)
    ensures |parts| == Newlines(s) + 1
    ensures forall k :: 0 <= k < |parts| ==> '\n' !in parts[k]
    decreases |s|
  {
    if |s| == 0 then [""]
    else if s[0] == '\n' then [""] + SplitNewlines(s[1..])
    else if |s| >= 2 && s[0] == '\r' && s[1] == '\n' then
      assert s[1..][1..] == s[2..];
      [""] + SplitNewlines(s[2..])
    else
      var rest := SplitNewlines(s[1..]);
      [[s[0]] + rest[0]] + rest[1..]
  }

  /** Each line followed by a `\n`: the text a list of lines stands for. */
  function JoinLines(lines: seq<string>): string {
    if |lines| == 0 then "" else lines[0] + "\n" + JoinLines(lines[1..])
  }

  /**
   * `normalize_source_string`: terminates non-empty text with a newline,
   * splits it into lines and drops the empty piece after the last newline.
   */
  function NormalizeSourceString(s: string): (r: (string, seq<string>))
    ensures s == "" ==> r.0 == "" && r.1 == []
    ensures s != "" ==> EndsWith(r.0, "\n") && StartsWith(r.0, s) && |r.0| <= |s| + 1
    ensures |r.1| == Newlines(r.0)
    ensures forall k :: 0 <= k < |r.1| ==> '\n' !in r.1[k]
  {
    var text := if s != "" && !EndsWith(s, "\n") then s + "\n" else s;
    var pieces := SplitNewlines(text);
    (text, pieces[..|pieces| - 1])
  }

  /** Non-empty text has one line per newline, counting the one added at the end. */
  lemma NormalizedLineCount(s: string)
    requires s != ""
    ensures |NormalizeSourceString(s).1| == Newlines(s) + (if EndsWith(s, "\n") then 0 else 1)
  {
    if !EndsWith(s, "\n") {
      NewlinesAppend(s, "\n");
    }
  }

  /** Without carriage returns, splitting loses nothing: the pieces rejoin to the text. */
  lemma {:induction false} SplitNewlinesRejoins(t: string)
    requires '\r' !in t
    ensures var parts := SplitNewlines(t);
      JoinLines(parts[..|parts| - 1]) + parts[|parts| - 1] == t
    decreases |t|
  {
    if |t| > 0 {
      assert '\r' !in t[1..] by {
        forall i | 0 <= i < |t[1..]| ensures t[1..][i] != '\r' { assert t[1..][i] == t[i + 1]; }
      }
      SplitNewlinesRejoins(t[1..]);
      var rest := SplitNewlines(t[1..]);
      var parts := SplitNewlines(t);
      if t[0] == '\n' {
        assert parts[..|parts| - 1] == [""] + rest[..|rest| - 1];
        assert t == "\n" + t[1..];
      } else if |rest| == 1 {
        assert parts == [[t[0]] + rest[0]];
        assert t == [t[0]] + t[1..];
      } else {
        var init := rest[..|rest| - 1];
        assert parts[..|parts| - 1] == [[t[0]] + rest[0]] + rest[1..|rest| - 1];
        assert JoinLines(init) == rest[0] + "\n" + JoinLines(init[1..]);
        assert init[1..] == rest[1..|rest| - 1];
        assert t == [t[0]] + t[1..];
      }
    }
  }

  /** Without carriage returns, the normalised lines rejoin to the normalised text. */
  lemma NormalizeRoundTrip(s: string)
    requires '\r' !in s
    ensures JoinLines(NormalizeSourceString(s).1) == NormalizeSourceString(s).0
  {
    var text := NormalizeSourceString(s).0;
    if s != "" {
      assert '\r' !in text by {
        if !EndsWith(s, "\n") {
          assert text == s + "\n";
        }
      }
      SplitNewlinesRejoins(text);
      var parts := SplitNewlines(text);
      var last := parts[|parts| - 1];
      var joined := JoinLines(parts[..|parts| - 1]);
      assert joined + last == text;
      LastCharOfConcat(joined, last);
      assert joined + last == joined;
    }
  }

  lemma LastCharOfConcat(a: string, b: string)
    ensures |b| > 0 ==> (a + b)[|a + b| - 1] == b[|b| - 1] && b[|b| - 1] in b
  {
  }

  // ---------------------------------------------------------------------
  // Syntax-highlighting gate
  // ---------------------------------------------------------------------

  /** No line is longer than `StyledMaxLineLen`. */
  predicate ShortLines(lines: seq<string>) {
    forall k :: 0 <= k < |lines| ==> |lines[k]| <= StyledMaxLineLen
  }

  /**
   * When `_get_enable_syntax_highlighting` answers yes: highlighting is
   * switched on, a non-zero line threshold is not exceeded on either side,
   * neither file exceeds the byte limit and no line is too long.
   */
  predicate HighlightingAffordable(
    enabled: bool, threshold: int,
    oldData: seq<bv8>, newData: seq<bv8>,
    oldLines: seq<string>, newLines: seq<string>)
  {
    && enabled
    && (threshold == 0 || (|oldLines| <= threshold && |newLines| <= threshold))
    && |oldData| <= StyledMaxLimitBytes && |newData| <= StyledMaxLimitBytes
    && ShortLines(oldLines) && ShortLines(newLines)
  }

  // ---------------------------------------------------------------------
  // Move information
  // ---------------------------------------------------------------------

  /** `(other_line, is_first_in_range)` for a moved line. */
  datatype MoveInfo = MoveInfo(otherLine: int, isFirst: bool)

  /** `_get_move_info`: where a line moved to or from, and whether it starts a move range. */
  function GetMoveInfo(lineNum: Option<int>, moved: map<int, int>): (r: Option<MoveInfo>)
    ensures r.None? <==> (lineNum.None? || lineNum.value == 0 || lineNum.value !in moved)
    ensures r.Some? ==> r.value.otherLine == moved[lineNum.value]
  {
    if lineNum.None? || lineNum.value == 0 || lineNum.value !in moved then None
    else
      var n := lineNum.value;
      var other := moved[n];
      Some(MoveInfo(other, n - 1 !in moved || other != moved[n - 1] + 1))
  }

  /**
   * In a move range — lines `a..b` moved to consecutive lines `t..` and line
   * `a - 1` not continuing it — exactly the first line starts the range.
   */
  lemma MoveRangeStartsOnce(moved: map<int, int>, a: int, b: int, t: int, line: int)
    requires 0 < a <= line <= b
    requires forall k :: a <= k <= b ==> k in moved && moved[k] == t + (k - a)
    requires a - 1 !in moved || moved[a - 1] != t - 1
    ensures GetMoveInfo(Some(line), moved) == Some(MoveInfo(t + (line - a), line == a))
  {
    if line > a {
      assert line - 1 in moved && moved[line - 1] == t + (line - 1 - a);
    }
  }

  // ---------------------------------------------------------------------
  // Indentation serialisation
  // ---------------------------------------------------------------------

  /** The display column after `c` when it starts at column `col`: tabs jump to the next tab stop. */
  function NextColumn(c: char, col: nat, tabSize: nat): nat
    requires tabSize > 0
  {
    if c == ' ' then col + 1
    else if c == '\t' then (col / tabSize + 1) * tabSize
    else col
  }

  /** `"&mdash;" * n`. */
  function Dashes(n: nat): (s: string)
    ensures |s| == 7 * n
  {
    if n == 0 then "" else Dashes(n - 1) + "&mdash;"
  }

  /** One step of `_serialize_indentation`: a space is `&gt;`, a tab as much of `------>|` as fits. */
  function IndentPiece(c: char, col: nat, tabSize: nat): (r: (string, nat))
    requires tabSize > 0
    ensures r.1 == NextColumn(c, col, tabSize)
  {
    if c == ' ' then ("&gt;", col + 1)
    else if c == '\t' then
      var inTabPos := col % tabSize;
      var arrow :=
        if inTabPos < tabSize - 1 then
          var dashes := if inTabPos < tabSize - 2 then tabSize - 2 - inTabPos else 0;
          (Dashes(dashes) + "&gt;", col + dashes + 1)
        else ("", col);
      (arrow.0 + "|", arrow.1 + 1)
    else ("", col)
  }

  /** One step of `_serialize_unindentation`: a space is `&lt;`, a tab as much of `|<------` as fits. */
  function UnindentPiece(c: char, col: nat, tabSize: nat): (r: (string, nat))
    requires tabSize > 0
    ensures r.1 == NextColumn(c, col, tabSize)
  {
    if c == ' ' then ("&lt;", col + 1)
    else if c == '\t' then
      var inTabPos := col % tabSize;
      if inTabPos < tabSize - 1 then
        var dashes := if inTabPos < tabSize - 2 then tabSize - 2 - inTabPos else 0;
        ("|&lt;" + Dashes(dashes), col + 2 + dashes)
      else ("|", col + 1)
    else ("", col)
  }

  function Piece(c: char, col: nat, tabSize: nat, indent: bool): (r: (string, nat))
    requires tabSize > 0
    ensures r.1 == NextColumn(c, col, tabSize)
  {
    if indent then IndentPiece(c, col, tabSize) else UnindentPiece(c, col, tabSize)
  }

  /** The display column reached after the characters `cs`, starting at column 0. */
  function ColumnAfter(cs: string, tabSize: nat): nat
    requires tabSize > 0
  {
    if |cs| == 0 then 0 else NextColumn(cs[|cs| - 1], ColumnAfter(cs[..|cs| - 1], tabSize), tabSize)
  }

  /** The markup the serialiser emits for the characters `cs`. */
  function Rendered(cs: string, tabSize: nat, indent: bool): string
    requires tabSize > 0
  {
    if |cs| == 0 then ""
    else Rendered(cs[..|cs| - 1], tabSize, indent) + Piece(cs[|cs| - 1], ColumnAfter(cs[..|cs| - 1], tabSize), tabSize, indent).0
  }

  /** One more character extends the markup by its piece and moves the column past it. */
  lemma RenderedStep(chars: string, k: nat, tabSize: nat, indent: bool)
    requires tabSize > 0 && k < |chars|
    ensures var piece := Piece(chars[k], ColumnAfter(chars[..k], tabSize), tabSize, indent);
      && Rendered(chars[..k + 1], tabSize, indent) == Rendered(chars[..k], tabSize, indent) + piece.0
      && ColumnAfter(chars[..k + 1], tabSize) == piece.1
  {
    assert chars[..k + 1][..k] == chars[..k] && chars[..k + 1][k] == chars[k];
  }

  /** A tab always lands on the next tab stop past the current column. */
  lemma TabReachesTabStop(cs: string, tabSize: nat)
    requires tabSize > 0
    ensures var before := ColumnAfter(cs, tabSize);
      var col := ColumnAfter(cs + "\t", tabSize);
      col == (before / tabSize + 1) * tabSize && before < col <= before + tabSize
  {
    var c := ColumnAfter(cs, tabSize);
    var t := cs + "\t";
    assert t[..|t| - 1] == cs && t[|t| - 1] == '\t';
    assert ColumnAfter(t, tabSize) == NextColumn('\t', c, tabSize);
    NextTabStopBounds(c, tabSize);
  }

  /** The next tab stop lies past the column and at most one tab width away. */
  lemma NextTabStopBounds(c: nat, tabSize: nat)
    requires tabSize > 0
    ensures c < (c / tabSize + 1) * tabSize <= c + tabSize
  {
    var q := c / tabSize;
    var r := c % tabSize;
    assert c == q * tabSize + r && 0 <= r < tabSize;
    assert (q + 1) * tabSize == q * tabSize + tabSize;
  }

  /**
   * The number of characters the serialiser consumes: the first prefix
   * length, from `k` on, whose column reaches `diff`, or all of them.
   */
  function StopAt(chars: string, diff: int, tabSize: nat, k: nat): (r: nat)
    requires tabSize > 0 && 1 <= k <= |chars|
    ensures k <= r <= |chars|
    ensures r == |chars| || ColumnAfter(chars[..r], tabSize) >= diff
    ensures forall m :: k <= m < r ==> ColumnAfter(chars[..m], tabSize) < diff
    decreases |chars| - k
  {
    if k == |chars| || ColumnAfter(chars[..k], tabSize) >= diff then k
    else StopAt(chars, diff, tabSize, k + 1)
  }

  /** The consumed count is determined by where the column first reaches `diff`. */
  lemma {:induction false} StopAtIsFirstReach(chars: string, diff: int, tabSize: nat, k: nat, n: nat)
    requires tabSize > 0 && 1 <= k <= n <= |chars|
    requires forall m :: k <= m < n ==> ColumnAfter(chars[..m], tabSize) < diff
    requires n == |chars| || ColumnAfter(chars[..n], tabSize) >= diff
    ensures StopAt(chars, diff, tabSize, k) == n
    decreases n - k
  {
    if k < n {
      StopAtIsFirstReach(chars, diff, tabSize, k + 1, n);
    }
  }

  /**
   * `_serialize_indentation` (`indent`) or `_serialize_unindentation`:
   * the markup for the consumed characters and the unconsumed remainder.
   */
  function Serialization(chars: string, diff: int, tabSize: nat, indent: bool): (r: (string, string))
    requires tabSize > 0 && |chars| >= 1
    ensures |r.1| < |chars| && r.1 == chars[|chars| - |r.1|..]
    ensures r.0 == Rendered(chars[..|chars| - |r.1|], tabSize, indent)
  {
    var n := StopAt(chars, diff, tabSize, 1);
    (Rendered(chars[..n], tabSize, indent), chars[n..])
  }

  /**
   * The serialiser stops right after the first character at which the
   * column reaches `diff`, or at the end of the characters.
   */
  lemma SerializationStops(chars: string, diff: int, tabSize: nat, indent: bool)
    requires tabSize > 0 && |chars| >= 1
    ensures var n := |chars| - |Serialization(chars, diff, tabSize, indent).1|;
      && 1 <= n
      && (n == |chars| || ColumnAfter(chars[..n], tabSize) >= diff)
      && (forall m :: 1 <= m < n ==> ColumnAfter(chars[..m], tabSize) < diff)
  {
  }

  // ---------------------------------------------------------------------
  // Wrapping indentation in markup
  // ---------------------------------------------------------------------

  /** `s.find(c, from)`: the first index at or after `from` holding `c`, or -1. */
  function FindChar(s: string, c: char, from: nat): (r: int)
    ensures r == -1 || (from <= r < |s| && s[r] == c)
    ensures forall k :: from <= k < |s| && (r == -1 || k < r) ==> s[k] != c
    decreases |s| - from
  {
    if from >= |s| then -1 else if s[from] == c then from else FindChar(s, c, from + 1)
  }

  /** Where the text of a line's markup starts, past any leading tags. */
  function TextStart(markup: string, pos: nat): (r: Result<nat, ChunkError>)
    ensures r.Success? ==> pos <= r.value < |markup| && markup[r.value] != '<'
    decreases |markup| - pos
  {
    if pos >= |markup| then Failure(IndexError)
    else if markup[pos] != '<' then Success(pos)
    else
      var close := FindChar(markup, '>', pos + 1);
      if close == -1 then Failure(AssertionError)
      else TextStart(markup, close + 1)
  }

  function Min(a: int, b: int): int { if a < b then a else b }

  /** `<span class="...">inner</span>`. */
  function Span(className: string, inner: string): string {
    "<span class=\"" + className + "\">" + inner + "</span>"
  }

  /** The markup with `markup[start..end]` replaced by the serialised span and the remainder. */
  function Spliced(markup: string, start: nat, end: nat, className: string, ser: (string, string)): string
    requires start <= end <= |markup|
  {
    markup[..start] + Span(className, ser.0) + ser.1 + markup[end..]
  }

  /**
   * `_wrap_indentation_chars`: wraps the serialised indentation that
   * follows any leading tags in a span; markup whose indentation holds
   * anything but whitespace is left alone.
   */
  function WrapIndentation(className: string, markup: string, rawIndentLen: nat, diff: int, tabSize: nat, indent: bool)
    : Result<string, ChunkError>
    requires tabSize > 0
  {
    var textStart := TextStart(markup, 0);
    if textStart.Failure? then Failure(textStart.error)
    else WrapAt(className, markup, textStart.value, rawIndentLen, diff, tabSize, indent)
  }

  /** Wrapping once the text start is known. */
  function WrapAt(className: string, markup: string, start: nat, rawIndentLen: nat, diff: int, tabSize: nat, indent: bool)
    : Result<string, ChunkError>
    requires tabSize > 0 && start <= |markup|
  {
    var end := Min(start + rawIndentLen, |markup|);
    var indentation := markup[start..end];
    if Strip(indentation) != "" then Success(markup)
    else if |indentation| == 0 then Failure(AssertionError)
    else Success(Spliced(markup, start, end, className, Serialization(indentation, diff, tabSize, indent)))
  }

  /**
   * Wrapping replaces only the consumed whitespace: the markup before the
   * text start and everything after the consumed characters are kept.
   */
  lemma WrapKeepsSurroundings(className: string, markup: string, start: nat, rawIndentLen: nat, diff: int, tabSize: nat, indent: bool)
    returns (n: nat)
    requires tabSize > 0 && start <= |markup|
    requires WrapAt(className, markup, start, rawIndentLen, diff, tabSize, indent).Success?
    ensures var r := WrapAt(className, markup, start, rawIndentLen, diff, tabSize, indent).value;
      || r == markup
      || (&& start < n <= |markup|
          && r == Spliced(markup, start, n, className, (Rendered(markup[start..n], tabSize, indent), "")))
  {
    n := 0;
    var end := Min(start + rawIndentLen, |markup|);
    var indentation := markup[start..end];
    if Strip(indentation) == "" && |indentation| > 0 {
      var ser := Serialization(indentation, diff, tabSize, indent);
      n := start + |indentation| - |ser.1|;
      SplicedKeeps(markup, start, end, n, className, ser, tabSize, indent);
    }
  }

  lemma SplicedKeeps(markup: string, start: nat, end: nat, n: nat, className: string, ser: (string, string), tabSize: nat, indent: bool)
    requires tabSize > 0
    requires start < n <= end <= |markup|
    requires ser.1 == markup[start..end][n - start..]
    requires ser.0 == Rendered(markup[start..end][..n - start], tabSize, indent)
    ensures Spliced(markup, start, end, className, ser)
      == Spliced(markup, start, n, className, (Rendered(markup[start..n], tabSize, indent), ""))
  {
    assert markup[start..end][..n - start] == markup[start..n];
    assert ser.1 + markup[end..] == markup[n..];
  }

  // ---------------------------------------------------------------------
  // One side-by-side row
  // ---------------------------------------------------------------------

  /** An indentation change recorded by the differ: `(is_indent, raw_indent_len, norm_indent_len_diff)`. */
  datatype IndentChange = IndentChange(isIndent: bool, rawIndentLen: nat, normIndentLenDiff: int)

  /** The metadata the differ attaches to an opcode. */
  datatype OpcodeMeta = OpcodeMeta(
    indentationChanges: map<(int, int), IndentChange>,  // keyed "old-new" in the source
    movedTo: map<int, int>,
    movedFrom: map<int, int>,
    whitespaceLines: set<(Option<int>, Option<int>)>)

  /** The moved-line metadata of a row (`line_meta`). */
  datatype LineMeta = LineMeta(to: Option<MoveInfo>, from: Option<MoveInfo>)

  type Regions = seq<(nat, nat)>

  /** A `DiffLine` tuple. */
  datatype DiffLine = DiffLine(
    vLineNum: int,
    oldLineNum: Option<int>,
    oldMarkup: string,
    oldRegions: Option<Regions>,
    newLineNum: Option<int>,
    newMarkup: string,
    newRegions: Option<Regions>,
    whitespaceOnly: bool,
    lineMeta: Option<LineMeta>)

  /** The row condition under which changed regions are computed. */
  predicate RegionsWanted(tag: Tag, oldLine: Option<string>, newLine: Option<string>) {
    && tag == Replace
    && oldLine.Some? && newLine.Some?
    && |oldLine.value| > 0 && |newLine.value| > 0
    && |oldLine.value| <= StyledMaxLineLen && |newLine.value| <= StyledMaxLineLen
    && oldLine.value != newLine.value
  }

  /** The indentation change that applies to a row, if any. */
  function IndentationChangeFor(meta: OpcodeMeta, oldNum: Option<int>, newNum: Option<int>): (r: Option<IndentChange>)
    ensures r.Some? ==> oldNum.Some? && newNum.Some? && (r.value.rawIndentLen, r.value.normIndentLenDiff) != (0, 0)
  {
    if oldNum.Some? && newNum.Some? && (oldNum.value, newNum.value) in meta.indentationChanges then
      var change := meta.indentationChanges[(oldNum.value, newNum.value)];
      if (change.rawIndentLen, change.normIndentLenDiff) != (0, 0) then Some(change) else None
    else None
  }

  /** `_highlight_indentation`: an indent marks the new side, an unindent the old side. */
  function HighlightIndentation(oldMarkup: string, newMarkup: string, change: IndentChange, tabSize: nat)
    : (r: Result<(string, string), ChunkError>)
    requires tabSize > 0
    ensures r.Success? && change.isIndent ==> r.value.0 == oldMarkup
    ensures r.Success? && !change.isIndent ==> r.value.1 == newMarkup
  {
    if change.isIndent then
      var m :- WrapIndentation("indent", newMarkup, change.rawIndentLen, change.normIndentLenDiff, tabSize, true);
      Success((oldMarkup, m))
    else
      var m :- WrapIndentation("unindent", oldMarkup, change.rawIndentLen, change.normIndentLenDiff, tabSize, false);
      Success((m, newMarkup))
  }

  function OrEmpty(s: Option<string>): string {
    if s.Some? then s.value else ""
  }

  /**
   * `_diff_line`: the row for one pair of old and new lines. Regions come
   * from `regions` (the line differ) and only for rows that want them.
   */
  function MakeDiffLine(
    tag: Tag, meta: OpcodeMeta, vLineNum: int,
    oldNum: Option<int>, newNum: Option<int>,
    oldLine: Option<string>, newLine: Option<string>,
    oldMarkup: Option<string>, newMarkup: Option<string>,
    tabSize: nat, regions: (string, string) -> (Regions, Regions)): (r: Result<DiffLine, ChunkError>)
    requires tabSize > 0
    ensures var change := IndentationChangeFor(meta, oldNum, newNum);
      r.Failure? <==>
        (change.Some? && HighlightIndentation(OrEmpty(oldMarkup), OrEmpty(newMarkup), change.value, tabSize).Failure?)
    ensures var change := IndentationChangeFor(meta, oldNum, newNum);
      r.Success? && change.Some? ==>
        (r.value.oldMarkup, r.value.newMarkup) ==
          HighlightIndentation(OrEmpty(oldMarkup), OrEmpty(newMarkup), change.value, tabSize).value
    ensures r.Success? && RegionsWanted(tag, oldLine, newLine) ==>
      var rg := regions(oldLine.value, newLine.value);
      r.value.oldRegions == Some(rg.0) && r.value.newRegions == Some(rg.1)
    ensures r.Success? && r.value.lineMeta.Some? ==>
      r.value.lineMeta.value == LineMeta(GetMoveInfo(oldNum, meta.movedTo), GetMoveInfo(newNum, meta.movedFrom))
    ensures r.Success? ==>
      && r.value.vLineNum == vLineNum
      && r.value.oldLineNum == oldNum && r.value.newLineNum == newNum
      && (r.value.oldRegions.Some? <==> RegionsWanted(tag, oldLine, newLine))
      && (r.value.newRegions.Some? <==> RegionsWanted(tag, oldLine, newLine))
      && (r.value.whitespaceOnly <==> (oldNum, newNum) in meta.whitespaceLines)
      && (IndentationChangeFor(meta, oldNum, newNum).None? ==>
            r.value.oldMarkup == OrEmpty(oldMarkup) && r.value.newMarkup == OrEmpty(newMarkup))
      && (r.value.lineMeta.None? <==>
            GetMoveInfo(oldNum, meta.movedTo).None? && GetMoveInfo(newNum, meta.movedFrom).None?)
  {
    var changed :=
      if RegionsWanted(tag, oldLine, newLine) then
        var rg := regions(oldLine.value, newLine.value);
        (Some(rg.0), Some(rg.1))
      else (None, None);
    var change := IndentationChangeFor(meta, oldNum, newNum);
    var markups :-
      if change.Some? then HighlightIndentation(OrEmpty(oldMarkup), OrEmpty(newMarkup), change.value, tabSize)
      else Success((OrEmpty(oldMarkup), OrEmpty(newMarkup)));
    var to := GetMoveInfo(oldNum, meta.movedTo);
    var from := GetMoveInfo(newNum, meta.movedFrom);
    Success(DiffLine(
      vLineNum, oldNum, markups.0, changed.0, newNum, markups.1, changed.1,
      (oldNum, newNum) in meta.whitespaceLines,
      if to.None? && from.None? then None else Some(LineMeta(to, from))))
  }
}
