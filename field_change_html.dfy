/**
 * Rendering of the change entry of a text-area field as diffed table rows
 * (reviewboard/reviews/fields.py, BaseTextAreaField).
 */
module FieldChangeRendering {
  import opened Wrappers

  /** A differ opcode: the tag and the old [i1, i2) and new [j1, j2) line ranges. */
  datatype Opcode = Opcode(tag: string, i1: nat, i2: nat, j1: nat, j2: nat)

  /** The ranges of an opcode lie within the old and the new lines, as the differ produces them. */
  predicate InRange(op: Opcode, oldCount: nat, newCount: nat) {
    op.i1 <= op.i2 <= oldCount && op.j1 <= op.j2 <= newCount
  }

  const Blank := "&nbsp;"

  /** Rows that start with a given class attribute. */
  predicate HasClass(row: string, cls: string) {
    var prefix := "<tr class=\"" + cls + "\">";
    prefix <= row
  }

  /** One table row with its class, the old and new markers, and the line. */
  function Row(cls: string, oldMarker: string, newMarker: string, line: string): (row: string)
    ensures HasClass(row, cls)
  {
    var prefix := "<tr class=\"" + cls + "\">";
    var rest := " <td class=\"marker\">" + oldMarker + "</td> <td class=\"marker\">" +
      newMarker + "</td> <td class=\"line rich-text\">" + line + "</td></tr>";
    assert (prefix + rest)[..|prefix|] == prefix;
    prefix + rest
  }

  /** The rows of an equal, insert or delete range: one per line in [i1, i2). */
  function ChangeRows(tag: string, i1: nat, i2: nat, lines: seq<string>, oldMarker: string, newMarker: string): (rows: seq<string>)
    requires i1 <= i2 <= |lines|
    ensures |rows| == i2 - i1
    ensures forall k :: 0 <= k < |rows| ==> HasClass(rows[k], tag)
  {
    var rows := seq(i2 - i1, k requires 0 <= k < i2 - i1 => Row(tag, oldMarker, newMarker, lines[i1 + k]));
    assert forall k :: 0 <= k < |rows| ==> rows[k] == Row(tag, oldMarker, newMarker, lines[i1 + k]);
    rows
  }

  /**
   * The rows of a replace range: the paired old lines as "replace-old" rows, then the paired
   * new lines as "replace-new" rows. `highlight` marks the changed regions of a pair.
   */
  function ReplaceRows(i1: nat, i2: nat, j1: nat, j2: nat, oldLines: seq<string>, newLines: seq<string>,
                       highlight: (string, string) -> (string, string)): (rows: seq<string>)
    requires i1 <= i2 <= |oldLines| && j1 <= j2 <= |newLines|
    ensures var n := if i2 - i1 < j2 - j1 then i2 - i1 else j2 - j1;
      |rows| == 2 * n &&
      (forall k :: 0 <= k < n ==> HasClass(rows[k], "replace-old")) &&
      (forall k :: n <= k < 2 * n ==> HasClass(rows[k], "replace-new"))
  {
    var n := if i2 - i1 < j2 - j1 then i2 - i1 else j2 - j1;
    var olds := seq(n, k requires 0 <= k < n => Row("replace-old", "~", Blank, highlight(oldLines[i1 + k], newLines[j1 + k]).0));
    var news := seq(n, k requires 0 <= k < n => Row("replace-new", Blank, "~", highlight(oldLines[i1 + k], newLines[j1 + k]).1));
    assert forall k :: 0 <= k < n ==> olds[k] == Row("replace-old", "~", Blank, highlight(oldLines[i1 + k], newLines[j1 + k]).0);
    assert forall k :: 0 <= k < n ==> news[k] == Row("replace-new", Blank, "~", highlight(oldLines[i1 + k], newLines[j1 + k]).1);
    assert forall k :: n <= k < 2 * n ==> (olds + news)[k] == news[k - n];
    olds + news
  }

  /** The rows of one opcode, or the ValueError of an unknown tag. */
  function OpcodeRows(op: Opcode, oldLines: seq<string>, newLines: seq<string>,
                      highlight: (string, string) -> (string, string)): (r: Result<seq<string>, string>)
    requires InRange(op, |oldLines|, |newLines|)
    ensures r.Failure? <==> op.tag !in {"equal", "insert", "delete", "replace"}
    ensures r.Failure? ==> r.error == "Unexpected tag \"" + op.tag + "\""
  {
    if op.tag == "equal" then Success(ChangeRows(op.tag, op.i1, op.i2, oldLines, Blank, Blank))
    else if op.tag == "insert" then Success(ChangeRows(op.tag, op.j1, op.j2, newLines, Blank, "+"))
    else if op.tag == "delete" then Success(ChangeRows(op.tag, op.i1, op.i2, oldLines, "-", Blank))
    else if op.tag == "replace" then Success(ReplaceRows(op.i1, op.i2, op.j1, op.j2, oldLines, newLines, highlight))
    else Failure("Unexpected tag \"" + op.tag + "\"")
  }

  /** How many rows each opcode contributes. */
  lemma OpcodeRowCounts(op: Opcode, oldLines: seq<string>, newLines: seq<string>,
                        highlight: (string, string) -> (string, string))
    requires InRange(op, |oldLines|, |newLines|)
    requires op.tag in {"equal", "insert", "delete", "replace"}
    ensures var rows := OpcodeRows(op, oldLines, newLines, highlight).value;
      |rows| == (if op.tag == "equal" || op.tag == "delete" then op.i2 - op.i1
                 else if op.tag == "insert" then op.j2 - op.j1
                 else 2 * (if op.i2 - op.i1 < op.j2 - op.j1 then op.i2 - op.i1 else op.j2 - op.j1))
  {
  }

  /** The rows of a whole opcode list, or the error of its first unknown tag. */
  function AllRows(ops: seq<Opcode>, oldLines: seq<string>, newLines: seq<string>,
                   highlight: (string, string) -> (string, string)): Result<seq<string>, string>
    requires forall k :: 0 <= k < |ops| ==> InRange(ops[k], |oldLines|, |newLines|)
    decreases |ops|
  {
    if |ops| == 0 then Success([])
    else
      var init := AllRows(ops[..|ops| - 1], oldLines, newLines, highlight);
      if init.Failure? then init
      else
        var last := OpcodeRows(ops[|ops| - 1], oldLines, newLines, highlight);
        if last.Failure? then Failure(last.error) else Success(init.value + last.value)
  }

  /** Rendering fails exactly when some opcode has an unknown tag. */
  lemma {:induction false} AllRowsFailure(ops: seq<Opcode>, oldLines: seq<string>, newLines: seq<string>,
                                          highlight: (string, string) -> (string, string))
    requires forall k :: 0 <= k < |ops| ==> InRange(ops[k], |oldLines|, |newLines|)
    ensures AllRows(ops, oldLines, newLines, highlight).Failure? <==>
      exists k :: 0 <= k < |ops| && ops[k].tag !in {"equal", "insert", "delete", "replace"}
    decreases |ops|
  {
    if |ops| > 0 {
      var init := ops[..|ops| - 1];
      AllRowsFailure(init, oldLines, newLines, highlight);
      assert forall k :: 0 <= k < |init| ==> init[k] == ops[k];
      var _ := OpcodeRows(ops[|ops| - 1], oldLines, newLines, highlight);
    }
  }

  /** `_render_change_lines`: yields one row per line in [i1, i2). */
  method RenderChangeLines(tag: string, i1: nat, i2: nat, lines: seq<string>, oldMarker: string, newMarker: string)
    returns (rows: seq<string>)
    requires i1 <= i2 <= |lines|
    ensures rows == ChangeRows(tag, i1, i2, lines, oldMarker, newMarker)
  {
    rows := [];
    var i := i1;
    while i < i2
      invariant i1 <= i <= i2
      invariant rows == ChangeRows(tag, i1, i, lines, oldMarker, newMarker)
    {
      rows := rows + [Row(tag, oldMarker, newMarker, lines[i])];
      i := i + 1;
    }
  }

  /** `_render_change_replace_lines`: old rows as pairs are read, new rows collected and emitted after. */
  method RenderChangeReplaceLines(i1: nat, i2: nat, j1: nat, j2: nat, oldLines: seq<string>, newLines: seq<string>,
                                  highlight: (string, string) -> (string, string))
    returns (rows: seq<string>)
    requires i1 <= i2 <= |oldLines| && j1 <= j2 <= |newLines|
    ensures rows == ReplaceRows(i1, i2, j1, j2, oldLines, newLines, highlight)
  {
    var n := if i2 - i1 < j2 - j1 then i2 - i1 else j2 - j1;
    var oldRows: seq<string> := [];
    var replaceNewLines: seq<string> := [];
    var k := 0;
    while k < n
      invariant 0 <= k <= n
      invariant oldRows == seq(k, m requires 0 <= m < k => Row("replace-old", "~", Blank, highlight(oldLines[i1 + m], newLines[j1 + m]).0))
      invariant replaceNewLines == seq(k, m requires 0 <= m < k => highlight(oldLines[i1 + m], newLines[j1 + m]).1)
    {
      var (oldLine, newLine) := highlight(oldLines[i1 + k], newLines[j1 + k]);
      oldRows := oldRows + [Row("replace-old", "~", Blank, oldLine)];
      replaceNewLines := replaceNewLines + [newLine];
      k := k + 1;
    }
    rows := oldRows;
    var m := 0;
    while m < |replaceNewLines|
      invariant 0 <= m <= |replaceNewLines|
      invariant rows == oldRows + seq(m, p requires 0 <= p < m => Row("replace-new", Blank, "~", replaceNewLines[p]))
    {
      rows := rows + [Row("replace-new", Blank, "~", replaceNewLines[m])];
      m := m + 1;
    }
  }

  /** `_render_all_change_lines`: the rows of every opcode in order; an unknown tag is a ValueError. */
  method RenderAllChangeLines(ops: seq<Opcode>, oldLines: seq<string>, newLines: seq<string>,
                              highlight: (string, string) -> (string, string))
    returns (result: Result<seq<string>, string>)
    requires forall k :: 0 <= k < |ops| ==> InRange(ops[k], |oldLines|, |newLines|)
    ensures result == AllRows(ops, oldLines, newLines, highlight)
  {
    var rows: seq<string> := [];
    var k := 0;
    while k < |ops|
      invariant 0 <= k <= |ops|
      invariant AllRows(ops[..k], oldLines, newLines, highlight) == Success(rows)
    {
      var op := ops[k];
      assert ops[..k + 1][..k] == ops[..k];
      var opRows: seq<string>;
      if op.tag == "equal" {
        opRows := RenderChangeLines(op.tag, op.i1, op.i2, oldLines, Blank, Blank);
      } else if op.tag == "insert" {
        opRows := RenderChangeLines(op.tag, op.j1, op.j2, newLines, Blank, "+");
      } else if op.tag == "delete" {
        opRows := RenderChangeLines(op.tag, op.i1, op.i2, oldLines, "-", Blank);
      } else if op.tag == "replace" {
        opRows := RenderChangeReplaceLines(op.i1, op.i2, op.j1, op.j2, oldLines, newLines, highlight);
      } else {
        assert ops[..k + 1] == ops[..k] + [op];
        AllRowsPrefixFailure(ops, k + 1, oldLines, newLines, highlight);
        return Failure("Unexpected tag \"" + op.tag + "\"");
      }
      rows := rows + opRows;
      k := k + 1;
    }
    assert ops[..|ops|] == ops;
    result := Success(rows);
  }

  /** A failure in a prefix is the failure of the whole list. */
  lemma {:induction false} AllRowsPrefixFailure(ops: seq<Opcode>, n: nat, oldLines: seq<string>, newLines: seq<string>,
                                                highlight: (string, string) -> (string, string))
    requires n <= |ops|
    requires forall k :: 0 <= k < |ops| ==> InRange(ops[k], |oldLines|, |newLines|)
    requires AllRows(ops[..n], oldLines, newLines, highlight).Failure?
    ensures AllRows(ops, oldLines, newLines, highlight) == AllRows(ops[..n], oldLines, newLines, highlight)
    decreases |ops| - n
  {
    if n < |ops| {
      assert ops[..n + 1][..n] == ops[..n];
      AllRowsPrefixFailure(ops, n + 1, oldLines, newLines, highlight);
    } else {
      assert ops[..n] == ops;
    }
  }
}
