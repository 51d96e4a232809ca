/** The advisory documents (`backend/src/advisory.rs`). Formatted dates are opaque one-line strings. */
module Advisory {
  import opened Text

  // ---- Tables ----------------------------------------------------------------------------------

  function Spaces(n: nat): (s: string)
    ensures |s| == n && OneLine(s) && forall i :: 0 <= i < n ==> s[i] == ' '
  {
    if n == 0 then "" else " " + Spaces(n - 1)
  }

  function Wider(width: nat, cell: string): nat {
    if |cell| < width then width else |cell|
  }

  /** Padded on the right to at least `width` characters. */
  function Pad(cell: string, width: nat): (s: string)
    ensures |s| == Wider(width, cell) && cell <= s
  {
    cell + Spaces(Wider(width, cell) - |cell|)
  }

  /** One line of a table: every cell but the last padded to its column. */
  function TableLine(cells: seq<string>, widths: seq<nat>): string
    requires |cells| == |widths| + 1
  {
    if widths == [] then Collapse(cells[0])
    else Pad(Collapse(cells[0]), widths[0]) + TableLine(cells[1..], widths[1..])
  }

  function Dashes(n: nat): (s: string)
    ensures |s| == n && forall i :: 0 <= i < n ==> s[i] == '-'
  {
    if n == 0 then "" else "-" + Dashes(n - 1)
  }

  /** Under each heading, dashes as long as it is. */
  function Rule(headings: seq<string>): (r: seq<string>)
    ensures |r| == |headings|
    ensures forall i :: 0 <= i < |r| ==> |r[i]| == |headings[i]| && forall k :: 0 <= k < |r[i]| ==> r[i][k] == '-'
  {
    if headings == [] then [] else [Dashes(|headings[0]|)] + Rule(headings[1..])
  }

  predicate Fits(rows: seq<seq<string>>, widths: seq<nat>) {
    forall i :: 0 <= i < |rows| ==> |rows[i]| == |widths| + 1
  }

  function TableRows(rows: seq<seq<string>>, widths: seq<nat>): (lines: seq<string>)
    requires Fits(rows, widths)
    ensures |lines| == |rows|
    ensures forall i :: 0 <= i < |rows| ==> lines[i] == TableLine(rows[i], widths)
  {
    if rows == [] then [] else [TableLine(rows[0], widths)] + TableRows(rows[1..], widths)
  }

  function Table(headings: seq<string>, widths: seq<nat>, rows: seq<seq<string>>): (lines: seq<string>)
    requires |headings| == |widths| + 1 && Fits(rows, widths)
    ensures |lines| == 2 + |rows|
  {
    TableRows([headings, Rule(headings)] + rows, widths)
  }

  method PrintLine(cells: seq<string>, widths: seq<nat>) returns (out: string)
    requires |cells| == |widths| + 1
    ensures out == TableLine(cells, widths)
  {
    hide TableLine, Collapse, Pad;
    out := "";
    assert cells[0..] == cells && widths[0..] == widths;
    for i := 0 to |cells|
      invariant out + Rest(cells, widths, i) == TableLine(cells, widths)
    {
      var cell := Collapse(cells[i]);
      RestStep(cells, widths, i);
      ghost var before := out;
      if i + 1 == |cells| {
        out := out + cell;
      } else {
        out := out + Pad(cell, widths[i]);
        assert before + (Pad(cell, widths[i]) + Rest(cells, widths, i + 1)) == out + Rest(cells, widths, i + 1);
      }
    }
  }

  /** What is still to print from cell `i` on. */
  ghost function Rest(cells: seq<string>, widths: seq<nat>, i: nat): string
    requires |cells| == |widths| + 1 && i <= |cells|
  {
    if i < |cells| then TableLine(cells[i..], widths[i..]) else ""
  }

  lemma RestStep(cells: seq<string>, widths: seq<nat>, i: nat)
    requires |cells| == |widths| + 1 && i < |cells|
    ensures Rest(cells, widths, i)
            == if i + 1 == |cells| then Collapse(cells[i]) else Pad(Collapse(cells[i]), widths[i]) + Rest(cells,
              widths, i + 1)
  {
    hide Collapse, Pad;
    if i + 1 < |cells| {
      assert cells[i..][1..] == cells[i + 1..] && widths[i..][1..] == widths[i + 1..];
    }
  }

  method PrintTable(headings: seq<string>, widths: seq<nat>, rows: seq<seq<string>>) returns (out: seq<string>)
    requires |headings| == |widths| + 1 && Fits(rows, widths)
    ensures out == Table(headings, widths, rows)
  {
    hide TableLine, Rule;
    ghost var all := [headings, Rule(headings)] + rows;
    var heading := PrintLine(headings, widths);
    var rule := PrintLine(Rule(headings), widths);
    out := [heading, rule];
    assert all[0] == headings && all[1] == Rule(headings);
    for i := 0 to |rows|
      invariant |out| == 2 + i
      invariant forall k :: 0 <= k < |out| ==> out[k] == TableLine(all[k], widths)
    {
      assert all[2 + i] == rows[i];
      var line := PrintLine(rows[i], widths);
      out := out + [line];
    }
  }

  // ---- Alignment -------------------------------------------------------------------------------

  /** Where column `k` should start. */
  function Offset(widths: seq<nat>, k: nat): nat
    requires k <= |widths|
  {
    if k == 0 then 0 else widths[0] + Offset(widths[1..], k - 1)
  }

  /** Where column `k` of a line does start. */
  function Start(cells: seq<string>, widths: seq<nat>, k: nat): nat
    requires |cells| == |widths| + 1 && k <= |widths|
  {
    if k == 0 then 0 else Wider(widths[0], Collapse(cells[0])) + Start(cells[1..], widths[1..], k - 1)
  }

  lemma {:induction false} CellIsAtStart(cells: seq<string>, widths: seq<nat>, k: nat)
    requires |cells| == |widths| + 1 && k <= |widths|
    ensures Start(cells, widths, k) + |Collapse(cells[k])| <= |TableLine(cells, widths)|
    ensures TableLine(cells, widths)[Start(cells, widths, k)..][..|Collapse(cells[k])|] == Collapse(cells[k])
  {
    hide Collapse;
    var line := TableLine(cells, widths);
    if widths != [] {
      var first, rest := Pad(Collapse(cells[0]), widths[0]), TableLine(cells[1..], widths[1..]);
      if k == 0 {
        assert line[0..][..|Collapse(cells[0])|] == Collapse(cells[0]);
      } else {
        CellIsAtStart(cells[1..], widths[1..], k - 1);
        var s := Start(cells[1..], widths[1..], k - 1);
        assert line[|first| + s..] == rest[s..];
      }
    }
  }

  /** No cell before column `k` is wider than its own column. */
  predicate FitsBefore(cells: seq<string>, widths: seq<nat>, k: nat)
    requires |cells| == |widths| + 1 && k <= |widths|
  {
    forall i :: 0 <= i < k ==> |Collapse(cells[i])| <= widths[i]
  }

  /** Column `k` starts where it should exactly when every cell before it fits its own column. */
  lemma {:induction false} AlignedIffFits(cells: seq<string>, widths: seq<nat>, k: nat)
    requires |cells| == |widths| + 1 && k <= |widths|
    ensures Start(cells, widths, k) >= Offset(widths, k)
    ensures Start(cells, widths, k) == Offset(widths, k) <==> FitsBefore(cells, widths, k)
  {
    hide Collapse;
    if k > 0 {
      AlignedIffFits(cells[1..], widths[1..], k - 1);
      if FitsBefore(cells[1..], widths[1..], k - 1) && |Collapse(cells[0])| <= widths[0] {
        forall i | 0 <= i < k ensures |Collapse(cells[i])| <= widths[i] {
          assert i > 0 ==> cells[i] == cells[1..][i - 1] && widths[i] == widths[1..][i - 1];
        }
      }
      if FitsBefore(cells, widths, k) {
        forall i | 0 <= i < k - 1 ensures |Collapse(cells[1..][i])| <= widths[1..][i] {
          assert |Collapse(cells[i + 1])| <= widths[i + 1];
        }
      }
    }
  }
}
