/** The table viewer's typesetting: column widths, which columns are numbers, and the padded and
    escaped text of each cell. Reading a number is a parameter, because float syntax is not part
    of this model. */
module Csv {
  import opened Wrappers
  import opened Text

  type Record = seq<string>

  const PILCROW := '\U{B6}'
  const ELLIPSIS := '\U{2026}'
  const NBSP := '\U{A0}'

  // ---- one cell ----

  /** `cell` with every line break shown as a pilcrow and every tab as a space. */
  function Flat(cell: string): string {
    if cell == "" then ""
    else if |cell| > 1 && cell[0] == '\r' && cell[1] == '\n' then [PILCROW] + Flat(cell[2..])
    else if cell[0] == '\n' || cell[0] == '\r' then [PILCROW] + Flat(cell[1..])
    else if cell[0] == '\t' then " " + Flat(cell[1..])
    else [cell[0]] + Flat(cell[1..])
  }

  function Display(cell: string, cap: nat): string {
    var flat := Flat(cell);
    if |flat| <= cap then flat else flat[..if cap == 0 then 0 else cap - 1] + [ELLIPSIS]
  }

  function Fill(n: nat): (r: string)
    ensures |r| == n && forall i :: 0 <= i < n ==> r[i] == '\U{A0}'
  {
    seq(n, _ => NBSP)
  }

  function Pad(s: string, width: nat, right: bool): string {
    if |s| >= width then s
    else if right then Fill(width - |s|) + s
    else s + Fill(width - |s|)
  }

  /** A shown cell is one line, and no wider than the cap exactly when the cap leaves room for the
      ellipsis or there is nothing to show. */
  lemma DisplayFits(cell: string, cap: nat)
    ensures '\n' !in Display(cell, cap) && '\r' !in Display(cell, cap) && '\t' !in Display(cell, cap)
    ensures |Display(cell, cap)| <= cap <==> cap >= 1 || cell == ""
    ensures |Flat(cell)| <= cap ==> Display(cell, cap) == Flat(cell)
    ensures cap >= 1 && |Flat(cell)| > cap ==> Display(cell, cap) == Flat(cell)[..cap - 1] + ['\U{2026}']
    ensures cap == 0 && cell != "" ==> Display(cell, cap) == ['\U{2026}']
  {
    FlatIsOneLine(cell);
  }

  /** Flattening shows each line break, whichever of the three kinds, as one pilcrow and each tab as a
      space, and leaves every other character. */
  lemma FlatOne(c: char)
    ensures Flat([c]) == (if c == '\n' || c == '\r' then ['\U{B6}'] else if c == '\t' then " " else [c])
    ensures Flat("\r\n") == ['\U{B6}'] && Flat("") == ""
  {
    assert "\r\n"[2..] == "" && [c][1..] == "";
  }

  /** The first character or break of a text, flattened, and the rest after it. */
  lemma FlatStep(s: string)
    requires s != ""
    ensures if |s| > 1 && s[0] == '\r' && s[1] == '\n' then Flat(s) == Flat("\r\n") + Flat(s[2..]) else Flat(s) == Flat([s[0]]) + Flat(s[1..])
  {
    FlatOne(s[0]);
  }

  /** It goes piece by piece, as long as no break is cut in two. */
  lemma {:induction false} FlatAppend(a: string, b: string)
    requires a == "" || b == "" || a[|a| - 1] != '\r' || b[0] != '\n'
    ensures Flat(a + b) == Flat(a) + Flat(b)
    decreases |a|
  {
    hide Flat;
    var s := a + b;
    if a == "" {
      FlatOne(' ');
      assert s == b;
    } else {
      FlatStep(a);
      FlatStep(s);
      if |a| > 1 && a[0] == '\r' && a[1] == '\n' {
        assert s[2..] == a[2..] + b;
        FlatAppend(a[2..], b);
      } else {
        assert s[1..] == a[1..] + b;
        FlatAppend(a[1..], b);
      }
    }
  }

  lemma DisplayNothing(cap: nat)
    ensures Display("", cap) == ""
  {
  }

  lemma {:induction false} FlatIsOneLine(cell: string)
    ensures '\n' !in Flat(cell) && '\r' !in Flat(cell) && '\t' !in Flat(cell)
    ensures Flat(cell) == "" <==> cell == ""
    decreases |cell|
  {
    if cell == "" {
    } else if |cell| > 1 && cell[0] == '\r' && cell[1] == '\n' {
      FlatIsOneLine(cell[2..]);
    } else {
      FlatIsOneLine(cell[1..]);
    }
  }

  // ---- the layout of a whole table ----

  datatype Layout = Layout(widths: seq<nat>, numeric: seq<bool>)

  /** The cells that decide column `j`: every record long enough to reach it. */
  predicate Reaches(records: seq<Record>, i: int, j: int) {
    0 <= i < |records| && 0 <= j < |records[i]|
  }

  /** A cell below the header with something in it. */
  predicate IsBody(records: seq<Record>, i: int, j: int) {
    i > 0 && Reaches(records, i, j) && Trim(records[i][j]) != ""
  }

  ghost predicate IsWidth(records: seq<Record>, cap: nat, j: nat, width: nat) {
    && (forall i :: Reaches(records, i, j) ==> |Display(records[i][j], cap)| <= width)
    && (width == 0 || exists i :: Reaches(records, i, j) && |Display(records[i][j], cap)| == width)
  }

  ghost predicate IsNumeric(records: seq<Record>, parses: string -> bool, j: nat) {
    && (exists i :: IsBody(records, i, j))
    && (forall i :: IsBody(records, i, j) ==> parses(Trim(records[i][j])))
  }

  ghost predicate IsColumnCount(records: seq<Record>, cols: nat) {
    && (forall i :: 0 <= i < |records| ==> |records[i]| <= cols)
    && (cols == 0 || exists i :: 0 <= i < |records| && |records[i]| == cols)
  }

  /** What a layout of `records` is: one width per column of the widest record, each attained by a
      cell, and the columns whose body cells are all numbers. */
  ghost predicate IsLayoutOf(layout: Layout, records: seq<Record>, cap: nat, parses: string -> bool) {
    && IsColumnCount(records, |layout.widths|)
    && |layout.numeric| == |layout.widths|
    && (forall j :: 0 <= j < |layout.widths| ==> IsWidth(records, cap, j, layout.widths[j]))
    && (forall j :: 0 <= j < |layout.widths| ==> (layout.numeric[j] <==> IsNumeric(records, parses, j)))
  }

  method ColumnCount(records: seq<Record>) returns (cols: nat)
    ensures IsColumnCount(records, cols)
  {
    cols := 0;
    for i := 0 to |records|
      invariant forall k :: 0 <= k < i ==> |records[k]| <= cols
      invariant cols == 0 || exists k :: 0 <= k < i && |records[k]| == cols
    {
      if |records[i]| > cols { cols := |records[i]|; }
    }
  }

  /** Whether cell `(k, j)` comes before cell `(i, upto)` in reading order. */
  predicate Before(k: int, j: int, i: int, upto: int) {
    k < i || (k == i && j < upto)
  }

  method MeasureTable(records: seq<Record>, cap: nat, parses: string -> bool) returns (layout: Layout)
    ensures IsLayoutOf(layout, records, cap, parses)
  {
    hide ColumnMeasured, IsLayoutOf, IsColumnCount;
    var cols := ColumnCount(records);
    var widths: seq<nat> := seq(cols, _ => 0);
    var numeric, hasBody := seq(cols, _ => true), seq(cols, _ => false);
    MeasureNone(records, cap, parses, cols);
    for i := 0 to |records|
      invariant Measured(records, cap, parses, widths, numeric, hasBody, cols, i, 0)
    {
      var rec := records[i];
      for j := 0 to |rec|
        invariant Measured(records, cap, parses, widths, numeric, hasBody, cols, i, j)
      {
        ghost var w, n, b := widths, numeric, hasBody;
        RowFits(records, cols, i);
        var shown := |Display(rec[j], cap)|;
        if shown > widths[j] { widths := widths[j := shown]; }
        if i > 0 && Trim(rec[j]) != "" {
          hasBody := hasBody[j := true];
          if !parses(Trim(rec[j])) { numeric := numeric[j := false]; }
        }
        MeasureCell(records, cap, parses, w, n, b, widths, numeric, hasBody, cols, i, j);
      }
      MeasureRow(records, cap, parses, widths, numeric, hasBody, cols, i);
    }
    ghost var n := numeric;
    for j := 0 to cols
      invariant |numeric| == cols
      invariant forall k :: 0 <= k < j ==> numeric[k] == (n[k] && hasBody[k])
      invariant forall k :: j <= k < cols ==> numeric[k] == n[k]
    {
      numeric := numeric[j := numeric[j] && hasBody[j]];
    }
    layout := Layout(widths, numeric);
    MeasuredAll(records, cap, parses, widths, n, hasBody, cols, layout);
  }

  /** The running totals of the measuring loops after the cells before `(i, upto)`. */
  ghost predicate Measured(records: seq<Record>, cap: nat, parses: string -> bool,
                           w: seq<nat>, n: seq<bool>, b: seq<bool>, cols: nat, i: nat, upto: nat)
  {
    && |w| == |n| == |b| == cols && IsColumnCount(records, cols)
    && forall j :: 0 <= j < |w| ==> ColumnMeasured(records, cap, parses, w[j], n[j], b[j], i, upto, j)
  }

  ghost predicate ColumnMeasured(records: seq<Record>, cap: nat, parses: string -> bool,
                                 width: nat, numeric: bool, hasBody: bool, i: nat, upto: nat, j: nat)
  {
    && (forall k :: Reaches(records, k, j) && Before(k, j, i, upto) ==> |Display(records[k][j], cap)| <= width)
    && (width == 0 || exists k :: Reaches(records, k, j) && Before(k, j, i, upto) && |Display(records[k][j], cap)| == width)
    && (hasBody <==> exists k :: IsBody(records, k, j) && Before(k, j, i, upto))
    && (numeric <==> forall k :: IsBody(records, k, j) && Before(k, j, i, upto) ==> parses(Trim(records[k][j])))
  }

  lemma RowFits(records: seq<Record>, cols: nat, i: nat)
    requires IsColumnCount(records, cols) && i < |records|
    ensures |records[i]| <= cols
  {
  }

  lemma MeasureNone(records: seq<Record>, cap: nat, parses: string -> bool, cols: nat)
    requires IsColumnCount(records, cols)
    ensures Measured(records, cap, parses, seq(cols, _ => 0), seq(cols, _ => true), seq(cols, _ => false), cols, 0, 0)
  {
    assert forall k, j :: Reaches(records, k, j) ==> !Before(k, j, 0, 0);
  }

  lemma MeasureCell(records: seq<Record>, cap: nat, parses: string -> bool,
                    w: seq<nat>, n: seq<bool>, b: seq<bool>,
                    w': seq<nat>, n': seq<bool>, b': seq<bool>, cols: nat, i: nat, j: nat)
    requires i < |records| && j < |records[i]|
    requires Measured(records, cap, parses, w, n, b, cols, i, j) && |records[i]| <= cols
    requires var shown := |Display(records[i][j], cap)|; w' == w[j := if shown > w[j] then shown else w[j]]
    requires b' == b[j := b[j] || IsBody(records, i, j)]
    requires n' == n[j := n[j] && (IsBody(records, i, j) ==> parses(Trim(records[i][j])))]
    ensures Measured(records, cap, parses, w', n', b', cols, i, j + 1)
  {
    forall c | 0 <= c < |w'| ensures ColumnMeasured(records, cap, parses, w'[c], n'[c], b'[c], i, j + 1, c) {
      assert ColumnMeasured(records, cap, parses, w[c], n[c], b[c], i, j, c);
      if c == j {
        assert Reaches(records, i, j) && Before(i, j, i, j + 1);
        forall k | Before(k, j, i, j + 1) ensures k == i || Before(k, j, i, j) {}
        forall k | Before(k, j, i, j) ensures Before(k, j, i, j + 1) {}
      } else {
        forall k ensures Before(k, c, i, j) <==> Before(k, c, i, j + 1) || (k == i && c == j) {}
        assert forall k :: Before(k, c, i, j) <==> Before(k, c, i, j + 1);
      }
    }
  }

  lemma MeasureRow(records: seq<Record>, cap: nat, parses: string -> bool,
                   w: seq<nat>, n: seq<bool>, b: seq<bool>, cols: nat, i: nat)
    requires i < |records| && Measured(records, cap, parses, w, n, b, cols, i, |records[i]|)
    ensures Measured(records, cap, parses, w, n, b, cols, i + 1, 0)
  {
    forall j | 0 <= j < |w| ensures ColumnMeasured(records, cap, parses, w[j], n[j], b[j], i + 1, 0, j) {
      assert ColumnMeasured(records, cap, parses, w[j], n[j], b[j], i, |records[i]|, j);
      assert forall k :: Reaches(records, k, j) ==> (Before(k, j, i, |records[i]|) <==> Before(k, j, i + 1, 0));
    }
  }

  lemma MeasuredAll(records: seq<Record>, cap: nat, parses: string -> bool,
                    w: seq<nat>, n: seq<bool>, b: seq<bool>, cols: nat, layout: Layout)
    requires Measured(records, cap, parses, w, n, b, cols, |records|, 0)
    requires layout.widths == w && |layout.numeric| == |n|
    requires forall j :: 0 <= j < |n| ==> layout.numeric[j] == (n[j] && b[j])
    ensures IsLayoutOf(layout, records, cap, parses)
  {
    forall j | 0 <= j < |w|
      ensures IsWidth(records, cap, j, w[j]) && (layout.numeric[j] <==> IsNumeric(records, parses, j))
    {
      assert ColumnMeasured(records, cap, parses, w[j], n[j], b[j], |records|, 0, j);
      assert forall k :: Reaches(records, k, j) ==> Before(k, j, |records|, 0);
    }
  }

  // ---- escaping ----

  const META := "\\`*_{}[]()#+-.!<>&\"'~|"

  /** ASCII punctuation: the characters a backslash escapes (section 2.4 of the CommonMark spec). */
  predicate IsPunctuation(c: char) {
    '!' <= c <= '/' || ':' <= c <= '@' || '[' <= c <= '`' || '{' <= c <= '~'
  }

  function Escaped(s: string): string {
    if s == "" then "" else (if s[0] in META then ['\\', s[0]] else [s[0]]) + Escaped(s[1..])
  }

  /** Backslash escapes read back: a backslash before punctuation stands for that character. */
  function Unescaped(s: string): string {
    if s == "" then ""
    else if |s| > 1 && s[0] == '\\' && IsPunctuation(s[1]) then [s[1]] + Unescaped(s[2..])
    else [s[0]] + Unescaped(s[1..])
  }

  lemma MetaIsPunctuation(c: char)
    ensures c in META ==> IsPunctuation(c)
    ensures c == '\\' ==> c in META
  {
    if c == '\\' { assert META[0] == c; }
  }

  lemma {:induction false} EscapeReadsBack(s: string)
    ensures Unescaped(Escaped(s)) == s
  {
    if s != "" {
      var e := Escaped(s);
      MetaIsPunctuation(s[0]);
      EscapeReadsBack(s[1..]);
      if s[0] in META {
        assert e[2..] == Escaped(s[1..]);
      } else {
        assert e[1..] == Escaped(s[1..]);
      }
      assert [s[0]] + s[1..] == s;
    }
  }

  lemma {:induction false} EscapedAppend(s: string, c: char)
    ensures Escaped(s + [c]) == Escaped(s) + (if c in META then ['\\', c] else [c])
  {
    if s == "" {
      assert s + [c] == [c];
    } else {
      assert (s + [c])[1..] == s[1..] + [c];
      EscapedAppend(s[1..], c);
    }
  }

  /** Nothing in `s` is markup: each of the characters that could be is behind a backslash. */
  predicate Inert(s: string) {
    if s == "" then true
    else if s[0] == '\\' then |s| > 1 && Inert(s[2..])
    else s[0] !in "`*_{}[]()#+-.!<>&\"'~|" && Inert(s[1..])
  }

  function MarkupIn(s: string): nat {
    if s == "" then 0 else (if s[0] in "\\`*_{}[]()#+-.!<>&\"'~|" then 1 else 0) + MarkupIn(s[1..])
  }

  /** Escaped text has no markup left, and got a backslash for each character that could be, no more. */
  lemma {:induction false} EscapedInert(s: string)
    ensures Inert(Escaped(s)) && |Escaped(s)| == |s| + MarkupIn(s)
  {
    if s != "" {
      var e := Escaped(s);
      EscapedInert(s[1..]);
      MetaIs(s[0]);
      if s[0] in META {
        assert e[2..] == Escaped(s[1..]);
      } else {
        assert e[1..] == Escaped(s[1..]);
      }
    }
  }

  lemma MetaIs(c: char)
    ensures c in META <==> c == '\\' || c in "`*_{}[]()#+-.!<>&\"'~|"
    ensures c in META <==> c in "\\`*_{}[]()#+-.!<>&\"'~|"
  {
    assert META[1..] == "`*_{}[]()#+-.!<>&\"'~|";
    if c == '\\' { assert META[0] == c; }
    if c in META[1..] { assert c in META; }
  }

  method EscapeMarkdown(s: string) returns (out: string)
    ensures out == Escaped(s) && Unescaped(out) == s && Inert(out) && |out| == |s| + MarkupIn(s)
  {
    out := "";
    for i := 0 to |s|
      invariant out == Escaped(s[..i])
    {
      EscapedAppend(s[..i], s[i]);
      assert s[..i + 1] == s[..i] + [s[i]];
      if s[i] in META { out := out + ['\\']; }
      out := out + [s[i]];
    }
    assert s[..|s|] == s;
    EscapeReadsBack(s);
    EscapedInert(s);
  }

  // ---- a drawn cell ----

  function RawCell(record: Record, j: nat): string {
    if j < |record| then record[j] else ""
  }

  function Cell(layout: Layout, record: Record, j: nat, cap: nat): string
    requires j < |layout.widths| == |layout.numeric|
  {
    Escaped(Pad(Display(RawCell(record, j), cap), layout.widths[j], layout.numeric[j]))
  }

  /** In a table measured as a whole, every drawn cell of column `j`, the missing ones included,
      is exactly as wide as the column once the escapes are read, and shows its own text flush to
      the side its column calls for. With a cap of at least one no column is wider than the cap. */
  lemma ColumnsLineUp(layout: Layout, records: seq<Record>, cap: nat, parses: string -> bool, i: nat, j: nat)
    requires IsLayoutOf(layout, records, cap, parses) && i < |records| && j < |layout.widths|
    ensures var drawn, shown := Unescaped(Cell(layout, records[i], j, cap)), Display(RawCell(records[i], j), cap);
      && |drawn| == layout.widths[j] && |shown| <= |drawn|
      && drawn == if layout.numeric[j] then Fill(|drawn| - |shown|) + shown else shown + Fill(|drawn| - |shown|)
    ensures cap >= 1 ==> layout.widths[j] <= cap
  {
    hide Escaped, Unescaped, IsNumeric, Display;
    EscapeReadsBack(Pad(Display(RawCell(records[i], j), cap), layout.widths[j], layout.numeric[j]));
    assert IsWidth(records, cap, j, layout.widths[j]);
    if j < |records[i]| {
      assert Reaches(records, i, j);
    } else {
      DisplayNothing(cap);
    }
    if cap >= 1 && layout.widths[j] > 0 {
      var k :| Reaches(records, k, j) && |Display(records[k][j], cap)| == layout.widths[j];
      DisplayFits(records[k][j], cap);
    }
  }
}
