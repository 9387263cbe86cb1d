/**
 * The `prd list` command of src/commands/prd-list.ts: one header line and
 * one row per PRD, in columns wide enough for the longest name and for
 * descriptions of up to 40 characters. The printed lines are returned;
 * the colouring is a parameter.
 */
module PrdList {
  import opened Text
  import opened Chalk
  import opened PrdManager

  /** Width of the status column, and of the progress column. */
  const StatusWidth: nat := 11
  const ProgressWidth: nat := 8

  /** The larger of `floor` and the longest of the texts. */
  function MaxLength(texts: seq<string>, floor: nat): (r: nat)
    ensures r >= floor && forall i :: 0 <= i < |texts| ==> |texts[i]| <= r
    ensures r == floor || exists i :: 0 <= i < |texts| && |texts[i]| == r
    decreases |texts|
  {
    if texts == [] then floor
    else
      var rest := MaxLength(texts[1..], floor);
      if |texts[0]| > rest then |texts[0]| else rest
  }

  function Names(prds: seq<PrdStatus>): (r: seq<string>)
    ensures |r| == |prds| && forall i :: 0 <= i < |prds| ==> r[i] == prds[i].name
  {
    seq(|prds|, i requires 0 <= i < |prds| => prds[i].name)
  }

  function Descriptions(prds: seq<PrdStatus>): (r: seq<string>)
    ensures |r| == |prds| && forall i :: 0 <= i < |prds| ==> r[i] == prds[i].description
  {
    seq(|prds|, i requires 0 <= i < |prds| => prds[i].description)
  }

  /** `nameWidth`: the longest name, and at least the width of `NAME`. */
  function NameWidth(prds: seq<PrdStatus>): (r: nat)
    ensures r >= 4 && forall i :: 0 <= i < |prds| ==> |prds[i].name| <= r
    ensures r == 4 || exists i :: 0 <= i < |prds| && |prds[i].name| == r
  {
    MaxLength(Names(prds), 4)
  }

  /** `descWidth`: the longest description, kept between 11 (`DESCRIPTION`) and 40. */
  function DescWidth(prds: seq<PrdStatus>): (r: nat)
    ensures 11 <= r <= 40
    ensures r < 40 ==> forall i :: 0 <= i < |prds| ==> |prds[i].description| <= r
    ensures r == 11 || r == 40 || exists i :: 0 <= i < |prds| && |prds[i].description| == r
    ensures r == 40 ==> exists i :: 0 <= i < |prds| && |prds[i].description| >= 40
  {
    var widest := MaxLength(Descriptions(prds), 11);
    if widest < 40 then widest else 40
  }

  /**
   * `s.slice(0, end)`: the first `end` characters; a negative `end` counts
   * back from the end of the text.
   */
  function SliceTo(s: string, end: int): (r: string)
    ensures IsPrefix(r, s)
    ensures 0 <= end ==> |r| == if |s| <= end then |s| else end
  {
    if end >= 0 then Take(s, end)
    else if |s| + end >= 0 then s[..|s| + end]
    else []
  }

  /**
   * A description longer than the column keeps its first `width - 3`
   * characters followed by `...`, filling the column exactly; a shorter one
   * is kept whole.
   */
  function Truncate(description: string, width: nat): (r: string)
    ensures width >= 3 ==> |r| == if |description| > width then width else |description|
  {
    if |description| > width then SliceTo(description, width - 3) + "..." else description
  }

  /** What is kept of a description: all of it when it fits, else its start and `...`. */
  lemma TruncateKeeps(description: string, width: nat)
    requires width >= 3
    ensures |description| <= width ==> Truncate(description, width) == description
    ensures |description| > width ==>
      Truncate(description, width)[..width - 3] == description[..width - 3]
      && Truncate(description, width)[width - 3..] == "..."
  {
  }

  function StatusText(status: PrdStatusType): string {
    match status
      case Pending => "pending"
      case InProgress => "in_progress"
      case Completed => "completed"
  }

  /** `statusColor(status)` */
  function StatusColor(paint: Paint, status: PrdStatusType): string {
    match status
      case Pending => paint(Gray, StatusText(status))
      case InProgress => paint(Yellow, StatusText(status))
      case Completed => paint(Green, StatusText(status))
  }

  /** `<completed>/<total>` */
  function Progress(prd: PrdStatus): string {
    NatToString(prd.tasksCompleted) + "/" + NatToString(prd.tasksTotal)
  }

  /** The header before it is painted bold. */
  function HeaderText(nameWidth: nat, descWidth: nat): string {
    PadEnd("NAME", nameWidth) + "  " + PadEnd("DESCRIPTION", descWidth) + "  " + PadEnd("STATUS", StatusWidth) + "  " + "PROGRESS"
  }

  /** One row; the status field is padded 10 further to make room for colour codes. */
  function Row(paint: Paint, prd: PrdStatus, nameWidth: nat, descWidth: nat): string {
    PadEnd(prd.name, nameWidth) + "  "
      + PadEnd(Truncate(prd.description, descWidth), descWidth) + "  "
      + PadEnd(StatusColor(paint, prd.status), StatusWidth + 10) + "  "
      + PadStart(Progress(prd), ProgressWidth)
  }

  /** The row of a PRD, for given column widths. */
  function RowOf(paint: Paint, nameWidth: nat, descWidth: nat): PrdStatus -> string {
    prd => Row(paint, prd, nameWidth, descWidth)
  }

  /** The rows of the PRDs. */
  function Rows(paint: Paint, prds: seq<PrdStatus>, nameWidth: nat, descWidth: nat): seq<string> {
    Map(RowOf(paint, nameWidth, descWidth), prds)
  }

  /** `prdList()`, given what `listPrds` returned: the lines printed. */
  method PrdList(paint: Paint, prds: seq<PrdStatus>) returns (lines: seq<string>)
    ensures prds == [] ==> lines == [paint(Gray, "No PRDs found")]
    ensures prds != [] ==>
      lines == [paint(Bold, HeaderText(NameWidth(prds), DescWidth(prds)))] + Rows(paint, prds, NameWidth(prds), DescWidth(prds))
  {
    if |prds| == 0 {
      return [paint(Gray, "No PRDs found")];
    }
    var nameWidth := NameWidth(prds);
    var descWidth := DescWidth(prds);
    var header := paint(Bold, HeaderText(nameWidth, descWidth));
    lines := [header];
    for i := 0 to |prds|
      invariant lines == [header] + Rows(paint, prds[..i], nameWidth, descWidth)
    {
      RowsSnoc(paint, prds, i, nameWidth, descWidth);
      AppendAssoc([header], Rows(paint, prds[..i], nameWidth, descWidth), [Row(paint, prds[i], nameWidth, descWidth)]);
      lines := lines + [Row(paint, prds[i], nameWidth, descWidth)];
    }
    assert prds[..|prds|] == prds;
  }

  /** The rows of one more PRD end with its row. */
  lemma RowsSnoc(paint: Paint, prds: seq<PrdStatus>, i: nat, nameWidth: nat, descWidth: nat)
    requires i < |prds|
    ensures Rows(paint, prds[..i + 1], nameWidth, descWidth)
      == Rows(paint, prds[..i], nameWidth, descWidth) + [Row(paint, prds[i], nameWidth, descWidth)]
  {
    MapPrefixSnoc(RowOf(paint, nameWidth, descWidth), prds, i);
  }

  /** One row per PRD, in the order given. */
  lemma RowsInOrder(paint: Paint, prds: seq<PrdStatus>, nameWidth: nat, descWidth: nat)
    ensures |Rows(paint, prds, nameWidth, descWidth)| == |prds|
    ensures forall k :: 0 <= k < |prds| ==> Rows(paint, prds, nameWidth, descWidth)[k] == Row(paint, prds[k], nameWidth, descWidth)
  {
    MapAt(RowOf(paint, nameWidth, descWidth), prds);
  }

  /** The first two fields of a line, and the two spaces between them. */
  lemma FieldsOf(line: string, first: string, second: string, rest: string)
    requires line == first + "  " + second + rest
    ensures |line| >= |first| + 2 + |second|
    ensures line[..|first|] == first && line[|first|..|first| + 2] == "  "
    ensures line[|first| + 2..|first| + 2 + |second|] == second
  {
    assert line == (first + "  " + second) + rest;
    assert line[..|first| + 2 + |second|] == first + "  " + second;
  }

  /** A row is its name and description fields, two spaces apart, followed by the status and progress fields. */
  lemma RowPieces(paint: Paint, prd: PrdStatus, nw: nat, dw: nat)
    ensures Row(paint, prd, nw, dw)
      == PadEnd(prd.name, nw) + "  " + PadEnd(Truncate(prd.description, dw), dw)
        + ("  " + PadEnd(StatusColor(paint, prd.status), StatusWidth + 10) + "  " + PadStart(Progress(prd), ProgressWidth))
  {
  }

  /**
   * A row whose name fits its column starts with the name field, exactly
   * `nameWidth` wide, and two spaces. `NameWidth` makes every name of a
   * listing fit.
   */
  lemma RowNameColumn(paint: Paint, prd: PrdStatus, nw: nat, dw: nat)
    requires |prd.name| <= nw
    ensures var row := Row(paint, prd, nw, dw);
      |row| >= nw + 2 && row[..nw] == PadEnd(prd.name, nw) && row[nw..nw + 2] == "  "
  {
    var name := PadEnd(prd.name, nw);
    assert |name| == nw;
    RowPieces(paint, prd, nw, dw);
    FieldsOf(Row(paint, prd, nw, dw), name, PadEnd(Truncate(prd.description, dw), dw),
      "  " + PadEnd(StatusColor(paint, prd.status), StatusWidth + 10) + "  " + PadStart(Progress(prd), ProgressWidth));
  }

  /**
   * In a row whose name fits, the description field starts right after the
   * name field and its two spaces, and is exactly `descWidth` wide.
   */
  lemma RowDescColumn(paint: Paint, prd: PrdStatus, nw: nat, dw: nat)
    requires |prd.name| <= nw && dw >= 3
    ensures var row := Row(paint, prd, nw, dw);
      |row| >= nw + 2 + dw && row[nw + 2..nw + 2 + dw] == PadEnd(Truncate(prd.description, dw), dw)
  {
    var name := PadEnd(prd.name, nw);
    var desc := PadEnd(Truncate(prd.description, dw), dw);
    assert |name| == nw && |desc| == dw;
    RowPieces(paint, prd, nw, dw);
    FieldsOf(Row(paint, prd, nw, dw), name, desc,
      "  " + PadEnd(StatusColor(paint, prd.status), StatusWidth + 10) + "  " + PadStart(Progress(prd), ProgressWidth));
  }

  /** Every row ends with the progress, right-aligned in at least 8 characters. */
  lemma RowEndsWithProgress(paint: Paint, prd: PrdStatus, nw: nat, dw: nat)
    ensures IsSuffix(PadStart(Progress(prd), ProgressWidth), Row(paint, prd, nw, dw))
    ensures |PadStart(Progress(prd), ProgressWidth)| >= ProgressWidth
  {
    var progress := PadStart(Progress(prd), ProgressWidth);
    var front := PadEnd(prd.name, nw) + "  " + PadEnd(Truncate(prd.description, dw), dw) + "  "
      + PadEnd(StatusColor(paint, prd.status), StatusWidth + 10) + "  ";
    assert Row(paint, prd, nw, dw) == front + progress;
  }

  /** The header's column titles start at the same offsets as the rows' fields. */
  lemma HeaderColumns(nw: nat, dw: nat)
    requires nw >= 4 && dw >= 11
    ensures var header := HeaderText(nw, dw);
      |header| >= nw + 2 + dw
      && header[..nw] == PadEnd("NAME", nw)
      && header[nw + 2..nw + 2 + dw] == PadEnd("DESCRIPTION", dw)
  {
    var name := PadEnd("NAME", nw);
    var desc := PadEnd("DESCRIPTION", dw);
    assert HeaderText(nw, dw) == name + "  " + desc + ("  " + PadEnd("STATUS", StatusWidth) + "  " + "PROGRESS");
    FieldsOf(HeaderText(nw, dw), name, desc, "  " + PadEnd("STATUS", StatusWidth) + "  " + "PROGRESS");
  }

  /** A 50-character description in a 40-wide column shows its first 37 characters and `...`. */
  lemma LongDescriptionTruncated(description: string)
    requires |description| == 50
    ensures |Truncate(description, 40)| == 40
    ensures IsPrefix(description[..37], Truncate(description, 40))
    ensures EndsWith(Truncate(description, 40), "...")
  {
    TruncateKeeps(description, 40);
  }
}
