/**
 * The report panel of the frontend. `renderSummary` turns the report text into paragraphs and
 * bullet lists, one pass over its non-blank lines; the panel shows a placeholder when it is given
 * neither a summary, nor a sentiment, nor statistics.
 */
module AiReport {
  import opened Wrappers
  import opened Text

  /** What `renderSummary` emits: a `<p>` holding one line, or a `<ul>` holding its items. */
  datatype Block = Paragraph(line: string) | Bullets(items: seq<string>)

  /** A line whose trimmed form starts with `"- "` or `"* "`. */
  predicate IsItem(line: string)
  {
    var t := Trim(line);
    StartsWith(t, "- ") || StartsWith(t, "* ")
  }

  /** `trimmed.slice(2)`: the item without its marker. */
  function ItemText(line: string): (r: string)
    requires IsItem(line)
    ensures Trim(line) == Trim(line)[..2] + r
  {
    Trim(line)[2..]
  }

  /** `.filter((line) => line.trim() !== "")`. */
  function NonBlank(ls: seq<string>): (r: seq<string>)
    ensures |r| <= |ls|
    ensures forall i :: 0 <= i < |r| ==> Trim(r[i]) != ""
  {
    if ls == [] then []
    else NonBlank(ls[..|ls| - 1]) + (if Trim(ls[|ls| - 1]) != "" then [ls[|ls| - 1]] else [])
  }

  /** The filter keeps exactly the lines that are not blank. */
  lemma {:induction false} NonBlankSpec(ls: seq<string>)
    ensures forall x :: x in NonBlank(ls) <==> x in ls && Trim(x) != ""
  {
    if ls != [] {
      var init := ls[..|ls| - 1];
      NonBlankSpec(init);
      assert ls == init + [ls[|ls| - 1]];
    }
  }

  /** The lines `renderSummary` works on. */
  function Lines(text: string): seq<string>
  {
    NonBlank(Split(text, '\n'))
  }

  /** A line as `renderSummary` shows it: a list item without its marker, or a paragraph. */
  datatype Shape = Item(text: string) | Plain(text: string)

  /** The test and the slice of the loop body: the item's text, or the line itself, untrimmed. */
  function Shown(line: string): (r: Shape)
    ensures r.Item? <==> IsItem(line)
    ensures r.Plain? ==> r.text == line
  {
    if IsItem(line) then Item(ItemText(line)) else Plain(line)
  }

  function ShownAll(lines: seq<string>): (r: seq<Shape>)
    ensures |r| == |lines| && forall i :: 0 <= i < |lines| ==> r[i] == Shown(lines[i])
  {
    seq(|lines|, i requires 0 <= i < |lines| => Shown(lines[i]))
  }

  /** The loop's state: the elements emitted so far, and the items of the list not yet closed. */
  datatype Render = Render(elements: seq<Block>, pending: seq<string>)

  /** The elements with the pending list closed, when there is one. */
  function Close(st: Render): seq<Block>
  {
    if st.pending != [] then st.elements + [Bullets(st.pending)] else st.elements
  }

  /** One line of the `forEach`: an item joins the pending list; any other line closes it and is a paragraph. */
  function Step(st: Render, s: Shape): Render
  {
    match s
    case Item(t) => st.(pending := st.pending + [t])
    case Plain(line) => Render(Close(st) + [Paragraph(line)], [])
  }

  /** The state after the lines, taken in order. */
  function Run(shapes: seq<Shape>): Render
  {
    if shapes == [] then Render([], []) else Step(Run(shapes[..|shapes| - 1]), shapes[|shapes| - 1])
  }

  /** What `renderSummary(text)` returns. */
  function Summary(text: string): seq<Block>
  {
    Close(Run(ShownAll(Lines(text))))
  }

  /** `renderSummary`: the loop over the lines, and the final flush of the pending list. */
  method RenderSummary(text: string) returns (elements: seq<Block>)
    ensures elements == Summary(text)
  {
    var lines := Lines(text);
    ghost var shapes := ShownAll(lines);
    elements := [];
    var listItems: seq<string> := [];
    for i := 0 to |lines|
      invariant Render(elements, listItems) == Run(shapes[..i])
    {
      RunPrefix(shapes, i);
      var shape := Shown(lines[i]);
      assert shape == shapes[i];
      match shape
      case Item(t) =>
        listItems := listItems + [t];
      case Plain(line) =>
        if |listItems| > 0 {
          elements := elements + [Bullets(listItems)];
          listItems := [];
        }
        elements := elements + [Paragraph(line)];
    }
    assert shapes[..|lines|] == shapes;
    if |listItems| > 0 {
      elements := elements + [Bullets(listItems)];
    }
  }

  /** One more line, one more step. */
  lemma RunPrefix(shapes: seq<Shape>, i: int)
    requires 0 <= i < |shapes|
    ensures Run(shapes[..i + 1]) == Step(Run(shapes[..i]), shapes[i])
  {
    assert shapes[..i + 1][..i] == shapes[..i];
  }

  /** A list's items, as shown. */
  function Marks(items: seq<string>): (r: seq<Shape>)
    ensures |r| == |items| && forall i :: 0 <= i < |items| ==> r[i] == Item(items[i])
  {
    seq(|items|, i requires 0 <= i < |items| => Item(items[i]))
  }

  /** The rendered text, block after block. */
  function Flatten(blocks: seq<Block>): seq<Shape>
  {
    if blocks == [] then []
    else
      var last := blocks[|blocks| - 1];
      Flatten(blocks[..|blocks| - 1]) + (if last.Paragraph? then [Plain(last.line)] else Marks(last.items))
  }

  /** No list is empty and no two lists follow each other. */
  ghost predicate WellFormed(blocks: seq<Block>)
  {
    && (forall i :: 0 <= i < |blocks| && blocks[i].Bullets? ==> blocks[i].items != [])
    && (forall i, j :: 0 <= i < j < |blocks| && j == i + 1 && blocks[j].Bullets? ==> blocks[i].Paragraph?)
  }

  /** Adding a block after the others adds its text after theirs. */
  lemma FlattenSnoc(blocks: seq<Block>, b: Block)
    ensures Flatten(blocks + [b]) == Flatten(blocks) + Flatten([b])
  {
    assert (blocks + [b])[..|blocks|] == blocks;
    assert [b][..0] == [];
  }

  /**
   * The loop's invariant after `shapes`: the elements and the pending items show them, in order;
   * the elements are well formed and end with a paragraph, if anything.
   */
  ghost predicate Inv(st: Render, shapes: seq<Shape>)
  {
    && Flatten(st.elements) + Marks(st.pending) == shapes
    && WellFormed(st.elements)
    && (st.elements == [] || st.elements[|st.elements| - 1].Paragraph?)
  }

  /** Every state the loop goes through keeps the invariant. */
  lemma {:induction false} RunSpec(shapes: seq<Shape>)
    ensures Inv(Run(shapes), shapes)
  {
    if shapes != [] {
      var init, s := shapes[..|shapes| - 1], shapes[|shapes| - 1];
      RunSpec(init);
      StepSpec(Run(init), init, s);
      assert init + [s] == shapes;
    }
  }

  /** One more line is shown after the others, and keeps the shape. */
  lemma StepSpec(st: Render, shapes: seq<Shape>, s: Shape)
    requires Inv(st, shapes)
    ensures Inv(Step(st, s), shapes + [s])
  {
    match s
    case Item(t) =>
      assert Marks(st.pending + [t]) == Marks(st.pending) + [Item(t)];
    case Plain(line) =>
      ParagraphStep(st, line);
  }

  /** A paragraph line closes the pending list and follows it. */
  lemma ParagraphStep(st: Render, line: string)
    requires WellFormed(st.elements)
    requires st.elements == [] || st.elements[|st.elements| - 1].Paragraph?
    ensures Flatten(Close(st) + [Paragraph(line)]) == Flatten(st.elements) + Marks(st.pending) + [Plain(line)]
    ensures WellFormed(Close(st) + [Paragraph(line)])
  {
    var closed := Close(st);
    CloseSpec(st);
    FlattenSnoc(closed, Paragraph(line));
    assert Flatten([Paragraph(line)]) == [Plain(line)];
    WellFormedParagraph(closed, line);
  }

  /** A paragraph can follow anything. */
  lemma WellFormedParagraph(blocks: seq<Block>, line: string)
    requires WellFormed(blocks)
    ensures WellFormed(blocks + [Paragraph(line)])
  {
    var bs := blocks + [Paragraph(line)];
    forall i, j | 0 <= i < j < |bs| && j == i + 1 && bs[j].Bullets? ensures bs[i].Paragraph?
    {
      assert bs[j] == blocks[j];
    }
  }

  /** Closing the pending list keeps the text and the shape, given a state as `RunSpec` leaves it. */
  lemma CloseSpec(st: Render)
    requires WellFormed(st.elements)
    requires st.elements == [] || st.elements[|st.elements| - 1].Paragraph?
    ensures Flatten(Close(st)) == Flatten(st.elements) + Marks(st.pending)
    ensures WellFormed(Close(st))
  {
    if st.pending != [] {
      FlattenSnoc(st.elements, Bullets(st.pending));
      assert Flatten([Bullets(st.pending)]) == Marks(st.pending);
    } else {
      assert Marks(st.pending) == [];
    }
  }

  /**
   * Nothing is lost: the summary shows every non-blank line once, in order, as a list item with
   * its marker removed when it is one and as the untrimmed line otherwise; every list holds at
   * least one item and no two lists are adjacent.
   */
  lemma SummarySpec(text: string)
    ensures Flatten(Summary(text)) == ShownAll(Lines(text))
    ensures |Flatten(Summary(text))| == |Lines(text)|
    ensures WellFormed(Summary(text))
  {
    var shapes := ShownAll(Lines(text));
    RunSpec(shapes);
    CloseSpec(Run(shapes));
  }

  const NoReport := "Aucun rapport disponible."

  /** The panel: the placeholder, or the parts it was given. */
  datatype Panel = Placeholder(message: string) | Report(summary: seq<Block>, sentiment: Option<string>, stats: bool)

  /** A JavaScript value that is a non-empty string. */
  predicate Truthy(v: Option<string>)
  {
    v.Some? && v.value != ""
  }

  /**
   * `AIReport({ summary, sentiment, stats })`: the placeholder exactly when none of the three is
   * given; otherwise the rendered summary when there is one, and the sentiment when there is one.
   */
  function ReportPanel(summary: Option<string>, sentiment: Option<string>, stats: bool): (r: Panel)
    ensures r.Placeholder? <==> !Truthy(summary) && !Truthy(sentiment) && !stats
    ensures r.Placeholder? ==> r.message == NoReport
    ensures r.Report? ==> (r.summary != [] ==> Truthy(summary)) && (r.sentiment.Some? <==> Truthy(sentiment))
  {
    if !Truthy(summary) && !Truthy(sentiment) && !stats then Placeholder(NoReport)
    else Report(if Truthy(summary) then Summary(summary.value) else [],
                if Truthy(sentiment) then sentiment else None, stats)
  }

  /**
   * The articles tab as written renders `<AIReport text={aiReport} />`. `AIReport` reads no `text`
   * prop, so it is given no summary, no sentiment and no statistics, whatever was streamed.
   */
  function ArticlesPanelAsWritten(aiReport: string): (r: Panel)
    ensures r == Placeholder(NoReport)
  {
    ReportPanel(None, None, false)
  }

  /**
   * The articles tab with the streamed report passed as the summary: the placeholder only when
   * nothing was streamed, and otherwise every non-blank line of the report, in order.
   */
  function ArticlesPanel(aiReport: string): (r: Panel)
    ensures r.Placeholder? <==> aiReport == ""
    ensures r.Report? ==> Flatten(r.summary) == ShownAll(Lines(aiReport)) && WellFormed(r.summary)
  {
    SummarySpec(aiReport);
    ReportPanel(Some(aiReport), None, false)
  }

  /** A streamed report with a line to show is hidden by the tab as written, and shown by the fix. */
  lemma StreamedReportHidden(aiReport: string)
    requires Lines(aiReport) != []
    ensures ArticlesPanelAsWritten(aiReport).Placeholder?
    ensures ArticlesPanel(aiReport).Report? && ArticlesPanel(aiReport).summary != []
  {
    assert Lines("") == [];  // so a report with a line is not empty
    SummarySpec(aiReport);
  }
}
