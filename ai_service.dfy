/**
 * The AI report service (ai_service/app.py): `/report` keeps the first twenty articles,
 * refuses an empty list, assembles the prompt from a statistics block and a text block, and
 * streams the completion back as server-sent events, one `data:` frame per token, closed by
 * `[DONE]` or by a single `[ERROR]` frame.
 */
module AiService {
  import opened Wrappers
  import opened Text
  import opened Values

  const MaxArticles: nat := 20

  /** `data.get("articles", [])[:20]`. */
  function Truncated(articles: seq<Object>): (r: seq<Object>)
    ensures |r| <= MaxArticles && |r| <= |articles| && r == articles[..|r|]
    ensures |r| == MaxArticles || r == articles
  {
    if |articles| <= MaxArticles then articles else articles[..MaxArticles]
  }

  /** `f"{a.get('title','')} – {a.get('description','')}"`. */
  function Piece(a: Object): string
  {
    Show(GetOr(a, "title", Str(""))) + " – " + Show(GetOr(a, "description", Str("")))
  }

  function Pieces(articles: seq<Object>): (r: seq<string>)
    ensures |r| == |articles| && forall i :: 0 <= i < |r| ==> r[i] == Piece(articles[i])
  {
    seq(|articles|, i requires 0 <= i < |articles| => Piece(articles[i]))
  }

  /** `text_block`: one piece per article, separated by blank lines. */
  function TextBlock(articles: seq<Object>): string
  {
    Join(Pieces(articles), "\n\n")
  }

  /**
   * The text block keeps one piece per article, in order: when no piece holds a blank line or
   * ends in a line feed, splitting the block on blank lines gives the pieces back.
   */
  lemma TextBlockSplits(articles: seq<Object>)
    requires articles != []
    requires forall i :: 0 <= i < |articles| ==> LoneNewlines(Piece(articles[i]))
    ensures SplitOn(TextBlock(articles), "\n\n") == Pieces(articles)
  {
    var parts := Pieces(articles);
    forall k | 0 <= k < |parts|
      ensures !Contains(parts[k] + "\n", "\n\n") && !Contains(parts[k], "\n\n")
    {
      LoneNewlinesClean(parts[k]);
    }
    assert "\n\n"[..1] == "\n";
    SplitOnJoin(parts, "\n\n");
  }

  /** An entry of `topSources`, `timeline` or `sentiment`: a key (name, date or sentiment label) and a count. */
  datatype Tally = Tally(key: Value, count: Value)

  /** The `stats` object: `totalMentions` (`Null` when absent or `None`) and the three lists, empty when absent or falsy. */
  datatype Stats = Stats(total: Value, topSources: seq<Tally>, timeline: seq<Tally>, sentiment: seq<Tally>)

  /** `", ".join(f"{s['name']} ({s['count']})" for s in top_sources)`. */
  function SourceList(ts: seq<Tally>): string
  {
    Join(seq(|ts|, i requires 0 <= i < |ts| => Show(ts[i].key) + " (" + Show(ts[i].count) + ")"), ", ")
  }

  /** `", ".join(f"{t['date']}: {t['count']}" ...)`, and the same shape for the sentiment items. */
  function PairList(ts: seq<Tally>): string
  {
    Join(seq(|ts|, i requires 0 <= i < |ts| => Show(ts[i].key) + ": " + Show(ts[i].count)), ", ")
  }

  /** Whether section `i` (total, top sources, timeline, sentiment) is present: the total when it is not `None`, a list when non-empty. */
  predicate Present(st: Stats, i: nat)
  {
    if i == 0 then st.total != Null
    else if i == 1 then st.topSources != []
    else if i == 2 then st.timeline != []
    else i == 3 && st.sentiment != []
  }

  /** The line of section `i`. */
  function Line(st: Stats, i: nat): string
  {
    if i == 0 then "Total mentions: " + Show(st.total)
    else if i == 1 then "Top sources: " + SourceList(st.topSources)
    else if i == 2 then "Timeline: " + PairList(st.timeline)
    else "Sentiment distribution: " + PairList(st.sentiment)
  }

  /** The present sections, in the fixed order. */
  function Order(st: Stats): (r: seq<nat>)
    ensures forall j, k :: 0 <= j < k < |r| ==> r[j] < r[k]
    ensures forall i :: i in r <==> i < 4 && Present(st, i)
  {
    (if Present(st, 0) then [0] else []) + (if Present(st, 1) then [1] else [])
    + (if Present(st, 2) then [2] else []) + (if Present(st, 3) then [3] else [])
  }

  /** A section's contribution to `parts`: its line when present, nothing otherwise. */
  function Section(st: Stats, i: nat): seq<string>
  {
    if Present(st, i) then [Line(st, i)] else []
  }

  /** The `parts` list. */
  function StatsLines(st: Stats): seq<string>
  {
    Section(st, 0) + Section(st, 1) + Section(st, 2) + Section(st, 3)
  }

  /** The section indices `os` name the lines `xs`, one for one. */
  predicate Names(st: Stats, xs: seq<string>, os: seq<nat>)
  {
    |xs| == |os| && forall j :: 0 <= j < |xs| ==> xs[j] == Line(st, os[j])
  }

  lemma NamesAppend(st: Stats, xs: seq<string>, os: seq<nat>, ys: seq<string>, ps: seq<nat>)
    requires Names(st, xs, os) && Names(st, ys, ps)
    ensures Names(st, xs + ys, os + ps)
  {
    forall j | 0 <= j < |xs + ys| ensures (xs + ys)[j] == Line(st, (os + ps)[j]) {
      if j >= |xs| {
        assert (xs + ys)[j] == ys[j - |xs|] && (os + ps)[j] == ps[j - |xs|];
      }
    }
  }

  function Slot(st: Stats, i: nat): seq<nat>
  {
    if Present(st, i) then [i] else []
  }

  /** The lines are those of the present sections, each once, in the order total, top sources, timeline, sentiment. */
  lemma StatsLinesOrder(st: Stats)
    ensures |StatsLines(st)| == |Order(st)|
    ensures forall j :: 0 <= j < |StatsLines(st)| ==> StatsLines(st)[j] == Line(st, Order(st)[j])
  {
    assert Names(st, Section(st, 0), Slot(st, 0)) && Names(st, Section(st, 1), Slot(st, 1));
    assert Names(st, Section(st, 2), Slot(st, 2)) && Names(st, Section(st, 3), Slot(st, 3));
    NamesAppend(st, Section(st, 0), Slot(st, 0), Section(st, 1), Slot(st, 1));
    NamesAppend(st, Section(st, 0) + Section(st, 1), Slot(st, 0) + Slot(st, 1), Section(st, 2), Slot(st, 2));
    NamesAppend(st, Section(st, 0) + Section(st, 1) + Section(st, 2), Slot(st, 0) + Slot(st, 1) + Slot(st, 2),
      Section(st, 3), Slot(st, 3));
    assert Order(st) == Slot(st, 0) + Slot(st, 1) + Slot(st, 2) + Slot(st, 3);
  }

  /** A total of zero is still reported, as the first line: only `None` hides it. */
  lemma ZeroTotalShown(st: Stats)
    requires st.total == Num(0)
    ensures StatsLines(st)[0] == "Total mentions: 0"
  {
  }

  /** The successive appends that build `parts`. */
  method StatsParts(st: Stats) returns (parts: seq<string>)
    ensures parts == StatsLines(st)
  {
    parts := [];
    if st.total != Null {
      parts := parts + ["Total mentions: " + Show(st.total)];
    }
    assert parts == Section(st, 0);
    if st.topSources != [] {
      parts := parts + ["Top sources: " + SourceList(st.topSources)];
    }
    assert parts == Section(st, 0) + Section(st, 1);
    if st.timeline != [] {
      parts := parts + ["Timeline: " + PairList(st.timeline)];
    }
    assert parts == Section(st, 0) + Section(st, 1) + Section(st, 2);
    if st.sentiment != [] {
      parts := parts + ["Sentiment distribution: " + PairList(st.sentiment)];
    }
  }

  const Preamble: string :=
    "Tu es un analyste médias. En t'inspirant du style des rapports Brand24, "
    + "rédige en français un compte rendu structuré des articles suivants avec les sections "
    + "'Résumé', 'Tendances', 'Points saillants' et 'Recommandation'. "
    + "Indique également un sentiment global (positif, neutre ou négatif). "
    + "Réponds STRICTEMENT en JSON avec les clés 'summary' et 'sentiment'. "
    + "La clé 'summary' doit contenir le rapport en Markdown avec paragraphes ou listes à puces si nécessaire."

  const Trailer: string := "\n\nJSON:" + "\n\nRespond ONLY in JSON with keys 'summary' and 'sentiment'.\nJSON:"

  /** The prompt: the instructions, the statistics block, a blank line, the text block and the JSON reminder. */
  function Prompt(statsBlock: string, textBlock: string): string
  {
    Preamble + statsBlock + "\n\n" + textBlock + Trailer
  }

  /** The body of a `/report` request, with the defaults of `data.get` applied. */
  datatype Request = Request(articles: seq<Object>, stats: Stats)

  function PromptOf(req: Request): string
  {
    Prompt(Join(StatsLines(req.stats), "\n"), TextBlock(Truncated(req.articles)))
  }

  /**
   * What the completion stream delivers: the `content` of each chunk's delta (`""` for `None`)
   * and, when the stream raises, the message of the exception, raised after those chunks.
   */
  datatype Completion = Completion(deltas: seq<string>, failure: Option<string>)

  /** `if token: yield token`: the deltas that are not empty, in order. */
  function Tokens(deltas: seq<string>): (r: seq<string>)
    ensures |r| <= |deltas|
    ensures forall j :: 0 <= j < |r| ==> r[j] != ""
  {
    if deltas == [] then []
    else Tokens(deltas[..|deltas| - 1]) + (if deltas[|deltas| - 1] != "" then [deltas[|deltas| - 1]] else [])
  }

  /** Dropping the empty deltas does not change the streamed text. */
  lemma {:induction false} TokensKeepText(deltas: seq<string>)
    ensures Concat(Tokens(deltas)) == Concat(deltas)
  {
    if deltas != [] {
      var init, last := deltas[..|deltas| - 1], deltas[|deltas| - 1];
      TokensKeepText(init);
      assert deltas == init + [last];
      ConcatAppend(init, [last]);
      ConcatAppend(Tokens(init), if last != "" then [last] else []);
    }
  }

  function Frame(token: string): string { "data: " + token + "\n\n" }

  const DoneFrame: string := "data: [DONE]\n\n"

  function ErrorFrame(msg: string): string { "data: [ERROR] " + msg + "\n\n" }

  function Frames(tokens: seq<string>): (r: seq<string>)
    ensures |r| == |tokens| && forall j :: 0 <= j < |r| ==> r[j] == Frame(tokens[j])
  {
    seq(|tokens|, j requires 0 <= j < |tokens| => Frame(tokens[j]))
  }

  /** What `generate()` yields: a frame per token, then `[DONE]`, or a single `[ERROR]` frame when the completion raises. */
  function Generated(c: Completion): seq<string>
  {
    Frames(Tokens(c.deltas)) + [if c.failure.Some? then ErrorFrame(c.failure.value) else DoneFrame]
  }

  /**
   * A framing a reader can undo for every token: each line of the token on a `data:` line of its
   * own, as server-sent events carry multi-line data. This is the corrected form of `Frame`.
   */
  function DataLines(token: string): string
  {
    var ls := Split(token, '\n');
    Join(seq(|ls|, k requires 0 <= k < |ls| => "data: " + ls[k]), "\n")
  }

  function LinesFrame(token: string): string { DataLines(token) + "\n\n" }

  /** `generate()` with the corrected framing, for the closing frames too. */
  function LinesGenerated(c: Completion): seq<string>
  {
    var ts := Tokens(c.deltas);
    seq(|ts|, j requires 0 <= j < |ts| => LinesFrame(ts[j]))
    + [LinesFrame(if c.failure.Some? then "[ERROR] " + c.failure.value else "[DONE]")]
  }

  /** On a token without line feeds the corrected framing is the original one. */
  lemma LinesFrameAgrees(token: string)
    requires '\n' !in token
    ensures LinesFrame(token) == Frame(token)
  {
    assert Split(token, '\n') == [token];
  }

  /**
   * The stream ends with `[DONE]` exactly when the completion did not raise, and otherwise with
   * one `[ERROR]` frame; when no token is `[DONE]`, no other frame reads `[DONE]`.
   */
  lemma GeneratedEnds(c: Completion)
    ensures var g := Generated(c);
      (g[|g| - 1] == DoneFrame <==> c.failure.None?)
      && (c.failure.Some? ==> g[|g| - 1] == ErrorFrame(c.failure.value))
      && ((forall t :: t in c.deltas ==> t != "[DONE]") ==> forall j :: 0 <= j < |g| - 1 ==> g[j] != DoneFrame)
  {
    var g := Generated(c);
    if c.failure.Some? {
      assert g[|g| - 1][7] == 'E' && DoneFrame[7] == 'D';
    }
    if forall t :: t in c.deltas ==> t != "[DONE]" {
      forall j | 0 <= j < |g| - 1 ensures g[j] != DoneFrame
      {
        var t := Tokens(c.deltas)[j];
        TokensFromDeltas(c.deltas, j);
        assert g[j] == Frame(t);
        assert g[j][6..|g[j]| - 2] == t;
        assert DoneFrame[6..|DoneFrame| - 2] == "[DONE]";
      }
    }
  }

  /** Every token is one of the deltas. */
  lemma {:induction false} TokensFromDeltas(deltas: seq<string>, j: int)
    requires 0 <= j < |Tokens(deltas)|
    ensures Tokens(deltas)[j] in deltas
  {
    var init := deltas[..|deltas| - 1];
    if j < |Tokens(init)| {
      TokensFromDeltas(init, j);
    }
  }

  /** The generator: a `data:` frame for each non-empty delta, then the closing frame. */
  method Generate(c: Completion) returns (frames: seq<string>)
    ensures frames == Generated(c)
  {
    frames := [];
    for i := 0 to |c.deltas|
      invariant frames == Frames(Tokens(c.deltas[..i]))
    {
      assert c.deltas[..i + 1][..i] == c.deltas[..i];
      var token := c.deltas[i];
      if token != "" {
        frames := frames + ["data: " + token + "\n\n"];
      }
    }
    assert c.deltas[..|c.deltas|] == c.deltas;
    if c.failure.Some? {
      frames := frames + ["data: [ERROR] " + c.failure.value + "\n\n"];
    } else {
      frames := frames + ["data: [DONE]\n\n"];
    }
  }

  /** The answers of `/report`: a 400 with its message, or the event stream. */
  datatype Reply = BadRequest(error: string) | Events(frames: seq<string>)

  /** `/report`: `complete` stands for the streaming completion of a prompt. */
  method Report(req: Request, complete: string -> Completion) returns (r: Reply)
    ensures r.BadRequest? <==> req.articles == []
    ensures r.Events? ==> r.frames == Generated(complete(PromptOf(req)))
  {
    var articles := Truncated(req.articles);
    if articles == [] {
      return BadRequest("no articles supplied");
    }
    var textBlock := TextBlock(articles);
    var parts := StatsParts(req.stats);
    var statsBlock := Join(parts, "\n");
    var prompt := Prompt(statsBlock, textBlock);
    var frames := Generate(complete(prompt));
    return Events(frames);
  }
}
