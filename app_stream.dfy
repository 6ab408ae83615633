/**
 * The report reader of the frontend (frontend/src/App.jsx, `generateReport`): the body of the
 * `/report` response arrives in chunks, is buffered, split on blank lines, and every complete
 * `data: ` part is appended to the report until `[DONE]`.
 */
module AppStream {
  import opened Wrappers
  import opened Text
  import AiService

  const Sep: string := "\n\n"
  const DataPrefix: string := "data: "
  const DoneToken: string := "[DONE]"

  /** What the reader leaves behind: the text appended to the report, and whether `[DONE]` ended the read. */
  datatype Parsed = Parsed(report: string, stopped: bool)

  /** How the reader takes one complete part: its payload when it starts with `data: `, `None` when it is ignored. */
  function AsWritten(part: string): (r: Option<string>)
    ensures r.Some? <==> StartsWith(part, DataPrefix)
    ensures r.Some? ==> part == DataPrefix + r.value
  {
    if StartsWith(part, DataPrefix) then Some(part[|DataPrefix|..]) else None
  }

  /**
   * The `for (const part of parts)` loop over a run of complete parts, with `decode` reading each
   * part: payloads are appended in order, other parts are skipped, and `[DONE]` stops everything.
   */
  function Handle(parts: seq<string>, decode: string -> Option<string>): (r: Parsed)
    ensures r.stopped <==> exists k :: 0 <= k < |parts| && decode(parts[k]) == Some(DoneToken)
  {
    if parts == [] then Parsed("", false)
    else
      var rest := Handle(parts[1..], decode);
      assert forall k :: 1 <= k < |parts| ==> parts[k] == parts[1..][k - 1];
      match decode(parts[0])
      case None => rest
      case Some(t) => if t == DoneToken then Parsed("", true) else Parsed(t + rest.report, rest.stopped)
  }

  /** Handling two runs one after the other is handling their concatenation; a stop in the first run ends it. */
  lemma {:induction false} HandleAppend(a: seq<string>, b: seq<string>, decode: string -> Option<string>)
    ensures var ha, hb := Handle(a, decode), Handle(b, decode);
      Handle(a + b, decode) == if ha.stopped then ha else Parsed(ha.report + hb.report, hb.stopped)
    decreases |a|
  {
    if a == [] {
      assert a + b == b;
    } else {
      assert (a + b)[0] == a[0];
      assert (a + b)[1..] == a[1..] + b;
      HandleAppend(a[1..], b, decode);
      var ha, hb := Handle(a[1..], decode), Handle(b, decode);
      if decode(a[0]).Some? && !ha.stopped {
        var t := decode(a[0]).value;
        assert t + (ha.report + hb.report) == (t + ha.report) + hb.report;
      }
    }
  }

  /** The complete parts of a buffer: everything `split` returns but the last piece. */
  function Framed(s: string): (r: seq<string>)
  {
    var p := SplitOn(s, Sep);
    p[..|p| - 1]
  }

  /** The last piece of the split, which `parts.pop()` keeps as the new buffer. */
  function Pending(s: string): (r: string)
    ensures !Contains(r, Sep)
  {
    var p := SplitOn(s, Sep);
    p[|p| - 1]
  }

  /** What reading the whole text `s` at once gives. */
  function Received(s: string, decode: string -> Option<string>): Parsed
  {
    Handle(Framed(s), decode)
  }

  /**
   * Splitting the buffer chunk by chunk is splitting the whole text: the parts completed so far
   * stay complete, and the new chunk only extends the pending piece.
   */
  lemma FramedAppend(s: string, c: string)
    ensures Framed(s + c) == Framed(s) + Framed(Pending(s) + c)
    ensures Pending(s + c) == Pending(Pending(s) + c)
  {
    var p := SplitOn(s, Sep);
    var q := SplitOn(Pending(s) + c, Sep);
    var r := SplitOn(s + c, Sep);
    assert r == p[..|p| - 1] + q by {
      SplitOnAppend(s, c, Sep);
    }
    InitOfAppend(p[..|p| - 1], q);
  }

  /** Once `[DONE]` has been read, what follows it changes nothing. */
  lemma StopIsFinal(s: string, more: string, decode: string -> Option<string>)
    requires Received(s, decode).stopped
    ensures Received(s + more, decode) == Received(s, decode)
  {
    FramedAppend(s, more);
    HandleAppend(Framed(s), Framed(Pending(s) + more), decode);
  }

  /** Reading a chunk: the new complete parts are those of the pending piece extended by the chunk. */
  lemma ReceivedAppend(s: string, c: string, decode: string -> Option<string>)
    requires !Received(s, decode).stopped
    ensures var h := Handle(Framed(Pending(s) + c), decode);
      Received(s + c, decode) == Parsed(Received(s, decode).report + h.report, h.stopped)
  {
    FramedAppend(s, c);
    HandleAppend(Framed(s), Framed(Pending(s) + c), decode);
  }

  lemma ConcatSnoc(chunks: seq<string>, i: int)
    requires 0 <= i < |chunks|
    ensures Concat(chunks[..i + 1]) == Concat(chunks[..i]) + chunks[i]
  {
    assert chunks[..i + 1] == chunks[..i] + [chunks[i]];
    ConcatAppend(chunks[..i], [chunks[i]]);
    assert Concat([chunks[i]]) == chunks[i] + Concat([]);
  }

  /** The inner loop: the payloads of the `data: ` parts in order, returning at `[DONE]`. */
  method HandleParts(parts: seq<string>) returns (tokens: string, done: bool)
    ensures Parsed(tokens, done) == Handle(parts, AsWritten)
  {
    tokens := "";
    for j := 0 to |parts|
      invariant Handle(parts[..j], AsWritten) == Parsed(tokens, false)
    {
      var part := parts[j];
      assert parts[..j + 1] == parts[..j] + [part];
      HandleAppend(parts[..j], [part], AsWritten);
      if StartsWith(part, DataPrefix) {
        var token := part[6..];
        if token == "[DONE]" {
          assert parts == parts[..j] + parts[j..];
          assert parts[j..][0] == part;
          HandleAppend(parts[..j], parts[j..], AsWritten);
          return tokens, true;
        }
        tokens := tokens + token;
      }
    }
    assert parts[..|parts|] == parts;
    return tokens, false;
  }

  /**
   * The read loop of `generateReport`, with the decoded chunks as input: the buffer is extended,
   * split on blank lines, its last piece carried over, and the loop returns at `[DONE]`. The
   * result is what reading the whole body at once gives, whatever the chunk boundaries.
   */
  method ReadStream(chunks: seq<string>) returns (report: string, stopped: bool)
    ensures Parsed(report, stopped) == Received(Concat(chunks), AsWritten)
  {
    report := "";
    var buffer := "";
    var i := 0;
    assert Concat(chunks[..0]) == "";
    assert SplitOn("", Sep) == [""];
    while i < |chunks|
      invariant 0 <= i <= |chunks|
      invariant buffer == Pending(Concat(chunks[..i]))
      invariant Received(Concat(chunks[..i]), AsWritten) == Parsed(report, false)
    {
      ReadStep(chunks, i, report);
      buffer := buffer + chunks[i];
      var parts := SplitOn(buffer, Sep);
      buffer := parts[|parts| - 1];
      var tokens, done := HandleParts(parts[..|parts| - 1]);
      report := report + tokens;
      if done {
        ReadStop(chunks, i);
        return report, true;
      }
      i := i + 1;
    }
    assert chunks[..i] == chunks;
    return report, false;
  }

  /** One chunk more: the pending piece extended by the chunk is split, and its parts handled. */
  lemma ReadStep(chunks: seq<string>, i: int, report: string)
    requires 0 <= i < |chunks|
    requires Received(Concat(chunks[..i]), AsWritten) == Parsed(report, false)
    ensures var b := Pending(Concat(chunks[..i])) + chunks[i]; var h := Handle(Framed(b), AsWritten);
      && Pending(Concat(chunks[..i + 1])) == Pending(b)
      && Received(Concat(chunks[..i + 1]), AsWritten) == Parsed(report + h.report, h.stopped)
  {
    var s := Concat(chunks[..i]);
    ConcatSnoc(chunks, i);
    ReceivedAppend(s, chunks[i], AsWritten);
    FramedAppend(s, chunks[i]);
  }

  /** Stopping after chunk `i` gives what reading every chunk gives. */
  lemma ReadStop(chunks: seq<string>, i: int)
    requires 0 <= i < |chunks| && Received(Concat(chunks[..i + 1]), AsWritten).stopped
    ensures Received(Concat(chunks), AsWritten) == Received(Concat(chunks[..i + 1]), AsWritten)
  {
    var front, back := chunks[..i + 1], chunks[i + 1..];
    TakeDrop(chunks, i + 1);
    ConcatAppend(front, back);
    StopIsFinal(Concat(front), Concat(back), AsWritten);
  }

  /** A prefix without line feeds keeps the line feeds of a string lone. */
  lemma PrefixLone(pre: string, t: string)
    requires '\n' !in pre && LoneNewlines(t)
    ensures LoneNewlines(pre + t)
  {
    var p := pre + t;
    forall i | 0 <= i < |p| && p[i] == '\n' ensures i + 1 < |p| && p[i + 1] != '\n'
    {
      assert i >= |pre| && p[i] == t[i - |pre|];
      assert p[i + 1] == t[i + 1 - |pre|];
    }
  }

  /** A part without a blank line or a final line feed is split off as it is, with its separator. */
  lemma PartSplits(p: string, rest: string)
    requires LoneNewlines(p)
    ensures Framed(p + Sep + rest) == [p] + Framed(rest)
    ensures Pending(p + Sep + rest) == Pending(rest)
  {
    LoneNewlinesClean(p);
    assert Sep[..|Sep| - 1] == "\n";
    SplitOnFirst(p, Sep, rest);
  }

  /** The text of a run of complete events: each part followed by its blank line. */
  function Events(ps: seq<string>): (r: seq<string>)
    ensures |r| == |ps| && forall k :: 0 <= k < |r| ==> r[k] == ps[k] + Sep
  {
    seq(|ps|, k requires 0 <= k < |ps| => ps[k] + Sep)
  }

  /** Splitting complete events gives their parts back, then the parts of what follows. */
  lemma {:induction false} EventsFramed(ps: seq<string>, rest: string)
    requires forall k :: 0 <= k < |ps| ==> LoneNewlines(ps[k])
    ensures Framed(Concat(Events(ps)) + rest) == ps + Framed(rest)
    decreases |ps|
  {
    if ps == [] {
      assert Events(ps) == [];
      assert Concat(Events(ps)) + rest == rest;
    } else {
      var es := Events(ps);
      assert es[1..] == Events(ps[1..]);
      var tail := Concat(es[1..]) + rest;
      assert Framed(tail) == ps[1..] + Framed(rest) by {
        EventsFramed(ps[1..], rest);
      }
      assert Concat(es) + rest == ps[0] + Sep + tail;
      PartSplits(ps[0], tail);
      assert [ps[0]] + (ps[1..] + Framed(rest)) == ps + Framed(rest);
    }
  }

  /** Parts that all decode to tokens other than `[DONE]` append those tokens, in order. */
  lemma {:induction false} HandleAll(ps: seq<string>, decode: string -> Option<string>, ts: seq<string>)
    requires |ps| == |ts|
    requires forall k :: 0 <= k < |ps| ==> decode(ps[k]) == Some(ts[k]) && ts[k] != DoneToken
    ensures Handle(ps, decode) == Parsed(Concat(ts), false)
    decreases |ps|
  {
    if ps != [] {
      HandleAll(ps[1..], decode, ts[1..]);
    }
  }

  /** Reading complete events that decode to tokens other than `[DONE]`: the tokens, then what follows. */
  lemma EventsRead(ps: seq<string>, ts: seq<string>, decode: string -> Option<string>, rest: string)
    requires |ps| == |ts|
    requires forall k :: 0 <= k < |ps| ==> LoneNewlines(ps[k]) && decode(ps[k]) == Some(ts[k]) && ts[k] != DoneToken
    ensures var h := Received(rest, decode);
      Received(Concat(Events(ps)) + rest, decode) == Parsed(Concat(ts) + h.report, h.stopped)
  {
    EventsFramed(ps, rest);
    HandleAll(ps, decode, ts);
    HandleAppend(ps, Framed(rest), decode);
  }

  /**
   * Reading the frames of tokens with lone line feeds, none of them `[DONE]`, appends the tokens
   * in order, and then reads on as if the frames were not there.
   */
  lemma FramesRead(ts: seq<string>, rest: string)
    requires forall k :: 0 <= k < |ts| ==> LoneNewlines(ts[k]) && ts[k] != DoneToken
    ensures var h := Received(rest, AsWritten);
      Received(Concat(AiService.Frames(ts)) + rest, AsWritten) == Parsed(Concat(ts) + h.report, h.stopped)
  {
    var ps := DataEvents(ts);
    EventsRead(ps, ts, AsWritten, rest);
  }

  /** The frames of tokens with lone line feeds are the events of their `data:` parts. */
  lemma DataEvents(ts: seq<string>) returns (ps: seq<string>)
    requires forall k :: 0 <= k < |ts| ==> LoneNewlines(ts[k])
    ensures |ps| == |ts| && AiService.Frames(ts) == Events(ps)
    ensures forall k :: 0 <= k < |ps| ==> LoneNewlines(ps[k]) && AsWritten(ps[k]) == Some(ts[k])
  {
    ps := seq(|ts|, k requires 0 <= k < |ts| => DataPrefix + ts[k]);
    forall k | 0 <= k < |ps| ensures LoneNewlines(ps[k]) && AsWritten(ps[k]) == Some(ts[k])
    {
      PrefixLone(DataPrefix, ts[k]);
    }
    forall k | 0 <= k < |ts| ensures AiService.Frames(ts)[k] == Events(ps)[k]
    {
      assert AiService.Frame(ts[k]) == (DataPrefix + ts[k]) + Sep;
    }
  }

  /** Reading nothing appends nothing and does not stop. */
  lemma EmptyRead()
    ensures Received("", AsWritten) == Parsed("", false)
  {
    assert SplitOn("", Sep) == [""];
    assert Framed("") == [];
  }

  /** The closing frame alone reads as a stop with nothing appended. */
  lemma DoneFrameRead()
    ensures Framed(AiService.DoneFrame) == [DataPrefix + DoneToken]
    ensures Received(AiService.DoneFrame, AsWritten) == Parsed("", true)
  {
    DoneFramed();
    assert AsWritten(DataPrefix + DoneToken) == Some(DoneToken);
  }

  /** The closing frame is one part, the `[DONE]` line. */
  lemma DoneFramed()
    ensures Framed(AiService.DoneFrame) == [DataPrefix + DoneToken]
  {
    var p := DataPrefix + DoneToken;
    assert p == "data: [DONE]";
    assert LoneNewlines(p);
    PartSplits(p, "");
    assert p + Sep == AiService.DoneFrame;
    assert p + Sep + "" == p + Sep;
    EmptyRead();
  }

  /** An error frame with a one-line message is appended to the report as `[ERROR] <message>`, and reading goes on. */
  lemma ErrorFrameRead(msg: string)
    requires LoneNewlines(msg)
    ensures Received(AiService.ErrorFrame(msg), AsWritten) == Parsed("[ERROR] " + msg, false)
  {
    var t := "[ERROR] " + msg;
    var part := DataPrefix + t;
    ErrorFramed(msg);
    assert t[1] != DoneToken[1];
    assert AsWritten(part) == Some(t);
    assert [part][1..] == [];
    assert Handle([part], AsWritten) == Parsed(t + "", false);
    assert t + "" == t;
  }

  /** An error frame with a one-line message is the single part `data: [ERROR] <message>`. */
  lemma ErrorFramed(msg: string)
    requires LoneNewlines(msg)
    ensures Framed(AiService.ErrorFrame(msg)) == [DataPrefix + ("[ERROR] " + msg)]
  {
    var part := DataPrefix + ("[ERROR] " + msg);
    PrefixLone("[ERROR] ", msg);
    PrefixLone(DataPrefix, "[ERROR] " + msg);
    PartSplits(part, "");
    EmptyRead();
    assert part + Sep + "" == AiService.ErrorFrame(msg);
  }

  /** The frame that closes a completion's stream. */
  function Closing(c: AiService.Completion): (r: string)
    ensures AiService.Generated(c) == AiService.Frames(AiService.Tokens(c.deltas)) + [r]
  {
    if c.failure.Some? then AiService.ErrorFrame(c.failure.value) else AiService.DoneFrame
  }

  /** The frames of the tokens read as the deltas, followed by whatever the closing frame reads as. */
  lemma GeneratedRead(c: AiService.Completion)
    requires forall k :: 0 <= k < |c.deltas| ==> LoneNewlines(c.deltas[k]) && c.deltas[k] != DoneToken
    ensures var h := Received(Closing(c), AsWritten);
      Received(Concat(AiService.Generated(c)), AsWritten) == Parsed(Concat(c.deltas) + h.report, h.stopped)
  {
    var ts := AiService.Tokens(c.deltas);
    var last := Closing(c);
    forall k | 0 <= k < |ts| ensures LoneNewlines(ts[k]) && ts[k] != DoneToken
    {
      AiService.TokensFromDeltas(c.deltas, k);
    }
    assert Concat(ts) == Concat(c.deltas) by {
      AiService.TokensKeepText(c.deltas);
    }
    assert Concat(AiService.Generated(c)) == Concat(AiService.Frames(ts)) + last by {
      ConcatAppend(AiService.Frames(ts), [last]);
      assert Concat([last]) == last + Concat([]);
    }
    FramesRead(ts, last);
  }

  /**
   * The round trip between the service's `generate` and this reader: when no delta holds a blank
   * line, ends in a line feed or is `[DONE]`, the report is the concatenation of the deltas and
   * the read ends at `[DONE]`, whatever the chunk boundaries (see `ReadStream`).
   */
  lemma ReportRoundTrip(c: AiService.Completion)
    requires forall k :: 0 <= k < |c.deltas| ==> LoneNewlines(c.deltas[k]) && c.deltas[k] != DoneToken
    requires c.failure.None?
    ensures Received(Concat(AiService.Generated(c)), AsWritten) == Parsed(Concat(c.deltas), true)
  {
    GeneratedRead(c);
    assert Closing(c) == AiService.DoneFrame;
    DoneFrameRead();
    var h := Received(AiService.DoneFrame, AsWritten);
    assert h.report == "" && h.stopped;
    assert Concat(c.deltas) + h.report == Concat(c.deltas);
  }

  /** A failing completion leaves the deltas followed by its one-line `[ERROR]` message in the report, and no stop. */
  lemma ReportErrorTrip(c: AiService.Completion)
    requires forall k :: 0 <= k < |c.deltas| ==> LoneNewlines(c.deltas[k]) && c.deltas[k] != DoneToken
    requires c.failure.Some? && LoneNewlines(c.failure.value)
    ensures Received(Concat(AiService.Generated(c)), AsWritten)
      == Parsed(Concat(c.deltas) + "[ERROR] " + c.failure.value, false)
  {
    GeneratedRead(c);
    ErrorFrameRead(c.failure.value);
    assert Concat(c.deltas) + ("[ERROR] " + c.failure.value) == Concat(c.deltas) + "[ERROR] " + c.failure.value;
  }

  /**
   * A delta that ends in a line feed breaks the framing: for the deltas `"a\n"` and `"b"` the
   * stream reads `data: a`, then a part `\ndata: b` that does not start with `data: ` and is
   * dropped, so the report is `a` instead of `a\nb`.
   */
  lemma NewlineDeltaLost()
    ensures var c := AiService.Completion(["a\n", "b"], None);
      Concat(c.deltas) == "a\nb" && Received(Concat(AiService.Generated(c)), AsWritten) == Parsed("a", true)
  {
    var c := AiService.Completion(["a\n", "b"], None);
    var p1, p2 := "data: a", "\ndata: b";
    assert Concat(AiService.Generated(c)) == p1 + Sep + (p2 + Sep + AiService.DoneFrame) by {
      NewlineDeltaFrames();
    }
    NewlineDeltaParts(p1, p2);
    NewlineDeltaHandled(p1, p2);
    assert Concat(c.deltas) == "a\n" + ("b" + "");
  }

  /** The frames of the two deltas `"a\n"` and `"b"` split into three parts. */
  lemma NewlineDeltaParts(p1: string, p2: string)
    requires p1 == "data: a" && p2 == "\ndata: b"
    ensures Framed(p1 + Sep + (p2 + Sep + AiService.DoneFrame)) == [p1, p2, DataPrefix + DoneToken]
  {
    assert LoneNewlines(p1);
    assert LoneNewlines(p2);
    PartSplits(p1, p2 + Sep + AiService.DoneFrame);
    PartSplits(p2, AiService.DoneFrame);
    DoneFramed();
  }

  /** The second of those parts does not start with `data: `, so its text is dropped. */
  lemma NewlineDeltaHandled(p1: string, p2: string)
    requires p1 == "data: a" && p2 == "\ndata: b"
    ensures Handle([p1, p2, DataPrefix + DoneToken], AsWritten) == Parsed("a", true)
  {
    var parts := [p1, p2, DataPrefix + DoneToken];
    assert AsWritten(p1) == Some("a");
    assert p2[0] != DataPrefix[0];
    assert AsWritten(p2) == None;
    assert AsWritten(DataPrefix + DoneToken) == Some(DoneToken);
    assert parts[1..] == [p2, DataPrefix + DoneToken];
    assert parts[1..][1..] == [DataPrefix + DoneToken];
    assert Handle(parts[1..][1..], AsWritten) == Parsed("", true);
    assert Handle(parts[1..], AsWritten) == Parsed("", true);
    assert Handle(parts, AsWritten) == Parsed("a" + "", true);
  }


  /** The stream `generate()` sends for the deltas `"a\n"` and `"b"`. */
  lemma NewlineDeltaFrames()
    ensures Concat(AiService.Generated(AiService.Completion(["a\n", "b"], None)))
      == "data: a" + Sep + ("\ndata: b" + Sep + AiService.DoneFrame)
  {
    var c := AiService.Completion(["a\n", "b"], None);
    NewlineDeltaTokens();
    var fa, fb, d := AiService.Frame("a\n"), AiService.Frame("b"), AiService.DoneFrame;
    assert AiService.Generated(c) == [fa, fb, d];
    ConcatThree(fa, fb, d);
    var head := "data: a" + Sep;
    assert fa == head + "\n";
    assert "\ndata: b" + Sep == "\n" + fb;
    DropFront(head, "\n", fb + d);
    DropFront("\n", fb, d);
  }

  lemma NewlineDeltaTokens()
    ensures AiService.Tokens(["a\n", "b"]) == ["a\n", "b"]
  {
    var ds := ["a\n", "b"];
    assert AiService.Tokens(ds[..1]) == ["a\n"] by {
      assert ds[..1][..0] == [];
    }
    assert ds[..2][..1] == ds[..1];
  }

  lemma ConcatThree(x: string, y: string, z: string)
    ensures Concat([x, y, z]) == x + (y + z)
  {
    assert [z][1..] == [];
    assert z + "" == z;
    assert Concat([z]) == z;
    assert [y, z][1..] == [z];
    assert Concat([y, z]) == y + z;
    assert [x, y, z][1..] == [y, z];
  }

  /**
   * The reader for the corrected framing: a `data:` event's lines each lose their `data: `
   * prefix and are joined with line feeds, as server-sent events are read.
   */
  function DecodeLines(part: string): (r: Option<string>)
    ensures r.Some? <==> StartsWith(part, DataPrefix)
  {
    if StartsWith(part, DataPrefix) then
      var ls := Split(part, '\n');
      Some(Join(seq(|ls|, k requires 0 <= k < |ls| => if StartsWith(ls[k], DataPrefix) then ls[k][6..] else ls[k]), "\n"))
    else None
  }

  /** Every token survives the corrected framing: its event is one part, which decodes to the token. */
  lemma DataLinesDecode(t: string)
    ensures LoneNewlines(AiService.DataLines(t)) && DecodeLines(AiService.DataLines(t)) == Some(t)
  {
    var ls := Split(t, '\n');
    var dl := seq(|ls|, k requires 0 <= k < |ls| => DataPrefix + ls[k]);
    forall k | 0 <= k < |dl| ensures |dl[k]| > 0 && '\n' !in dl[k]
    {
      assert '\n' !in ls[k];
    }
    assert AiService.DataLines(t) == Join(dl, "\n");
    JoinLone(dl);
    SplitJoin(dl, '\n');
    var back := seq(|dl|, k requires 0 <= k < |dl| => if StartsWith(dl[k], DataPrefix) then dl[k][6..] else dl[k]);
    assert back == ls;
    JoinSplit(t, '\n');
    assert dl[0][..6] == DataPrefix;
  }

  /** The corrected round trip: every delta but `[DONE]` comes back, line feeds included, and the read ends at `[DONE]`. */
  lemma LinesRoundTrip(c: AiService.Completion)
    requires forall k :: 0 <= k < |c.deltas| ==> c.deltas[k] != DoneToken
    requires c.failure.None?
    ensures Received(Concat(AiService.LinesGenerated(c)), DecodeLines) == Parsed(Concat(c.deltas), true)
  {
    var ts := AiService.Tokens(c.deltas);
    var ps := seq(|ts|, k requires 0 <= k < |ts| => AiService.DataLines(ts[k]));
    forall k | 0 <= k < |ps| ensures LoneNewlines(ps[k]) && DecodeLines(ps[k]) == Some(ts[k]) && ts[k] != DoneToken
    {
      DataLinesDecode(ts[k]);
      AiService.TokensFromDeltas(c.deltas, k);
    }
    var last := AiService.LinesFrame(DoneToken);
    assert Concat(AiService.LinesGenerated(c)) == Concat(Events(ps)) + last by {
      assert AiService.LinesGenerated(c) == Events(ps) + [last];
      ConcatAppend(Events(ps), [last]);
      assert Concat([last]) == last + Concat([]);
    }
    EventsRead(ps, ts, DecodeLines, last);
    assert Concat(ts) == Concat(c.deltas) by {
      AiService.TokensKeepText(c.deltas);
    }
    DataLinesDecode(DoneToken);
    EmptyRead();
    assert DecodeLines(AiService.DataLines(DoneToken)) == Some(DoneToken);
    PartSplits(AiService.DataLines(DoneToken), "");
    assert AiService.DataLines(DoneToken) + Sep + "" == last;
    assert Framed("") == [];
    assert Concat(c.deltas) + "" == Concat(c.deltas);
  }
}
