/**
 * The chart recovery step of the `/analyze` endpoint (backend/main.py): find
 * the chart marker in the model's final answer, strip it from the text and
 * hand the image separately; failing that, take the image from the newest
 * tool message that carries one.
 */
module Analysis {
  import opened Wrappers
  import opened Text
  import opened Messages
  import Agent

  /** The literal start of the pattern, up to the captured group. */
  const Head := "![CHART_GENERATED]("
  /** Where the captured group starts. */
  const DataUri := "data:image/"
  /** The pattern's fixed opening: `Head` then `DataUri`. */
  const Prefix := Head + DataUri
  /** The text each lazy group must be followed by. */
  const Base64Tag := ";base64,"
  const Close := ")"

  /**
   * Where a match of `!\[CHART_GENERATED\]\((data:image/.*?;base64,.*?)\)`
   * (with `.` matching newlines too) sits in a text: the opening starts at
   * `start`, the `;base64,` it uses at `tag`, and the closing parenthesis at `close`.
   */
  datatype Match = Match(start: nat, tag: nat, close: nat)

  /** The pattern matches `s` with its opening at `i`, `;base64,` at `k` and `)` at `e`. */
  predicate IsMatch(s: string, i: nat, k: nat, e: nat) {
    OccursAt(s, Prefix, i) && i + |Prefix| <= k && OccursAt(s, Base64Tag, k)
    && k + |Base64Tag| <= e && OccursAt(s, Close, e)
  }

  /**
   * Three scans in a row: the first `open`, then the first `tag` after it,
   * then the first `close` after that.
   */
  function Scans(s: string, open: string, tag: string, close: string): (r: Option<Match>)
    ensures r.Some? ==> OccursAt(s, open, r.value.start) && r.value.start + |open| <= r.value.tag
                        && OccursAt(s, tag, r.value.tag) && r.value.tag + |tag| <= r.value.close
                        && OccursAt(s, close, r.value.close)
  {
    match FindFrom(s, open, 0)
    case None => None
    case Some(i) =>
      match FindFrom(s, tag, i + |open|)
      case None => None
      case Some(k) =>
        match FindFrom(s, close, k + |tag|)
        case None => None
        case Some(e) => Some(Match(i, k, e))
  }

  /** Python's `re.search` for the chart pattern, written as the three scans for its fixed pieces. */
  function Search(s: string): (r: Option<Match>)
    ensures r.Some? ==> IsMatch(s, r.value.start, r.value.tag, r.value.close)
  {
    Scans(s, Prefix, Base64Tag, Close)
  }

  /**
   * The scans find exactly the match a backtracking regex engine reports: none
   * when the pattern matches nowhere; otherwise the leftmost start, and at that
   * start the shortest first lazy group, then the shortest second one.
   * In particular only the first opening matters: if it has no `;base64,`
   * and `)` after it, no later opening has either.
   */
  lemma SearchIsRegexSearch(s: string)
    ensures Search(s).None? ==> forall i: nat, k: nat, e: nat :: !IsMatch(s, i, k, e)
    ensures Search(s).Some? ==>
              var m := Search(s).value;
              (forall i: nat, k: nat, e: nat :: i < m.start ==> !IsMatch(s, i, k, e)) &&
              (forall k: nat, e: nat :: k < m.tag ==> !IsMatch(s, m.start, k, e)) &&
              (forall e: nat :: e < m.close ==> !IsMatch(s, m.start, m.tag, e))
  {
    match FindFrom(s, Prefix, 0)
    case None =>
    case Some(i0) =>
      match FindFrom(s, Base64Tag, i0 + |Prefix|)
      case None =>
      case Some(k0) =>
        match FindFrom(s, Close, k0 + |Base64Tag|)
        case None =>
        case Some(e0) =>
          forall i: nat, k: nat, e: nat | i < i0
            ensures !IsMatch(s, i, k, e)
          {
            assert !OccursAt(s, Prefix, i);
          }
          forall k: nat, e: nat | k < k0
            ensures !IsMatch(s, i0, k, e)
          {
            if i0 + |Prefix| <= k {
              assert !OccursAt(s, Base64Tag, k);
            }
          }
          forall e: nat | e < e0
            ensures !IsMatch(s, i0, k0, e)
          {
            if k0 + |Base64Tag| <= e {
              assert !OccursAt(s, Close, e);
            }
          }
  }

  /** The whole marker the match covers (`match.group(0)`). */
  function Whole(s: string, m: Match): (w: string)
    requires m.start <= m.close < |s|
    ensures |w| > 0 && OccursAt(s, w, m.start)
  {
    s[m.start..m.close + 1]
  }

  /** The captured data URI (`match.group(1)`): from `data:image/` up to, not including, the `)`. */
  function Captured(s: string, m: Match): string
    requires m.start + |Head| <= m.close <= |s|
  {
    s[m.start + |Head|..m.close]
  }

  /** The data URI of the first chart marker in `s`, if the pattern matches. */
  function FindChart(s: string): Option<string> {
    match Search(s)
    case None => None
    case Some(m) => Some(Captured(s, m))
  }

  /**
   * A captured chart is `data:image/`, some text, the `;base64,` the search
   * chose, and then text free of `)`. In particular it is never empty, so
   * testing it for truthiness is testing it for presence.
   */
  lemma CapturedShape(s: string)
    requires Search(s).Some?
    ensures var m := Search(s).value; var c := Captured(s, m);
            |c| >= |DataUri| + |Base64Tag| && c[..|DataUri|] == DataUri
            && OccursAt(c, Base64Tag, m.tag - m.start - |Head|)
            && Close[0] !in c[m.tag - m.start - |Head| + |Base64Tag|..]
  {
    var m := Search(s).value;
    SearchIsRegexSearch(s);
    CapturedParts(s, m);
  }

  lemma CapturedParts(s: string, m: Match)
    requires IsMatch(s, m.start, m.tag, m.close)
    requires forall e: nat :: e < m.close ==> !IsMatch(s, m.start, m.tag, e)
    ensures var c := Captured(s, m); var t := m.tag - m.start - |Head|;
            |c| >= |DataUri| + |Base64Tag| && c[..|DataUri|] == DataUri
            && OccursAt(c, Base64Tag, t) && Close[0] !in c[t + |Base64Tag|..]
  {
    var c := Captured(s, m);
    var off := m.start + |Head|;
    OccursAtSecond(s, Head, DataUri, m.start);
    SliceOfSlice(s, off, m.close, 0, |DataUri|);
    var t := m.tag - off;
    SliceOfSlice(s, off, m.close, t, t + |Base64Tag|);
    forall j | t + |Base64Tag| <= j < |c|
      ensures c[j] != Close[0]
    {
      assert !IsMatch(s, m.start, m.tag, off + j);
      assert !OccursAt(s, Close, off + j);
      SliceOfSlice(s, off + j, |s|, 0, 1);
      assert s[off + j..off + j + 1] == [c[j]];
    }
  }

  // ---------------------------------------------------------------------
  // Fallback through the tool history
  // ---------------------------------------------------------------------

  /** The chart a message supplies to the fallback: only tool messages are looked at. */
  function ToolChart(m: Message): Option<string> {
    if m.Tool? then FindChart(m.content) else None
  }

  /**
   * The first value `pick` yields when `xs` is walked from its last element
   * back to its first, as a loop over `reversed(xs)` that breaks at the first hit.
   */
  function NewestPick<T>(xs: seq<T>, pick: T -> Option<string>): Option<string>
    decreases |xs|
  {
    if xs == [] then None
    else match pick(xs[|xs| - 1])
      case Some(c) => Some(c)
      case None => NewestPick(xs[..|xs| - 1], pick)
  }

  lemma {:induction false} NewestPickNone<T>(xs: seq<T>, pick: T -> Option<string>)
    ensures NewestPick(xs, pick).None? <==> forall j :: 0 <= j < |xs| ==> pick(xs[j]).None?
    decreases |xs|
  {
    if xs != [] {
      var n := |xs| - 1;
      NewestPickNone(xs[..n], pick);
      assert forall j :: 0 <= j < n ==> xs[..n][j] == xs[j];
    }
  }

  lemma {:induction false} NewestPickNewest<T>(xs: seq<T>, pick: T -> Option<string>)
    requires NewestPick(xs, pick).Some?
    ensures exists j :: 0 <= j < |xs| && pick(xs[j]) == NewestPick(xs, pick) &&
              forall k :: j < k < |xs| ==> pick(xs[k]).None?
    decreases |xs|
  {
    var n := |xs| - 1;
    var init := xs[..n];
    if pick(xs[n]).Some? {
      assert pick(xs[n]) == NewestPick(xs, pick);
    } else {
      NewestPickNewest(init, pick);
      var j :| 0 <= j < n && pick(init[j]) == NewestPick(init, pick) &&
               forall k :: j < k < n ==> pick(init[k]).None?;
      assert forall k :: j < k < n ==> init[k] == xs[k];
      assert xs[j] == init[j];
    }
  }

  lemma {:induction false} NewestPickSkipsNewer<T>(pre: seq<T>, post: seq<T>, pick: T -> Option<string>)
    requires forall k :: 0 <= k < |post| ==> pick(post[k]).None?
    ensures NewestPick(pre + post, pick) == NewestPick(pre, pick)
    decreases |post|
  {
    if post == [] {
      assert pre + post == pre;
    } else {
      var n := |post| - 1;
      assert (pre + post)[..|pre + post| - 1] == pre + post[..n];
      assert (pre + post)[|pre + post| - 1] == post[n];
      NewestPickSkipsNewer(pre, post[..n], pick);
    }
  }

  /** The chart of the newest tool message that has one. */
  function LatestToolChart(history: seq<Message>): Option<string> {
    NewestPick(history, ToolChart)
  }

  /** The fallback finds nothing exactly when no tool message carries a chart. */
  lemma LatestToolChartNone(history: seq<Message>)
    ensures LatestToolChart(history).None? <==> forall j :: 0 <= j < |history| ==> ToolChart(history[j]).None?
  {
    NewestPickNone(history, ToolChart);
  }

  /**
   * When the fallback finds a chart, it comes from a tool message after which
   * no message supplies a chart: the newest one wins, and non-tool messages
   * never supply one.
   */
  lemma LatestToolChartNewest(history: seq<Message>)
    requires LatestToolChart(history).Some?
    ensures exists j :: 0 <= j < |history| && history[j].Tool? &&
              FindChart(history[j].content) == LatestToolChart(history) &&
              forall k :: j < k < |history| ==> ToolChart(history[k]).None?
  {
    NewestPickNewest(history, ToolChart);
  }

  /** Messages newer than the ones searched that supply no chart do not change the fallback. */
  lemma LatestToolChartSkipsNewer(pre: seq<Message>, post: seq<Message>)
    requires forall k :: 0 <= k < |post| ==> ToolChart(post[k]).None?
    ensures LatestToolChart(pre + post) == LatestToolChart(pre)
  {
    NewestPickSkipsNewer(pre, post, ToolChart);
  }

  // ---------------------------------------------------------------------
  // The whole step
  // ---------------------------------------------------------------------

  /** What `/analyze` returns: the cleaned answer text and the chart, if any. */
  datatype Reply = Reply(response: string, chartData: Option<string>)

  /** The chart recovery step over the final answer text and the message history. */
  function Recover(finalText: string, history: seq<Message>): Reply {
    match Search(finalText)
    case Some(m) => Reply(DeleteAll(finalText, Whole(finalText, m)), Some(Captured(finalText, m)))
    case None => Reply(finalText, LatestToolChart(history))
  }

  /**
   * The endpoint's recovery step as the source runs it: match the final answer
   * (the last message's text) and strip the marker, then, if no chart was found,
   * walk the history from newest to oldest and stop at the first tool message
   * with a chart.
   */
  method RecoverChart(messages: seq<Message>) returns (response: string, chartData: Option<string>)
    requires |messages| > 0
    ensures Reply(response, chartData) == Recover(messages[|messages| - 1].content, messages)
  {
    var finalText := messages[|messages| - 1].content;
    chartData := None;
    var found := Search(finalText);
    if found.Some? {
      chartData := Some(Captured(finalText, found.value));
      finalText := DeleteAll(finalText, Whole(finalText, found.value));
    }
    if chartData.None? {
      var i := |messages|;
      assert messages[..i] == messages;
      while i > 0
        invariant 0 <= i <= |messages|
        invariant chartData.None? ==> LatestToolChart(messages[..i]) == LatestToolChart(messages)
        invariant chartData.Some? ==> chartData == LatestToolChart(messages)
        decreases i, chartData.None?
      {
        var msg := messages[i - 1];
        assert messages[..i][..i - 1] == messages[..i - 1];
        if msg.Tool? {
          var hit := FindChart(msg.content);
          if hit.Some? {
            chartData := hit;
            break;
          }
        }
        i := i - 1;
      }
    }
    response := finalText;
  }

  /**
   * A match in the final answer decides alone: the chart is the captured data
   * URI, every non-overlapping copy of the whole marker is removed, the rest of
   * the text keeps its order, the text shrinks by exactly the removed copies,
   * hence strictly, and the history is never consulted.
   */
  lemma MatchInFinalText(finalText: string, history: seq<Message>, other: seq<Message>)
    requires Search(finalText).Some?
    ensures var m := Search(finalText).value; var marker := Whole(finalText, m);
            var r := Recover(finalText, history);
            r.chartData == Some(Captured(finalText, m)) &&
            |r.response| + Count(finalText, marker) * |marker| == |finalText| &&
            |r.response| < |finalText| &&
            Subsequence(r.response, finalText) &&
            r == Recover(finalText, other)
  {
    var m := Search(finalText).value;
    var marker := Whole(finalText, m);
    DeleteAllLength(finalText, marker);
    DeleteAllSubsequence(finalText, marker);
    CountPositive(finalText, marker, m.start);
    MulAtLeast(Count(finalText, marker), |marker|);
  }

  /** Without a match in the final answer, the text is returned unchanged and the chart comes from the tool history. */
  lemma NoMatchInFinalText(finalText: string, history: seq<Message>)
    requires forall i: nat, k: nat, e: nat :: !IsMatch(finalText, i, k, e)
    ensures Recover(finalText, history) == Reply(finalText, LatestToolChart(history))
  {
  }

  /**
   * When the first opening has no `;base64,` after it, or no `)` follows the
   * first such `;base64,`, the pattern matches nowhere in the text, later
   * openings included: the answer is kept and the chart comes from the history.
   */
  lemma UnfinishedMarkerFallsBack(finalText: string, history: seq<Message>)
    requires FindFrom(finalText, Prefix, 0).Some?
    requires var i := FindFrom(finalText, Prefix, 0).value;
             var k := FindFrom(finalText, Base64Tag, i + |Prefix|);
             k.None? || FindFrom(finalText, Close, k.value + |Base64Tag|).None?
    ensures forall i: nat, k: nat, e: nat :: !IsMatch(finalText, i, k, e)
    ensures Recover(finalText, history) == Reply(finalText, LatestToolChart(history))
  {
    ScansStop(finalText, Prefix, Base64Tag, Close);
    SearchIsRegexSearch(finalText);
  }

  /** With no chart anywhere, the answer comes back as it was and without a chart. */
  lemma NoChartAnywhere(finalText: string, history: seq<Message>)
    requires forall i: nat, k: nat, e: nat :: !IsMatch(finalText, i, k, e)
    requires forall j :: 0 <= j < |history| ==> !history[j].Tool? || forall i: nat, k: nat, e: nat :: !IsMatch(history[j].content, i, k, e)
    ensures Recover(finalText, history) == Reply(finalText, None)
  {
    forall j | 0 <= j < |history|
      ensures ToolChart(history[j]).None?
    {
    }
    LatestToolChartNone(history);
  }

  // ---------------------------------------------------------------------
  // Round trip with the marker written by execute_python
  // ---------------------------------------------------------------------

  /**
   * A marker as `execute_python` writes it is recovered whole when it holds
   * the first opening of the text: whatever comes after it, the chart found is
   * `data:image/png;base64,` followed by the PNG data, provided the data has
   * no `)` (base64 text never does).
   */
  lemma MarkerRoundTrip(before: string, png: string, after: string)
    requires forall j :: 0 <= j < |before| ==> !OccursAt(before + Agent.ChartMarker(png) + after, Prefix, j)
    requires ')' !in png
    ensures FindChart(before + Agent.ChartMarker(png) + after) == Some(Agent.PngDataUri(png))
  {
    var s := before + Agent.ChartMarker(png) + after;
    var k := |before| + |Prefix| + 3;
    MarkerOpening(before, png, after);
    MarkerTag(before, png, after);
    MarkerClose(before, png, after);
    MarkerCapture(before, png, after);
    ChartAt(s, |before|, k, k + |Base64Tag| + |png|, Agent.PngDataUri(png));
  }

  /** The marker's opening sits right after `before`. */
  lemma MarkerOpening(before: string, png: string, after: string)
    ensures OccursAt(before + Agent.ChartMarker(png) + after, Prefix, |before|)
  {
    var s := before + Agent.ChartMarker(png) + after;
    MarkerPieces(before, Head, DataUri, "png", Base64Tag, png, Close, after);
    Middle(s, before, Prefix, "png" + Base64Tag + png + Close + after);
  }

  /** The marker's `;base64,` comes three characters ("png", none of them `;`) after its opening. */
  lemma MarkerTag(before: string, png: string, after: string)
    ensures var s := before + Agent.ChartMarker(png) + after;
            var k := |before| + |Prefix| + 3;
            OccursAt(s, Base64Tag, k) && forall j :: |before| + |Prefix| <= j < k ==> s[j] != Base64Tag[0]
  {
    var s := before + Agent.ChartMarker(png) + after;
    MarkerPieces(before, Head, DataUri, "png", Base64Tag, png, Close, after);
    var x := before + Prefix;
    Middle(s, x, "png", Base64Tag + (png + Close + after));
    Middle(s, x + "png", Base64Tag, png + Close + after);
    assert Base64Tag[0] !in "png";
  }

  /** The marker's `)` follows the PNG data, which holds none. */
  lemma MarkerClose(before: string, png: string, after: string)
    requires ')' !in png
    ensures var s := before + Agent.ChartMarker(png) + after;
            var k := |before| + |Prefix| + 3 + |Base64Tag|;
            OccursAt(s, Close, k + |png|) && forall j :: k <= j < k + |png| ==> s[j] != Close[0]
  {
    var s := before + Agent.ChartMarker(png) + after;
    var x := before + Prefix + "png" + Base64Tag;
    MarkerPieces(before, Head, DataUri, "png", Base64Tag, png, Close, after);
    Middle(s, x, png, Close + after);
    Middle(s, x + png, Close, after);
  }

  /** What the pattern captures around the marker is the PNG data URI. */
  lemma MarkerCapture(before: string, png: string, after: string)
    ensures var s := before + Agent.ChartMarker(png) + after;
            var e := |before| + |Prefix| + 3 + |Base64Tag| + |png|;
            |before| + |Head| <= e <= |s| && s[|before| + |Head|..e] == Agent.PngDataUri(png)
  {
    var s := before + Agent.ChartMarker(png) + after;
    MarkerPieces(before, Head, DataUri, "png", Base64Tag, png, Close, after);
    Middle(s, before + Head, Agent.PngDataUri(png), Close + after);
  }

  /**
   * The chart found in a text whose first opening is at `a`, whose first
   * `;base64,` after it is at `k` and whose first `)` after that is at `e`.
   */
  lemma ChartAt(s: string, a: nat, k: nat, e: nat, c: string)
    requires OccursAt(s, Prefix, a) && forall j :: 0 <= j < a ==> !OccursAt(s, Prefix, j)
    requires a + |Prefix| <= k && OccursAt(s, Base64Tag, k)
    requires forall j :: a + |Prefix| <= j < k ==> s[j] != Base64Tag[0]
    requires k + |Base64Tag| <= e && OccursAt(s, Close, e)
    requires forall j :: k + |Base64Tag| <= j < e ==> s[j] != Close[0]
    requires a + |Head| <= e && s[a + |Head|..e] == c
    ensures FindChart(s) == Some(c)
  {
    FindFromIs(s, Prefix, 0, a);
    FindFromByFirstChar(s, Base64Tag, a + |Prefix|, k);
    FindFromByFirstChar(s, Close, k + |Base64Tag|, e);
    FindChartByScans(s, a, k, e);
  }

  /** When the three scans succeed, the chart is the text from the end of `Head` up to the `)`. */
  lemma FindChartByScans(s: string, i: nat, k: nat, e: nat)
    requires FindFrom(s, Prefix, 0) == Some(i)
    requires FindFrom(s, Base64Tag, i + |Prefix|) == Some(k)
    requires FindFrom(s, Close, k + |Base64Tag|) == Some(e)
    ensures i + |Head| <= e && FindChart(s) == Some(s[i + |Head|..e])
  {
    SearchByScans(s, i, k, e);
  }

  /** The three scans determine the search result. */
  lemma SearchByScans(s: string, i: nat, k: nat, e: nat)
    requires FindFrom(s, Prefix, 0) == Some(i)
    requires FindFrom(s, Base64Tag, i + |Prefix|) == Some(k)
    requires FindFrom(s, Close, k + |Base64Tag|) == Some(e)
    ensures Search(s) == Some(Match(i, k, e))
  {
    ScansFound(s, Prefix, Base64Tag, Close, i, k, e);
  }

  lemma ScansFound(s: string, open: string, tag: string, close: string, i: nat, k: nat, e: nat)
    requires FindFrom(s, open, 0) == Some(i)
    requires FindFrom(s, tag, i + |open|) == Some(k)
    requires FindFrom(s, close, k + |tag|) == Some(e)
    ensures Scans(s, open, tag, close) == Some(Match(i, k, e))
  {
  }

  /** The scans give nothing when the second or third one fails. */
  lemma ScansStop(s: string, open: string, tag: string, close: string)
    requires FindFrom(s, open, 0).Some?
    requires var i := FindFrom(s, open, 0).value;
             var k := FindFrom(s, tag, i + |open|);
             k.None? || FindFrom(s, close, k.value + |tag|).None?
    ensures Scans(s, open, tag, close).None?
  {
  }

  /** The ways the text around a marker splits into pieces, one per step of the search. */
  lemma MarkerPieces(b: string, h: string, d: string, g: string, t: string, p: string, c: string, a: string)
    ensures var s := b + (h + (d + g + t + p) + c) + a;
            s == b + (h + d) + (g + t + p + c + a) &&
            s == (b + (h + d)) + g + (t + (p + c + a)) &&
            s == (b + (h + d) + g + t) + p + (c + a) &&
            s == (b + h) + (d + g + t + p) + (c + a)
  {
  }

  /**
   * The cross-file round trip: when a sandbox run without error has a first
   * PNG-bearing result and the texts of the results before it hold no chart
   * opening, the tool output of `execute_python` yields that PNG as the chart.
   */
  lemma PythonOutputRoundTrip(e: Agent.Execution, n: nat)
    requires e.error.None? && n < |e.results|
    requires Agent.Truthy(e.results[n].png) && ')' !in e.results[n].png.value
    requires forall j :: 0 <= j < n ==> (!Agent.Truthy(e.results[j].png) &&
               (Agent.Truthy(e.results[j].text) ==> Avoids(e.results[j].text.value, Prefix)))
    ensures FindChart(Agent.PythonOutput(Agent.Ran(e))) == Some(Agent.PngDataUri(e.results[n].png.value))
  {
    var png := e.results[n].png.value;
    var before, after := PythonOutputAroundMarker(e, n);
    PrefixOpensOnce();
    assert Agent.ChartMarker(png)[0] == '!';
    AvoidsBefore(before, Agent.ChartMarker(png) + after, Prefix);
    assert before + (Agent.ChartMarker(png) + after) == before + Agent.ChartMarker(png) + after;
    MarkerRoundTrip(before, png, after);
  }

  /** A `!` in an earlier text result does not hide the chart: `RESULT: Done!` then the marker still yields the PNG. */
  lemma BangBeforeChart(png: string)
    requires png != "" && ')' !in png
    ensures var e := Agent.Execution(None, [Agent.SandboxResult(None, Some("Done!")), Agent.SandboxResult(Some(png), None)], "");
            FindChart(Agent.PythonOutput(Agent.Ran(e))) == Some(Agent.PngDataUri(png))
  {
    var e := Agent.Execution(None, [Agent.SandboxResult(None, Some("Done!")), Agent.SandboxResult(Some(png), None)], "");
    PrefixOpensOnce();
    assert |"Done!"| < |Prefix|;
    PythonOutputRoundTrip(e, 1);
  }

  /** The opening starts with `!`, holds no other `!` and no line break. */
  lemma PrefixOpensOnce()
    ensures |Prefix| > 0 && Prefix[0] == '!'
    ensures forall m :: 0 < m < |Prefix| ==> Prefix[m] != '!'
    ensures '\n' !in Prefix
  {
  }

  /** The output of such a run is text without an opening, the first PNG's marker, then the rest. */
  lemma PythonOutputAroundMarker(e: Agent.Execution, n: nat) returns (before: string, after: string)
    requires e.error.None? && n < |e.results|
    requires Agent.Truthy(e.results[n].png)
    requires forall j :: 0 <= j < n ==> (!Agent.Truthy(e.results[j].png) &&
               (Agent.Truthy(e.results[j].text) ==> Avoids(e.results[j].text.value, Prefix)))
    ensures Avoids(before, Prefix)
    ensures Agent.PythonOutput(Agent.Ran(e)) == before + Agent.ChartMarker(e.results[n].png.value) + after
  {
    var rs := e.results;
    var marker := Agent.ChartMarker(rs[n].png.value);
    var pre, post := ExecutionLinesAroundMarker(e, n);
    PreLinesAvoidPrefix(rs[..n]);
    PrefixOpensOnce();
    JoinAround("\n", pre, marker, post);
    before := if pre == [] then "" else Join("\n", pre) + "\n";
    after := if post == [] then "" else "\n" + Join("\n", post);
    if pre != [] {
      JoinAvoidsPattern("\n", pre, Prefix);
      AvoidsAround(Join("\n", pre), '\n', "", Prefix);
      assert Join("\n", pre) + ['\n'] + "" == before;
    }
  }

  /** The lines of such a run are those of the results before the PNG, its marker, then the rest. */
  lemma ExecutionLinesAroundMarker(e: Agent.Execution, n: nat) returns (pre: seq<string>, post: seq<string>)
    requires n < |e.results| && Agent.Truthy(e.results[n].png)
    ensures pre == Agent.ResultLines(e.results[..n])
    ensures Agent.ExecutionLines(e) == pre + [Agent.ChartMarker(e.results[n].png.value)] + post
  {
    LinesAt(e.results, n);
    pre := Agent.ResultLines(e.results[..n]);
    post := Agent.ResultLines(e.results[n + 1..]) + Agent.StdoutLine(e);
  }

  /** The lines of results split around a PNG-bearing one. */
  lemma LinesAt(rs: seq<Agent.SandboxResult>, n: nat)
    requires n < |rs| && Agent.Truthy(rs[n].png)
    ensures Agent.ResultLines(rs)
         == Agent.ResultLines(rs[..n]) + [Agent.ChartMarker(rs[n].png.value)] + Agent.ResultLines(rs[n + 1..])
  {
    LinesThrough(rs, n);
    LinesSplit(rs, n + 1);
  }

  lemma LinesSplit(rs: seq<Agent.SandboxResult>, k: nat)
    requires k <= |rs|
    ensures Agent.ResultLines(rs) == Agent.ResultLines(rs[..k]) + Agent.ResultLines(rs[k..])
  {
    Text.TakeDrop(rs, k);
    Agent.ResultLinesAppend(rs[..k], rs[k..]);
  }

  /** The lines of the results up to and including a PNG-bearing one end with its marker. */
  lemma LinesThrough(rs: seq<Agent.SandboxResult>, n: nat)
    requires n < |rs| && Agent.Truthy(rs[n].png)
    ensures Agent.ResultLines(rs[..n + 1]) == Agent.ResultLines(rs[..n]) + [Agent.ChartMarker(rs[n].png.value)]
  {
    var p := rs[..n + 1];
    assert p[..n] == rs[..n] && p[n] == rs[n];
  }

  /** Results with no PNG, and text without an opening, give lines without an opening. */
  lemma {:induction false} PreLinesAvoidPrefix(rs: seq<Agent.SandboxResult>)
    requires forall j :: 0 <= j < |rs| ==> (!Agent.Truthy(rs[j].png) &&
               (Agent.Truthy(rs[j].text) ==> Avoids(rs[j].text.value, Prefix)))
    ensures forall j :: 0 <= j < |Agent.ResultLines(rs)| ==> Avoids(Agent.ResultLines(rs)[j], Prefix)
    decreases |rs|
  {
    if rs != [] {
      var n := |rs| - 1;
      assert forall j :: 0 <= j < n ==> rs[..n][j] == rs[j];
      PreLinesAvoidPrefix(rs[..n]);
      if Agent.Truthy(rs[n].text) {
        PrefixOpensOnce();
        assert '!' !in "RESULT: ";
        AvoidsAfter("RESULT: ", rs[n].text.value, Prefix);
      }
    }
  }

  /**
   * End to end: when the final answer has no marker and the newest tool message
   * with a chart is the output of such a sandbox run, the endpoint returns the
   * answer unchanged and that run's PNG as the chart.
   */
  lemma ToolHistoryRoundTrip(finalText: string, pre: seq<Message>, id: string, e: Agent.Execution, n: nat, post: seq<Message>)
    requires forall i: nat, k: nat, e': nat :: !IsMatch(finalText, i, k, e')
    requires e.error.None? && n < |e.results|
    requires Agent.Truthy(e.results[n].png) && ')' !in e.results[n].png.value
    requires forall j :: 0 <= j < n ==> (!Agent.Truthy(e.results[j].png) &&
               (Agent.Truthy(e.results[j].text) ==> Avoids(e.results[j].text.value, Prefix)))
    requires forall k :: 0 <= k < |post| ==> ToolChart(post[k]).None?
    ensures Recover(finalText, pre + [Tool(id, "execute_python", Agent.PythonOutput(Agent.Ran(e)))] + post)
         == Reply(finalText, Some(Agent.PngDataUri(e.results[n].png.value)))
  {
    var t := Tool(id, "execute_python", Agent.PythonOutput(Agent.Ran(e)));
    PythonOutputRoundTrip(e, n);
    LatestToolChartSkipsNewer(pre + [t], post);
    assert (pre + [t])[..|pre|] == pre;
  }
}
