/**
 * The decision and formatting logic of the agent graph (backend/agent.py):
 * how the two tools turn what their external services returned into the
 * text handed back to the model, how the executor node routes tool calls,
 * when the graph goes to the executor, and how tool output is shortened for
 * the log. The sandbox and the search service are external; their answers
 * are plain values here.
 */
module Agent {
  import opened Wrappers
  import opened Text
  import opened Messages

  // ---------------------------------------------------------------------
  // execute_python
  // ---------------------------------------------------------------------

  /** One rich result of a sandbox run: a base64 PNG and/or a text rendering, either possibly absent. */
  datatype SandboxResult = SandboxResult(png: Option<string>, text: Option<string>)

  /** The exception a sandbox run raised inside the user's code. */
  datatype ExecError = ExecError(name: string, value: string)

  /**
   * A finished sandbox run. `stdout` stands for the rendered standard-output
   * log, empty exactly when nothing was printed.
   */
  datatype Execution = Execution(error: Option<ExecError>, results: seq<SandboxResult>, stdout: string)

  /** What the sandbox gave back: a run, or an exception while creating or driving the sandbox. */
  datatype SandboxOutcome = Ran(execution: Execution) | Crashed(message: string)

  /** Python truthiness of an optional string: present and non-empty. */
  predicate Truthy(o: Option<string>) {
    o.Some? && o.value != ""
  }

  /** The data URI of a base64 PNG: `data:image/png;base64,` then the data. */
  function PngDataUri(png: string): string {
    "data:image/" + "png" + ";base64," + png
  }

  /** The chart marker the model is asked to copy into its answer; the API layer looks for it. */
  function ChartMarker(png: string): string {
    "![CHART_GENERATED](" + PngDataUri(png) + ")"
  }

  const SuccessMessage := "Code executed successfully."

  /** The line (if any) one result contributes: the chart marker for a PNG, else `RESULT:` and the text. */
  function ResultLine(res: SandboxResult): (line: seq<string>)
    ensures |line| <= 1
    ensures Truthy(res.png) ==> line == [ChartMarker(res.png.value)]
    ensures !Truthy(res.png) && Truthy(res.text) ==> line == ["RESULT: " + res.text.value]
    ensures line == [] <==> !Truthy(res.png) && !Truthy(res.text)
  {
    if Truthy(res.png) then [ChartMarker(res.png.value)]
    else if Truthy(res.text) then ["RESULT: " + res.text.value]
    else []
  }

  /** The lines of all results, in result order. */
  function ResultLines(rs: seq<SandboxResult>): seq<string>
    decreases |rs|
  {
    if rs == [] then [] else ResultLines(rs[..|rs| - 1]) + ResultLine(rs[|rs| - 1])
  }

  /** The trailing `STDOUT:` line, present exactly when something was printed. */
  function StdoutLine(e: Execution): seq<string> {
    if e.stdout != "" then ["STDOUT: " + e.stdout] else []
  }

  /** Every line collected from a run that raised no error: result lines first, then stdout. */
  function ExecutionLines(e: Execution): seq<string> {
    ResultLines(e.results) + StdoutLine(e)
  }

  /** The text `execute_python` returns to the model for a sandbox outcome. */
  function PythonOutput(o: SandboxOutcome): string {
    match o
    case Crashed(msg) => "System Error: " + msg
    case Ran(e) =>
      if e.error.Some? then "Runtime Error: " + e.error.value.name + ": " + e.error.value.value
      else if ExecutionLines(e) == [] then SuccessMessage
      else Join("\n", ExecutionLines(e))
  }

  /** `execute_python` after the sandbox has answered: collects the lines in a loop, then joins them. */
  method ExecutePython(o: SandboxOutcome) returns (output: string)
    ensures output == PythonOutput(o)
  {
    if o.Crashed? {
      return "System Error: " + o.message;
    }
    var e := o.execution;
    if e.error.Some? {
      return "Runtime Error: " + e.error.value.name + ": " + e.error.value.value;
    }
    var results: seq<string> := [];
    var i := 0;
    while i < |e.results|
      invariant 0 <= i <= |e.results|
      invariant results == ResultLines(e.results[..i])
    {
      var res := e.results[i];
      if Truthy(res.png) {
        results := results + [ChartMarker(res.png.value)];
      } else if Truthy(res.text) {
        results := results + ["RESULT: " + res.text.value];
      }
      assert e.results[..i + 1][..i] == e.results[..i];
      i := i + 1;
    }
    assert e.results[..i] == e.results;
    if e.stdout != "" {
      results := results + ["STDOUT: " + e.stdout];
    }
    assert results == ExecutionLines(e);
    if results == [] {
      return SuccessMessage;
    }
    output := Join("\n", results);
  }

  /** Result lines of consecutive batches of results are the batches' lines one after the other. */
  lemma {:induction false} ResultLinesAppend(a: seq<SandboxResult>, b: seq<SandboxResult>)
    ensures ResultLines(a + b) == ResultLines(a) + ResultLines(b)
    decreases |b|
  {
    if b == [] {
      assert a + b == a;
    } else {
      var n := |b| - 1;
      assert (a + b)[..|a + b| - 1] == a + b[..n];
      assert (a + b)[|a + b| - 1] == b[n];
      ResultLinesAppend(a, b[..n]);
    }
  }

  /** A result that contributes no line: neither a non-empty PNG nor a non-empty text. */
  predicate Silent(res: SandboxResult) {
    !Truthy(res.png) && !Truthy(res.text)
  }

  /** No result contributes a line exactly when none has a non-empty PNG or text. */
  lemma {:induction false} ResultLinesEmpty(rs: seq<SandboxResult>)
    ensures ResultLines(rs) == [] <==> forall j :: 0 <= j < |rs| ==> Silent(rs[j])
    decreases |rs|
  {
    if rs != [] {
      var n := |rs| - 1;
      ResultLinesEmpty(rs[..n]);
      LastLineEmpty(rs);
      AllSilentSplit(rs, n);
    }
  }

  /** The lines of a non-empty run of results are empty exactly when those before the last are and the last is silent. */
  lemma LastLineEmpty(rs: seq<SandboxResult>)
    requires rs != []
    ensures ResultLines(rs) == [] <==> ResultLines(rs[..|rs| - 1]) == [] && Silent(rs[|rs| - 1])
  {
    assert ResultLines(rs) == ResultLines(rs[..|rs| - 1]) + ResultLine(rs[|rs| - 1]);
  }

  /** All results are silent exactly when those before the last are and the last is. */
  lemma AllSilentSplit(rs: seq<SandboxResult>, n: nat)
    requires n + 1 == |rs|
    ensures (forall j :: 0 <= j < |rs| ==> Silent(rs[j]))
        <==> (forall j :: 0 <= j < n ==> Silent(rs[..n][j])) && Silent(rs[n])
  {
    assert forall j :: 0 <= j < n ==> rs[..n][j] == rs[j];
  }

  /** Each result line begins with `!` (chart) or `R` (`RESULT:`). */
  predicate TaggedLine(line: string) {
    |line| > 0 && (line[0] == '!' || line[0] == 'R')
  }

  lemma {:induction false} ResultLinesTagged(rs: seq<SandboxResult>)
    ensures forall j :: 0 <= j < |ResultLines(rs)| ==> TaggedLine(ResultLines(rs)[j])
    decreases |rs|
  {
    if rs != [] {
      ResultLinesTagged(rs[..|rs| - 1]);
      var res := rs[|rs| - 1];
      if Truthy(res.png) {
        assert ChartMarker(res.png.value)[0] == '!';
      } else if Truthy(res.text) {
        assert ("RESULT: " + res.text.value)[0] == 'R';
      }
    }
  }

  /**
   * The default "Code executed successfully." comes back exactly when the code
   * ran without error, no result had a PNG or text, and nothing was printed.
   */
  lemma SuccessMessageExactlyWhenSilent(o: SandboxOutcome)
    ensures PythonOutput(o) == SuccessMessage
        <==> o.Ran? && o.execution.error.None? && o.execution.stdout == ""
             && forall j :: 0 <= j < |o.execution.results| ==> Silent(o.execution.results[j])
  {
    assert SuccessMessage[0] == 'C';
    match o
    case Crashed(msg) =>
      assert PythonOutput(o)[0] == 'S';
    case Ran(e) =>
      ResultLinesEmpty(e.results);
      if e.error.Some? {
        assert PythonOutput(o)[0] == 'R';
      } else if ExecutionLines(e) != [] {
        var lines := ExecutionLines(e);
        if ResultLines(e.results) != [] {
          ResultLinesTagged(e.results);
          assert TaggedLine(lines[0]);
        } else {
          assert lines[0] == "STDOUT: " + e.stdout;
        }
        JoinStartsWithFirst("\n", lines);
        assert PythonOutput(o)[0] == lines[0][0];
      }
  }

  /** A runtime error short-circuits: its name and value are all that is returned, whatever the results. */
  lemma RuntimeErrorShortCircuits(e1: Execution, e2: Execution)
    requires e1.error.Some? && e1.error == e2.error
    ensures PythonOutput(Ran(e1)) == PythonOutput(Ran(e2))
            == "Runtime Error: " + e1.error.value.name + ": " + e1.error.value.value
  {
  }

  /** Printed output is the last line, after every result line. */
  lemma StdoutComesLast(e: Execution)
    requires e.error.None? && e.stdout != ""
    ensures PythonOutput(Ran(e))
         == (if ResultLines(e.results) == [] then "" else Join("\n", ResultLines(e.results)) + "\n")
            + "STDOUT: " + e.stdout
  {
    JoinAround("\n", ResultLines(e.results), "STDOUT: " + e.stdout, []);
    assert ResultLines(e.results) + ["STDOUT: " + e.stdout] + [] == ExecutionLines(e);
  }

  // ---------------------------------------------------------------------
  // web_search
  // ---------------------------------------------------------------------

  /** One search hit; a field the service left out is `None`. */
  datatype SearchHit = SearchHit(title: Option<string>, content: Option<string>, url: Option<string>)

  /** What the search service gave back: a response whose `results` key may be missing, or an exception. */
  datatype SearchOutcome = Responded(results: Option<seq<SearchHit>>) | SearchFailed(message: string)

  /** The first key the formatting reads and does not find (it reads title, content, url in that order). */
  function MissingKey(h: SearchHit): Option<string> {
    if h.title.None? then Some("title")
    else if h.content.None? then Some("content")
    else if h.url.None? then Some("url")
    else None
  }

  /** The block one complete hit becomes. */
  function HitBlock(h: SearchHit): string
    requires MissingKey(h).None?
  {
    "Source: " + h.title.value + "\nContent: " + h.content.value + "\nURL: " + h.url.value
  }

  /** The blocks of all hits in order, or the first missing key, which aborts the formatting. */
  function SearchBlocks(hits: seq<SearchHit>): Result<seq<string>, string>
    decreases |hits|
  {
    if hits == [] then Ok([])
    else
      var last := hits[|hits| - 1];
      match SearchBlocks(hits[..|hits| - 1])
      case Err(key) => Err(key)
      case Ok(blocks) =>
        match MissingKey(last)
        case Some(key) => Err(key)
        case None => Ok(blocks + [HitBlock(last)])
  }

  /** The text `web_search` returns to the model; a missing key surfaces as Python's `KeyError` text. */
  function SearchOutput(o: SearchOutcome): string {
    match o
    case SearchFailed(msg) => "Search Error: " + msg
    case Responded(rs) =>
      var hits := if rs.Some? then rs.value else [];
      match SearchBlocks(hits)
      case Err(key) => "Search Error: '" + key + "'"
      case Ok(blocks) => Join("\n\n", blocks)
  }

  /** Once a prefix of the hits has failed, the whole formatting fails the same way. */
  lemma {:induction false} SearchBlocksErrSticks(hits: seq<SearchHit>, i: nat)
    requires i <= |hits| && SearchBlocks(hits[..i]).Err?
    ensures SearchBlocks(hits) == SearchBlocks(hits[..i])
    decreases |hits| - i
  {
    if i < |hits| {
      assert hits[..i + 1][..i] == hits[..i];
      SearchBlocksErrSticks(hits, i + 1);
    } else {
      assert hits[..i] == hits;
    }
  }

  /** `web_search` after the service has answered: formats hit after hit in a loop, then joins the blocks. */
  method WebSearch(o: SearchOutcome) returns (output: string)
    ensures output == SearchOutput(o)
  {
    if o.SearchFailed? {
      return "Search Error: " + o.message;
    }
    var hits := if o.results.Some? then o.results.value else [];
    var context: seq<string> := [];
    var i := 0;
    while i < |hits|
      invariant 0 <= i <= |hits|
      invariant SearchBlocks(hits[..i]) == Ok(context)
    {
      var h := hits[i];
      assert hits[..i + 1][..i] == hits[..i];
      assert hits[..i + 1][i] == h;
      var missing := MissingKey(h);
      if missing.Some? {
        SearchBlocksErrSticks(hits, i + 1);
        return "Search Error: '" + missing.value + "'";
      }
      context := context + [HitBlock(h)];
      i := i + 1;
    }
    assert hits[..i] == hits;
    output := Join("\n\n", context);
  }

  /**
   * Formatting succeeds exactly when every hit is complete, and then yields one
   * block per hit, in hit order; otherwise the reported key is that of the
   * first incomplete hit.
   */
  lemma {:induction false} SearchBlocksSpec(hits: seq<SearchHit>)
    ensures SearchBlocks(hits).Ok? <==> forall j :: 0 <= j < |hits| ==> MissingKey(hits[j]).None?
    ensures SearchBlocks(hits).Ok? ==>
              |SearchBlocks(hits).value| == |hits| &&
              forall j :: 0 <= j < |hits| ==> SearchBlocks(hits).value[j] == HitBlock(hits[j])
    ensures SearchBlocks(hits).Err? ==>
              exists j :: 0 <= j < |hits| && MissingKey(hits[j]) == Some(SearchBlocks(hits).error) &&
                forall k :: 0 <= k < j ==> MissingKey(hits[k]).None?
    decreases |hits|
  {
    if hits != [] {
      var n := |hits| - 1;
      var init := hits[..n];
      SearchBlocksSpec(init);
      assert forall j :: 0 <= j < n ==> init[j] == hits[j];
      match SearchBlocks(init)
      case Err(key) =>
        var j :| 0 <= j < n && MissingKey(init[j]) == Some(key) &&
                 forall k :: 0 <= k < j ==> MissingKey(init[k]).None?;
        assert MissingKey(hits[j]) == Some(key);
      case Ok(blocks) =>
        if MissingKey(hits[n]).Some? {
          assert forall k :: 0 <= k < n ==> MissingKey(hits[k]).None?;
        }
    }
  }

  /** No hits (or no `results` key) give the empty string. */
  lemma NoHitsGiveEmptyText(rs: Option<seq<SearchHit>>)
    requires rs.None? || rs.value == []
    ensures SearchOutput(Responded(rs)) == ""
  {
  }

  // ---------------------------------------------------------------------
  // executor and should_continue
  // ---------------------------------------------------------------------

  /** The tool names the executor knows how to run. */
  predicate KnownTool(name: string) {
    name == "execute_python" || name == "web_search"
  }

  /** The tool calls carried by a message; only model (AI) messages have any. */
  function PendingCalls(m: Message): seq<ToolCall> {
    if m.Ai? then m.toolCalls else []
  }

  /** The calls the executor acts on: those naming a known tool, in call order. */
  function RoutedCalls(calls: seq<ToolCall>): (r: seq<ToolCall>)
    ensures |r| <= |calls|
    ensures forall j :: 0 <= j < |r| ==> KnownTool(r[j].name)
    decreases |calls|
  {
    if calls == [] then []
    else
      var last := calls[|calls| - 1];
      RoutedCalls(calls[..|calls| - 1]) + (if KnownTool(last.name) then [last] else [])
  }

  /** Routing works batch by batch: the calls kept from two batches are those kept from each, in order. */
  lemma {:induction false} RoutedCallsAppend(a: seq<ToolCall>, b: seq<ToolCall>)
    ensures RoutedCalls(a + b) == RoutedCalls(a) + RoutedCalls(b)
    decreases |b|
  {
    if b == [] {
      assert a + b == a;
    } else {
      var n := |b| - 1;
      assert (a + b)[..|a + b| - 1] == a + b[..n];
      assert (a + b)[|a + b| - 1] == b[n];
      RoutedCallsAppend(a, b[..n]);
    }
  }

  /** Routing keeps a call exactly when it names a known tool. */
  lemma {:induction false} RoutedCallsKeep(calls: seq<ToolCall>)
    ensures forall c :: c in RoutedCalls(calls) <==> c in calls && KnownTool(c.name)
    decreases |calls|
  {
    if calls != [] {
      var n := |calls| - 1;
      RoutedCallsKeep(calls[..n]);
      assert calls == calls[..n] + [calls[n]];
    }
  }

  /** The tool message answering one routed call, built from what its service returned. */
  function Reply(call: ToolCall, python: string -> SandboxOutcome, search: string -> SearchOutcome): (m: Message)
    requires KnownTool(call.name)
    ensures m.Tool? && m.toolCallId == call.id && m.name == call.name
    ensures call.name == "execute_python" ==> m.content == PythonOutput(python(call.args))
    ensures call.name == "web_search" ==> m.content == SearchOutput(search(call.args))
  {
    if call.name == "execute_python" then Tool(call.id, "execute_python", PythonOutput(python(call.args)))
    else Tool(call.id, "web_search", SearchOutput(search(call.args)))
  }

  /**
   * The executor node: one tool message per call of the last message that names
   * a known tool, in call order; other calls produce nothing. `python` and
   * `search` stand for what the sandbox and the search service answer.
   */
  method Executor(messages: seq<Message>, python: string -> SandboxOutcome, search: string -> SearchOutcome)
      returns (results: seq<Message>)
    requires |messages| > 0
    ensures var routed := RoutedCalls(PendingCalls(messages[|messages| - 1]));
            |results| == |routed| &&
            forall j :: 0 <= j < |results| ==> results[j] == Reply(routed[j], python, search)
  {
    var lastMessage := messages[|messages| - 1];
    results := [];
    if lastMessage.Ai? {
      var calls := lastMessage.toolCalls;
      var i := 0;
      while i < |calls|
        invariant 0 <= i <= |calls|
        invariant |results| == |RoutedCalls(calls[..i])|
        invariant forall j :: 0 <= j < |results| ==> results[j] == Reply(RoutedCalls(calls[..i])[j], python, search)
      {
        var call := calls[i];
        assert calls[..i + 1][..i] == calls[..i];
        if call.name == "execute_python" {
          var output := ExecutePython(python(call.args));
          results := results + [Tool(call.id, "execute_python", output)];
        } else if call.name == "web_search" {
          var output := WebSearch(search(call.args));
          results := results + [Tool(call.id, "web_search", output)];
        }
        i := i + 1;
      }
      assert calls[..i] == calls;
    }
  }

  /** Where the graph goes after the model has answered. */
  datatype Route = ToExecutor | End

  /**
   * `should_continue`: to the executor exactly when the model's last message
   * asks for tool calls. Only called after the model node, so the last message
   * is an AI message. Ending the run leaves nothing for the executor to do.
   */
  function ShouldContinue(messages: seq<Message>): (r: Route)
    requires |messages| > 0 && messages[|messages| - 1].Ai?
    ensures r == ToExecutor <==> messages[|messages| - 1].toolCalls != []
    ensures r == End ==> RoutedCalls(PendingCalls(messages[|messages| - 1])) == []
  {
    if messages[|messages| - 1].toolCalls != [] then ToExecutor else End
  }

  // ---------------------------------------------------------------------
  // log preview
  // ---------------------------------------------------------------------

  const LogLimit: nat := 200

  /** The shortened tool output written to the log: at most 200 characters of it, then "..." if it was longer. */
  function LogPreview(output: string): (d: string)
    ensures |d| <= LogLimit + 3
    ensures |output| <= LogLimit ==> d == output
    ensures |output| > LogLimit ==> |d| == LogLimit + 3 && d[..LogLimit] == output[..LogLimit] && d[LogLimit..] == "..."
  {
    if |output| > LogLimit then output[..LogLimit] + "..." else output
  }
}
