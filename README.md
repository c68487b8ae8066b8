# Chart-marker pipeline of the data-analysis agent backend

The backend runs a tool-using agent. A model node asks for tool calls, and the
`executor` node runs them:
- `execute_python` runs code in a sandbox;
- `web_search` queries a search service.

Each tool's answer goes back to the model as a tool message. `should_continue`
decides whether the graph returns to the executor or ends.

When the sandbox produces a plot, `execute_python` writes it into its text as
a marker `![CHART_GENERATED](data:image/png;base64,<data>)`.

The `/analyze` endpoint then does two things:
- It looks for such a marker in the model's final answer. If it finds one, it
  strips the marker from the answer and returns the image separately.
- Failing that, it takes the image from the newest tool message that carries one.

The project models these pieces in five modules:
- `Wrappers`: Option and Result.
- `Text`: the string operations the backend relies on:
  - `FindFrom` is the scanning step that finds one literal piece of the chart regex;
  - `Join` is `sep.join(parts)`;
  - `DeleteAll` is `str.replace(p, "")`;
  - `Count` (Python's `str.count`, which the backend never calls) is only there
    to state how much `replace` removes.
- `Messages`: the message kinds the graph passes around.
- `Agent`: the tool-output formatting, the executor, the routing decision and
  the log preview, from `backend/agent.py`.
- `Analysis`: the chart recovery step of `/analyze`, from `backend/main.py`.
  It also holds the round trip from a marker written by `execute_python` to
  the chart the endpoint returns.

The regular expression `!\[CHART_GENERATED\]\((data:image/.*?;base64,.*?)\)`
with DOTALL is modelled as three scans:
1. the first opening `![CHART_GENERATED](data:image/`;
2. the first `;base64,` after it;
3. the first `)` after that.

`SearchIsRegexSearch` proves that these scans give what a backtracking engine
reports:
- the leftmost start;
- the shortest first lazy group;
- then the shortest second lazy group;
- no match at all exactly when the scans fail.

The loops of the source are methods whose loop invariants tie them to
specification functions:
- the result loop of `execute_python`;
- the hit loop of `web_search`;
- the call loop of `executor`;
- the newest-first fallback loop of `/analyze`.

## Model

| member | source | states |
|---|---|---|
| Text.FindFrom | backend/main.py:59 | one scan for a literal piece of the regex: the first index at or after the start where the piece occurs; no occurrence before it (or none at all) |
| Text.DeleteAll | backend/main.py:63 | `str.replace(p, "")`: scanning left to right, each occurrence not overlapping an earlier removed one is deleted, every other character kept |
| Text.Count | backend/main.py:63 | the number of non-overlapping occurrences found left to right, used to state how much `replace` removes |
| Text.Join | backend/agent.py:60 | `sep.join(parts)`: empty for no parts, the part itself for one, otherwise the parts with the separator between them |
| Text.JoinAvoidsPattern | backend/agent.py:60 | lines without a pattern, joined by a one-character separator the pattern lacks, give text without the pattern |
| Text.DeleteAllLength | backend/main.py:63 | `replace(p, "")` shortens the text by exactly the count of `p` times its length |
| Text.DeleteAllSubsequence | backend/main.py:63 | `replace(p, "")` keeps every remaining character in its original order |
| Text.DeleteAllAtFirst | backend/main.py:63 | text before the first occurrence is kept, the occurrence is removed, the rest is cleaned alike |
| Text.DeleteAllAbsent | backend/main.py:63 | a text without the pattern is returned unchanged |
| Text.JoinAround | backend/agent.py:60 | `"\n".join` splits around any element into the join before it, the element and the join after it |
| Text.JoinAvoids | backend/agent.py:60 | a character absent from every part and the separator is absent from the join |
| Analysis.Search | backend/main.py:59 | a found match has the opening, then `;base64,`, then `)` in that order |
| Analysis.SearchIsRegexSearch | backend/main.py:59 | no match anywhere when the scans fail; otherwise the leftmost start, shortest first group, then shortest second group |
| Analysis.Captured | backend/main.py:61 | `match.group(1)`: the text from `data:image/` up to, not including, the closing `)` |
| Analysis.FindChart | backend/main.py:59-61 | the captured data URI of the first match in a text, or none when the pattern does not match |
| Analysis.Recover | backend/main.py:56-78 | the reply of `/analyze`: on a match in the final text, that text with the whole marker removed and the capture; otherwise the text unchanged and the fallback's chart |
| Analysis.ToolChart | backend/main.py:68-71 | a tool message supplies the chart its content matches; any other message supplies none |
| Analysis.NewestPick | backend/main.py:67-72 | the first value found walking the messages from newest to oldest, stopping at the first hit |
| Analysis.LatestToolChart | backend/main.py:66-72 | the fallback: the newest-first search for a tool message whose content matches |
| Analysis.Whole | backend/main.py:63 | `match.group(0)` is a non-empty text occurring where the match starts |
| Analysis.CapturedShape | backend/main.py:61 | `match.group(1)` starts with `data:image/`, holds the chosen `;base64,` and no `)` after it, so it is never empty |
| Analysis.RecoverChart | backend/main.py:51-78 | the endpoint's loop returns the reply of `Recover` on the last message's text and the whole history |
| Analysis.MatchInFinalText | backend/main.py:59-63 | on a match: the chart is the capture, the text loses count × marker length characters, is strictly shorter, keeps order, and the history is ignored |
| Analysis.NoMatchInFinalText | backend/main.py:66-72 | with no match, the answer is returned unchanged and the chart is the fallback's |
| Analysis.UnfinishedMarkerFallsBack | backend/main.py:59-66 | an opening without `;base64,` then `)` after it matches nowhere, so the answer is kept and the history decides |
| Analysis.NoChartAnywhere | backend/main.py:56-78 | with no match in the answer or any tool message, the reply is the answer with no chart |
| Analysis.NewestPickNone | backend/main.py:67-72 | the newest-first search finds nothing exactly when no element yields a value |
| Analysis.NewestPickNewest | backend/main.py:67-72 | a found value comes from an element after which no element yields one |
| Analysis.NewestPickSkipsNewer | backend/main.py:67-72 | newer elements that yield nothing do not change the result |
| Analysis.LatestToolChartNone | backend/main.py:67-72 | the fallback finds no chart exactly when no tool message has one |
| Analysis.LatestToolChartNewest | backend/main.py:67-72 | a fallback chart comes from a tool message with no chart-bearing message after it; non-tool messages never supply one |
| Analysis.LatestToolChartSkipsNewer | backend/main.py:67-72 | newer messages without a tool chart leave the fallback unchanged |
| Analysis.MarkerRoundTrip | backend/main.py:59-61 | a marker as written by `execute_python`, with no opening before it and `)`-free data, is recovered as `data:image/png;base64,` plus the data |
| Analysis.MarkerOpening | backend/main.py:59 | the pattern's opening occurs where the marker starts |
| Analysis.MarkerTag | backend/main.py:59 | `;base64,` occurs three characters after the marker's opening, and no `;` lies between |
| Analysis.MarkerClose | backend/main.py:59 | with `)`-free data, the first `)` after the marker's tag is the marker's last character |
| Analysis.MarkerCapture | backend/main.py:61 | the text between the opening's `(` and the `)` is the marker's data URI |
| Analysis.FindChartByScans | backend/main.py:59-61 | three successful scans determine the captured chart |
| Analysis.ChartAt | backend/main.py:59-61 | a first opening, the first `;base64,` after it and the first `)` after that pin down the captured chart |
| Analysis.PythonOutputRoundTrip | backend/agent.py:49-60 | the output of an error-free run whose first PNG result follows only text results holding no opening yields that PNG's data URI as the chart |
| Analysis.BangBeforeChart | backend/agent.py:53-60 | a `RESULT: Done!` line before the chart marker does not stop the PNG from being recovered |
| Analysis.PreLinesAvoidPrefix | backend/agent.py:51-55 | results without a PNG, whose text holds no opening, give lines holding no opening |
| Analysis.ToolHistoryRoundTrip | backend/main.py:66-72 | with no marker in the answer and that tool output as the newest chart-bearing message, the reply is the answer and the PNG's data URI |
| Agent.PngDataUri | backend/agent.py:53 | the data URI of a PNG: `data:image/png;base64,` then the base64 data |
| Agent.ChartMarker | backend/agent.py:53 | the marker `![CHART_GENERATED](` + data URI + `)` written for a PNG result |
| Agent.ResultLines | backend/agent.py:49-56 | each result's line, if any, in result order |
| Agent.StdoutLine | backend/agent.py:57 | a `STDOUT: ` line exactly when something was printed |
| Agent.ExecutionLines | backend/agent.py:49-57 | the result lines followed by the stdout line |
| Agent.PythonOutput | backend/agent.py:46-63 | `System Error: ` on a sandbox failure; `Runtime Error: name: value` on an error; else the default message for no lines, or the lines joined by newlines |
| Agent.ResultLine | backend/agent.py:51-55 | a non-empty PNG gives the chart marker, else non-empty text gives `RESULT: `, else nothing; PNG wins over text |
| Agent.ExecutePython | backend/agent.py:46-60 | the loop's output equals `PythonOutput` of the sandbox outcome |
| Agent.ResultLinesAppend | backend/agent.py:51-55 | result lines of consecutive batches are concatenated in result order |
| Agent.ResultLinesEmpty | backend/agent.py:50-55 | no line is produced exactly when no result has a non-empty PNG or text |
| Agent.ResultLinesTagged | backend/agent.py:53-55 | each result line starts with `!` or `R` |
| Agent.SuccessMessageExactlyWhenSilent | backend/agent.py:59 | "Code executed successfully." is returned exactly when the run had no error, no PNG or text result and no printed output |
| Agent.RuntimeErrorShortCircuits | backend/agent.py:46-47 | with an error, only its name and value are returned, whatever the results |
| Agent.StdoutComesLast | backend/agent.py:57-60 | printed output is the last line, after all result lines |
| Agent.MissingKey | backend/agent.py:77 | the first of `title`, `content`, `url` a hit lacks, which is the key whose lookup raises |
| Agent.HitBlock | backend/agent.py:77 | a complete hit's `Source: …\nContent: …\nURL: …` block |
| Agent.SearchBlocks | backend/agent.py:75-77 | the blocks of the hits in order, or the first missing key |
| Agent.SearchOutput | backend/agent.py:75-81 | `Search Error: ` on a failed call or a missing key (as `'key'`); otherwise the blocks joined by blank lines |
| Agent.WebSearch | backend/agent.py:75-81 | the loop's output equals `SearchOutput` of the service's outcome |
| Agent.SearchBlocksErrSticks | backend/agent.py:76-77 | once a hit lacks a key, the whole formatting fails with that key |
| Agent.SearchBlocksSpec | backend/agent.py:75-79 | formatting succeeds exactly when every hit is complete, giving one block per hit in order; otherwise the key reported is the first incomplete hit's |
| Agent.NoHitsGiveEmptyText | backend/agent.py:76-79 | no hits, or no `results` key, give the empty string |
| Agent.KnownTool | backend/agent.py:118-125 | the tool names the executor runs: `execute_python` and `web_search` |
| Agent.PendingCalls | backend/agent.py:114-115 | the tool calls of the last message; a message without `tool_calls` has none |
| Agent.RoutedCalls | backend/agent.py:115-128 | the calls kept name a known tool and are no more than the calls given |
| Agent.RoutedCallsAppend | backend/agent.py:115-128 | routing two batches keeps each batch's calls, in order |
| Agent.RoutedCallsKeep | backend/agent.py:118-128 | a call is kept exactly when it names `execute_python` or `web_search` |
| Agent.Reply | backend/agent.py:118-128 | the tool message carries the call's id, its tool name and that tool's output |
| Agent.Executor | backend/agent.py:110-130 | one tool message per routed call of the last message, in call order, each being that call's reply |
| Agent.ShouldContinue | backend/agent.py:133-137 | goes to the executor exactly when the last message has tool calls; ending leaves no call to route |
| Agent.LogPreview | backend/agent.py:121 | the output itself up to 200 characters; otherwise its first 200 characters and `...`; never over 203 |

## Left out

- FastAPI routing, CORS, the CSV upload and the server start-up (`backend/main.py` outside lines 51-78) are I/O plumbing.
- The agent graph's wiring, the language-model calls and the system prompt are foreign calls. Only `executor` and `should_continue` are modelled.
- The E2B sandbox and the Tavily client are external services. `SandboxOutcome` and `SearchOutcome` stand for what they return, and `Executor` takes them as functions from a call's argument.
- A tool call's argument dictionary is modelled as one string, the code or the query.
- `print` output is left out. This covers the search log at `backend/agent.py:127`, which always appends `...`. `LogPreview` models the expression computed for the Python log line, not the printing.
- The sandbox's standard-output log is a list in E2B. It is modelled as its rendered string, empty exactly when nothing was printed.
- Agent.ShouldContinue: requires the last message to be a model message. Any other message has no `tool_calls` attribute and Python raises; the graph only calls it after the model node.
- Analysis.Recover: `if not chart_data` is modelled as "no chart found". A captured chart always starts with `data:image/` (`CapturedShape`), so it is never an empty string.
- Text.DeleteAll: `str.replace` with an empty pattern is not modelled. The removed marker is never empty (`Whole`).
- The frontend (`frontend/app/page.tsx`) is a UI that displays the returned image string in one step. It holds no parser and no timed reveal, so a JSON extractor or reveal scheduler is not modelled: the code has none.
