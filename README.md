# personal-asst-a2a core, modelled in Dafny

A personal assistant built from several agents that talk the Agent2Agent (A2A)
protocol. This model covers the parts of it that are algorithms rather than
glue code:

- **Remote-agent client** (`ToolClient`, `tool_client.dfy`). `A2AToolClient` keeps a
  cache from normalised agent URL to discovery document, where `JNull` means
  "registered, not fetched yet". It covers:
  - URL normalisation;
  - add, remove and fill-from-fetch on the cache;
  - the outgoing `message/send` payload;
  - extraction of the reply text from the response.
- **Protocol values** (`A2A`, `a2a.dfy`): messages, parts, tasks, events and
  responses, as the client and the served agents exchange them.
- **Agent registry** (`AgentManagement`, `agent_manager.dfy`). `AgentManager` is
  an insertion-ordered map from agent name to registration, kept as the key
  order plus a map. It covers last-write-wins registration, lookup with
  `KeyError`, the name listing, the launch list and `create_server`'s field
  wiring.
- **Task lifecycle** (`AgentExecution`, `agent_executor.dfy`).
  `PydanticAgentExecutor.execute` appends events to an append-only queue:
  - the task first;
  - then `working` with the status message;
  - then either one artifact and `completed`, or a final `failed` status.

  `cancel` does nothing: any event queue keeps exactly the events it had.
- **Client and server together** (`DispatchRoundTrip`): a message sent by the
  client to an echoing agent comes back as the reply text.
- **Gmail helpers** (`Gmail`, `gmail.dfy`):
  - the body search over a MIME part tree (multipart bodies as in section 5.1
    of RFC 2046), preferring text/plain over text/html;
  - the case-insensitive header lookup;
  - `clean_email_body`, a line filter with the two loop flags
    `in_quote_block` and `consecutive_empty_lines`, followed by strip and
    newline collapse.
- **GitHub folder tools** (`FolderTree`, `folder_tree.dfy`):
  - the folder map built by `get_github_folder_contents` over an abstract
    directory listing, including the sub-folder path;
  - the `.md` guard of `get_github_file_contents`;
  - `print_folder_tree` as a producer of the printed lines, proved equal to an
    independently defined outline of the tree.

  `gh_tools.py` holds the same two functions as
  `src/agents/obsidian_agent/tools.py`, and this model serves both.
- **Docstring rewriter** (`Docstrings`, `docstrings.dfy`). `add_module_docstring`
  and `add_function_docstrings` from `fix_pylint_issues.py` are modelled as
  surgery on the list of lines:
  - the first-code-line scan;
  - the insert index after shebang and encoding lines;
  - the bottom-up insertion of function docstrings, proved equal to a one-pass
    expansion of the file.
- **Shared helpers**: `Text` (`text.dfy`) holds Python's `strip`, `lstrip`,
  `rstrip`, `split`, `join`, `lower`, `title` and `replace` on ASCII. `Wrappers`
  (`wrappers.dfy`) holds `Option` and `Result`.

Network calls, the language model, file I/O and identifier generation are
parameters: a function from request to `None` when the call raises, or to what
it returned.

## Model

| member | source | states |
|---|---|---|
| ToolClient.WithScheme | src/agents/common/tool_client.py:67-68 | the schemed URL always starts with "http://" or "https://" |
| ToolClient.NormalizeUrl | src/agents/common/tool_client.py:65-69 | the result never ends in "/" and starts with "http" plus at least one more character; it is the schemed URL minus a trailing run of "/" |
| ToolClient.NormalizeIdempotentWhenSchemeKept | src/agents/common/tool_client.py:65-69 | normalising twice equals normalising once whenever the first result still starts with a scheme followed by a character other than "/" |
| ToolClient.NormalizeNotIdempotentWithoutScheme | src/agents/common/tool_client.py:65-69 | the converse: when the first result has lost its scheme, normalising again changes it |
| ToolClient.NormalizeEmpty | src/agents/common/tool_client.py:67-69 | "" normalises to "http:" because both slashes of the added scheme are stripped |
| ToolClient.NormalizeHttpColon | src/agents/common/tool_client.py:67-69 | "http:" lacks "http://" and so gains a second scheme |
| ToolClient.NormalizeNotIdempotentOnEmpty | src/agents/common/tool_client.py:65-69 | normalisation is not idempotent on "": "" gives "http:", which gives "http://http:" |
| ToolClient.SchemeTestIsCaseSensitive | src/agents/common/tool_client.py:67 | "HTTP://x" becomes "http://HTTP://x": the scheme test is case-sensitive |
| ToolClient.TrimRightKeeps | src/agents/common/tool_client.py:69 | stripping trailing "/" leaves a string that does not end in "/" unchanged |
| ToolClient.NormalizeHostPort | src/agents/common/tool_client.py:65-69 | "example.com:9000/" normalises to "http://example.com:9000" |
| ToolClient.Added | src/agents/common/tool_client.py:76-79 | after adding, the keys are the old keys plus the normalised URL; an existing entry keeps its document, a new one is `None`, and no other entry changes |
| ToolClient.Removed | src/agents/common/tool_client.py:182-184 | after removing, the key is absent, nothing changes when it was absent, and every other entry is kept |
| ToolClient.Filled | src/agents/common/tool_client.py:88-102 | the keys are unchanged; a fetched document is kept without refetching; a `None` entry takes the fetched document when the fetch returns and stays `None` when it raises |
| ToolClient.AddTwiceIsAddOnce | src/agents/common/tool_client.py:74-79 | adding the same URL twice gives the same cache as adding it once |
| ToolClient.FillTwiceIsFillOnce | src/agents/common/tool_client.py:82-104 | listing twice with the same fetch results gives the same cache as listing once |
| ToolClient.OutgoingMessage | src/agents/common/tool_client.py:145-151 | the payload is a user message whose parts are exactly one text part holding the message, with the given message id and no task or context id |
| ToolClient.ServerReadsSentText | src/agents/common/tool_client.py:145-151 | the served agent's user input for the payload is exactly the text sent |
| ToolClient.FirstTextPart | src/agents/common/tool_client.py:166-170 | there is a result iff some part is a text part, and then it is the text of the first text part |
| ToolClient.FirstTextPartOfConcat | src/agents/common/tool_client.py:166-170 | the first text part of two part lists in a row comes from the first list when it has one, otherwise from the second |
| ToolClient.FirstText | src/agents/common/tool_client.py:166-170 | the nested loop over artifacts and then their parts finds the first text part of all parts in order |
| ToolClient.ExtractReply | src/agents/common/tool_client.py:162-178 | the reply is a text exactly when the response carries a task with artifacts that hold a text part, and then it is the first such text; otherwise it is the dump of the whole response |
| ToolClient.DirectMessageIsDumped | src/agents/common/tool_client.py:162-173 | a direct message reply is returned as a dump, even when it holds text parts |
| ToolClient.DispatchWithCard | src/agents/common/tool_client.py:139-178 | an invalid card gives `InvalidCard`; otherwise a failed send gives `SendFailed`, and a reply is produced iff the send returned, and it is the reply extracted from that response |
| ToolClient.A2AToolClient.constructor | src/agents/common/tool_client.py:58-63 | the cache starts empty and the default timeout is kept |
| ToolClient.A2AToolClient.AddRemoteAgent | src/agents/common/tool_client.py:74-79 | the new cache is the old one with the normalised URL added |
| ToolClient.A2AToolClient.RemoveRemoteAgent | src/agents/common/tool_client.py:180-184 | the new cache is the old one with the normalised URL removed |
| ToolClient.A2AToolClient.ListRemoteAgents | src/agents/common/tool_client.py:82-104 | an empty cache gives an empty list; otherwise the cache is filled from the fetches and the whole cache, `None` entries included, is returned |
| ToolClient.A2AToolClient.CreateTask | src/agents/common/tool_client.py:107-178 | the card is fetched exactly when the cache holds no document for the normalised URL; a cached document is used without fetching; the cache is never written; a failed fetch, an invalid card and a failed send each raise |
| A2A.TextsOf | src/agents/common/agent_executor.py:55 | every text comes from a text part of the input; when all parts are text parts the texts are theirs, in order, and when none is there are no texts |
| A2A.TextsOfConcat | src/agents/common/agent_executor.py:55 | the texts of two part lists in a row are the texts of each, one after the other; with the contract of `TextsOf` this makes the result the text parts' texts in order |
| A2A.NewTask | src/agents/common/agent_executor.py:56 | a new task is submitted, has no artifacts, holds the message as its history, and keeps the message's task id when it has one |
| AgentExecution.EventQueue.constructor | src/agents/common/agent_executor.py:49 | the queue starts empty |
| AgentExecution.EventQueue.EnqueueEvent | src/agents/common/agent_executor.py:57 | the event is appended and no earlier event changes |
| AgentExecution.TaskUpdater.constructor | src/agents/common/agent_executor.py:58 | the updater is bound to the queue, task id and context id |
| AgentExecution.TaskUpdater.UpdateStatus | src/agents/common/agent_executor.py:60-63 | one status update for the updater's task is appended |
| AgentExecution.TaskUpdater.AddArtifact | src/agents/common/agent_executor.py:69-71 | one artifact update carrying the named artifact is appended |
| AgentExecution.TaskUpdater.Complete | src/agents/common/agent_executor.py:72 | one final `completed` status without a message is appended |
| AgentExecution.PydanticAgentExecutor.constructor | src/agents/common/agent_executor.py:16-31 | the status message defaults to "Processing request..." and the artifact name to "response" |
| AgentExecution.PydanticAgentExecutor.Cancel | src/agents/common/agent_executor.py:40-47 | cancelling leaves any event queue with exactly the events it had |
| AgentExecution.PydanticAgentExecutor.Execute | src/agents/common/agent_executor.py:49-78 | the queue gains exactly the execution's event sequence for the run's outcome on the user input |
| AgentExecution.ExecutionEvents | src/agents/common/agent_executor.py:49-78 | the task comes first; then three events (success) or two (failure), all for the task's id and context id; only the last is terminal, a final `completed` or `failed` status by outcome; the only artifact update is the third event, on success |
| AgentExecution.TaskEnqueuedFirst | src/agents/common/agent_executor.py:56-57 | the first event is the task: the current task if there is one, otherwise a new submitted task holding the message; no later event enqueues a task |
| AgentExecution.WorkingCarriesStatusMessage | src/agents/common/agent_executor.py:59-63 | the second event is a non-final `working` status whose agent message is the status message |
| AgentExecution.ExactlyOneTerminal | src/agents/common/agent_executor.py:59-78 | exactly one event is terminal and it is the last one, final; it is `completed` iff the run returned and `failed` iff it raised |
| AgentExecution.SuccessAddsOneArtifact | src/agents/common/agent_executor.py:65-72 | on success exactly one artifact is added, with the executor's artifact name and the run's output as its only text part, before `completed`; no `failed` status is emitted |
| AgentExecution.FailureEndsFailed | src/agents/common/agent_executor.py:73-78 | on failure no artifact is added, and the last event is a final `failed` status with text "Error: " followed by the error |
| AgentManagement.CreateServer | src/agents/common/agent_manager.py:21-33 | the server gets the card's name, description, skills, host and port with the registration's agent, status message and artifact name; a card without host or port raises |
| AgentManagement.Register | src/agents/common/agent_manager.py:51 | the keys gain the name, which maps to the registration; the old key order stays a prefix and at most one name is added |
| AgentManagement.RegisterOnlyTouchesName | src/agents/common/agent_manager.py:42-56 | registering stores exactly the given registration under the name and leaves every other name and entry unchanged; the name is appended to the order only when new |
| AgentManagement.RegisterKeepsWellFormed | src/agents/common/agent_manager.py:51 | registering keeps the names equal to the keys, each once |
| AgentManagement.ReRegisterLastWins | src/agents/common/agent_manager.py:51 | registering a name twice equals registering it once with the second registration |
| AgentManagement.RegisterAllOrder | src/agents/common/agent_manager.py:51 | after any sequence of registrations the names are the distinct names in order of first registration, and each maps to its last registration |
| AgentManagement.AgentManager.constructor | src/agents/common/agent_manager.py:39-40 | the registry starts empty and well formed |
| AgentManagement.AgentManager.RegisterAgent | src/agents/common/agent_manager.py:42-56 | the registry becomes the old one with the name registered to the given card, agent, status message and artifact name (default "response") |
| AgentManagement.AgentManager.GetAgentList | src/agents/common/agent_manager.py:58-70 | one entry per registration in registry order, with name and port read from the card; a card without a port raises; the registry is not changed |
| AgentManagement.AgentManager.GetAgentRegistration | src/agents/common/agent_manager.py:72-76 | a present name gives its registration; an absent one gives `KeyError` with the source's message; the registry is not changed |
| AgentManagement.AgentManager.ListRegisteredAgents | src/agents/common/agent_manager.py:78-80 | every registered name exactly once, in insertion order |
| DispatchRoundTrip.EchoRoundTrip | src/agents/common/tool_client.py:145-178 | a message sent to an echoing agent gives a completed task whose extracted reply is the text sent |
| Gmail.ExtractBody | src/agents/gmail_agent/tools.py:22-26 | the decoded body data, or "" when there is no body or no data |
| Gmail.SearchParts | src/agents/gmail_agent/tools.py:28-51 | a part tree with no text/plain or text/html part anywhere gives "" |
| Gmail.ScanPlain | src/agents/gmail_agent/tools.py:30-39 | the text/plain pass finds nothing on such a tree |
| Gmail.ScanHtml | src/agents/gmail_agent/tools.py:41-49 | the text/html pass finds nothing on such a tree |
| Gmail.GetEmailBody | src/agents/gmail_agent/tools.py:53-60 | a payload without parts gives its decoded data exactly when it is text/plain or text/html and has data, else ""; a payload with parts but no text part anywhere gives "" |
| Gmail.FirstPlainWins | src/agents/gmail_agent/tools.py:30-39 | on one level, the first text/plain part ends the search, even with an empty body and even after a text/html part, provided no nested part up to it gives a body |
| Gmail.PlainScanFrom | src/agents/gmail_agent/tools.py:30-39 | the text/plain pass stops at the first text/plain part |
| Gmail.HtmlOnlyWithoutPlain | src/agents/gmail_agent/tools.py:41-49 | on one level without text/plain and without nested parts that give a body, the first text/html part gives the body, even with an empty body |
| Gmail.PlainScanMisses | src/agents/gmail_agent/tools.py:30-39 | the text/plain pass finds nothing on a level without text/plain |
| Gmail.HtmlScanFrom | src/agents/gmail_agent/tools.py:41-49 | the text/html pass stops at the first text/html part |
| Gmail.NestedHtmlBeatsLaterPlain | src/agents/gmail_agent/tools.py:30-35 | nested parts are searched first: an html part nested in the first part beats a later top-level text/plain part |
| Gmail.NestedResultFirst | src/agents/gmail_agent/tools.py:30-35 | a part whose nested parts give a body returns that body, whatever follows at its level, provided no earlier part is text/plain or gives a nested body |
| Gmail.PlainScanReachesNested | src/agents/gmail_agent/tools.py:30-35 | the text/plain pass from an earlier index reaches such a part and returns its nested body |
| Gmail.GetHeaderValue | src/agents/gmail_agent/tools.py:76-81 | the value of the first header whose name matches ignoring case, or "" when none matches |
| Gmail.LowerIdempotent | src/agents/gmail_agent/tools.py:79 | lower-casing twice is lower-casing once |
| Gmail.HeaderLookupIgnoresCase | src/agents/gmail_agent/tools.py:76-81 | the lookup does not depend on the case of the name asked for |
| Gmail.QuoteBlockStep | src/agents/gmail_agent/tools.py:111-125 | a quote block opens at a quote line and closes at the next non-blank line that is not a reply header |
| Gmail.CleanStep | src/agents/gmail_agent/tools.py:107-154 | one turn only appends, at most one line; a filtered line adds nothing; a surviving line adds its rewritten text, from this line; a non-blank line that is not a reply header sets the quote flag to whether it is a quote |
| Gmail.Cleaned | src/agents/gmail_agent/tools.py:107-154 | after n lines there are as many origins as output lines, at most n |
| Gmail.CleanStepOutput | src/agents/gmail_agent/tools.py:107-154 | one turn either keeps the output, or appends one line coming from the current input line; a surviving line is always appended |
| Gmail.CleanedOrigins | src/agents/gmail_agent/tools.py:107-154 | each output line comes from an input line read so far, in increasing order |
| Gmail.CleanedKept | src/agents/gmail_agent/tools.py:107-154 | each output line is "" for a blank line outside a quote block, or the rewritten text of a surviving line |
| Gmail.CleanedSurvivors | src/agents/gmail_agent/tools.py:107-154 | every surviving line is kept |
| Gmail.CleanedExtends | src/agents/gmail_agent/tools.py:107-154 | later turns only append, and what they append comes from later input lines |
| Gmail.LastOriginBelow | src/agents/gmail_agent/tools.py:107-154 | the last output line comes from an input line already read |
| Gmail.CounterStep | src/agents/gmail_agent/tools.py:131-143 | an appending turn appends this line, and a kept blank line sets the counter to 1; a turn that appends nothing keeps a positive counter positive unless the line is URL-only |
| Gmail.CounterHoldsStep | src/agents/gmail_agent/tools.py:131-143 | one turn keeps the counter invariant: after the last kept line, if blank, the counter stays positive until a URL-only line |
| Gmail.BlankCounterHolds | src/agents/gmail_agent/tools.py:131-143 | the counter invariant holds after any number of lines |
| Gmail.OutputLineTurn | src/agents/gmail_agent/tools.py:107-154 | each output line after the first is appended by one turn, after the previous output line's turn, when the output had exactly the lines before it |
| Gmail.BlankPairsHaveReset | src/agents/gmail_agent/tools.py:131-143 | two blank lines adjacent in the output have a URL-only line between them in the input |
| Gmail.UrlLineLetsSecondBlankThrough | src/agents/gmail_agent/tools.py:131-143 | two blank lines give one "", but a URL-only line between them lets both through |
| Gmail.CleanedOutput | src/agents/gmail_agent/tools.py:107-154 | the whole loop's output has every property `CleanLines` promises |
| Gmail.CleanLines | src/agents/gmail_agent/tools.py:104-154 | output lines come from input lines in order; reply headers, quotes and signatures never reach the output; blank lines in a quote block are dropped; every surviving line is kept, rewritten; two kept blank lines in a row of the output have a URL-only line between them in the input |
| Gmail.LeadingNewlines | src/agents/gmail_agent/tools.py:163 | the length of the leading run of line feeds |
| Gmail.CollapseNewlines | src/agents/gmail_agent/tools.py:163 | collapsing is empty exactly on "" and keeps the first character; with `CollapseRun`, `CollapseConcat` and `CollapseKeepsShortRuns` every run of three or more line feeds becomes two and nothing else changes |
| Gmail.CollapseKeepsLast | src/agents/gmail_agent/tools.py:163 | collapsing keeps the last character |
| Gmail.CollapseNoTriple | src/agents/gmail_agent/tools.py:163 | after collapsing, no three line feeds are adjacent |
| Gmail.NoTripleAfter | src/agents/gmail_agent/tools.py:163 | a run of at most two line feeds followed by a text without three, not continuing the run, has no three adjacent line feeds |
| Gmail.Newlines | src/agents/gmail_agent/tools.py:163 | n line feeds |
| Gmail.CollapseKeepsShortRuns | src/agents/gmail_agent/tools.py:163 | a text without three adjacent line feeds is left as it is |
| Gmail.CollapseRun | src/agents/gmail_agent/tools.py:163 | a run of three or more line feeds becomes two, and a shorter run stays as it is |
| Gmail.CollapseConcat | src/agents/gmail_agent/tools.py:163 | texts that do not meet inside a run of line feeds collapse separately |
| Gmail.LeadingNewlinesConcat | src/agents/gmail_agent/tools.py:163 | the leading run of line feeds of a non-empty text is kept when another text is appended without continuing a run |
| Gmail.StripThenCollapse | src/agents/gmail_agent/tools.py:160-163 | strip then collapse gives a text without surrounding whitespace and without three adjacent line feeds |
| Gmail.Views | src/agents/gmail_agent/tools.py:107-154 | one view per line; a view is blank iff its line is all whitespace, survives iff the patterns let its line through as text, and carries the rewritten line |
| Gmail.CleanEmailBody | src/agents/gmail_agent/tools.py:84-165 | a falsy body is returned as is; otherwise the cleaned lines are joined, stripped and collapsed, and the result has no surrounding whitespace and no three line feeds in a row |
| FolderTree.LookupMeansName | src/agents/obsidian_agent/tools.py:31-42 | a key can be looked up iff it is among the map's names |
| FolderTree.Put | src/agents/obsidian_agent/tools.py:39-41 | a store adds at most one entry |
| FolderTree.PutLookup | src/agents/obsidian_agent/tools.py:39-41 | after a store the key holds the new value and every other key is unchanged |
| FolderTree.PutNames | src/agents/obsidian_agent/tools.py:39-41 | a stored key keeps its position when present and is appended when new |
| FolderTree.PutDistinct | src/agents/obsidian_agent/tools.py:39-41 | a store keeps the keys distinct |
| FolderTree.LastKept | src/agents/obsidian_agent/tools.py:32-41 | the last "dir" or "file" item with a given name, if any |
| FolderTree.Collected | src/agents/obsidian_agent/tools.py:31-42 | the folder map after n items has at most n entries, and none when no item so far is a "dir" or "file" |
| FolderTree.FolderContents | src/agents/obsidian_agent/tools.py:12-42 | `None` iff the listing failed; otherwise at most one entry per item |
| FolderTree.CollectedEntries | src/agents/obsidian_agent/tools.py:31-42 | the keys are distinct; a key is present iff a "dir" or "file" item has that name, and it holds what the last such item stores: "file" for a file, the recursive result for a folder |
| FolderTree.GetGithubFolderContents | src/agents/obsidian_agent/tools.py:12-42 | when the API serves the listing at `path` (and its sub-listings at their child paths), the result is that listing's folder map: `None` iff the API call at `path` failed, otherwise distinct keys |
| FolderTree.Shallow | src/agents/obsidian_agent/tools.py:23-34 | the API answer for a listing: `None` iff it failed, otherwise one raw item per item with its name and type |
| FolderTree.SubfolderFromChildPath | src/agents/obsidian_agent/tools.py:36-39 | a kept "dir" item is fetched at its child path, and the folder map holds the sub-folder's own map under its name |
| FolderTree.ChildPath | src/agents/obsidian_agent/tools.py:38 | the sub-folder path is the name under the root, and otherwise the path, "/" and the name |
| FolderTree.JoinSnoc | src/agents/obsidian_agent/tools.py:38 | joining one more name adds the separator and the name |
| FolderTree.DescendPathJoins | src/agents/obsidian_agent/tools.py:38 | descending from the root through non-empty names gives the names joined by "/" |
| FolderTree.GetGithubFileContents | src/agents/obsidian_agent/tools.py:51-55 | a path not ending in ".md" gives the failure dictionary with "File is not a markdown file." |
| FolderTree.FileGuardIgnoresDownload | src/agents/obsidian_agent/tools.py:45-70 | a non-markdown path is refused whatever the API would answer; a markdown path succeeds iff its download does |
| FolderTree.RowsCount | src/agents/obsidian_agent/tools.py:75-91 | the outline has one row per file or folder at every level |
| FolderTree.PrintFolderTree | src/agents/obsidian_agent/tools.py:73-91 | it fails iff some folder content is `None`; an empty tree prints nothing; otherwise the first line is the prefix, the connector ("└── " for a single item) and the first name |
| FolderTree.PrintItems | src/agents/obsidian_agent/tools.py:76-91 | from item i on, it fails iff some remaining content is `None`, and the first line is item i's with "└── " exactly for the last item |
| FolderTree.RowsFromCount | src/agents/obsidian_agent/tools.py:76-91 | the rows from an item on are one per remaining entry |
| FolderTree.Outline | src/agents/obsidian_agent/tools.py:87-90 | one printed line per row |
| FolderTree.OutlineAppend | src/agents/obsidian_agent/tools.py:76-91 | the outline of rows in a row is the outlines one after the other |
| FolderTree.RowLineUnder | src/agents/obsidian_agent/tools.py:91 | a child's line seen from its parent's level equals its line under the parent's child prefix |
| FolderTree.OutlineUnder | src/agents/obsidian_agent/tools.py:80-91 | children are drawn with "    " under a last entry and "│   " otherwise |
| FolderTree.PrintDrawsOutline | src/agents/obsidian_agent/tools.py:73-91 | without `None` the printed lines are exactly the pre-order outline: "└── " for the last entry of a level and "├── " for others; with `None` printing raises after a non-empty beginning of it; an empty tree prints nothing |
| FolderTree.PrintItemsDrawOutline | src/agents/obsidian_agent/tools.py:76-91 | the same, from any item of a level on |
| FolderTree.PrintIgnoresIndentAndLast | src/agents/obsidian_agent/tools.py:73-77 | `indent` and `is_last_item` never change what is printed |
| FolderTree.PrintItemsIgnoreIndent | src/agents/obsidian_agent/tools.py:76-91 | the same, from any item of a level on |
| Docstrings.FirstCodeLine | fix_pylint_issues.py:21-27 | the first line that is neither blank nor a comment, or 0 when there is none |
| Docstrings.FirstFromScan | fix_pylint_issues.py:23-27 | the scan from a line on finds the first line satisfying the test, or 0 |
| Docstrings.HeaderLength | fix_pylint_issues.py:42-48 | the length of the leading run of shebang and encoding lines |
| Docstrings.RunFromScan | fix_pylint_issues.py:44-48 | the scan finds the end of the run of lines satisfying the test |
| Docstrings.Inserted | fix_pylint_issues.py:50 | one line is inserted at the index, and the lines before and after keep their order |
| Docstrings.ModuleDocstringText | fix_pylint_issues.py:40-50 | the inserted line is three double quotes, the module name, " module." and three double quotes |
| Docstrings.TitleAgents | fix_pylint_issues.py:38 | "agents" title-cases to "Agents" |
| Docstrings.InitDocstringRepeatsModule | fix_pylint_issues.py:36-40 | an `__init__.py` in "agents" gets "Agents module module." |
| Docstrings.FindFirstCodeLine | fix_pylint_issues.py:22-27 | the loop finds the first code line |
| Docstrings.FindInsertIndex | fix_pylint_issues.py:43-48 | the loop finds the insert index |
| Docstrings.InsertModuleDocstring | fix_pylint_issues.py:19-50 | a line is added iff the first code line does not open a docstring, and then it is inserted after the header lines; otherwise the lines are unchanged |
| Docstrings.AddModuleDocstring | fix_pylint_issues.py:8-55 | returns True and writes the file with the docstring inserted exactly when the first code line does not open a docstring; otherwise False and nothing is written |
| Docstrings.StripUnchanged | fix_pylint_issues.py:31 | a text without surrounding whitespace strips to itself |
| Docstrings.QuotedLineOpensDocstring | fix_pylint_issues.py:31-32 | a line that opens with three double quotes and ends with a quote is a code line that opens a docstring |
| Docstrings.QuotedNameOpensDocstring | fix_pylint_issues.py:31-40 | for a name without line feeds, the module docstring line has no line feed, is a code line and opens a docstring |
| Docstrings.ModuleDocstringOpens | fix_pylint_issues.py:40-50 | the module docstring is one code line that opens a docstring |
| Docstrings.InsertedSplitsBack | fix_pylint_issues.py:50-53 | the written text splits back into the lines with the docstring inserted |
| Docstrings.InsertedFirstCode | fix_pylint_issues.py:22-27 | a code line inserted after non-code lines becomes the first code line |
| Docstrings.SecondRunFindsDocstring | fix_pylint_issues.py:19-55 | after a docstring is added, a second run reads back the same lines and finds that its first code line opens a docstring |
| Docstrings.LStripSpaces | fix_pylint_issues.py:136 | lstrip removes exactly the leading spaces |
| Docstrings.IndentedStrip | fix_pylint_issues.py:136 | an indented text strips to the text |
| Docstrings.FunctionDocstringShape | fix_pylint_issues.py:135-142 | the inserted line is indented four columns past the def line and is a code line that opens a docstring |
| Docstrings.InsertByLineno | fix_pylint_issues.py:125 | inserting into the sorted list adds exactly the one definition |
| Docstrings.InsertKeepsDescending | fix_pylint_issues.py:125 | insertion keeps the line numbers strictly descending |
| Docstrings.SortByLinenoDescending | fix_pylint_issues.py:125 | the sort is a permutation of the definitions |
| Docstrings.SortedDescending | fix_pylint_issues.py:125 | definitions on distinct lines sort into strictly descending line numbers |
| Docstrings.SortedWellPlaced | fix_pylint_issues.py:120-125 | the sorted definitions are the same definitions, within the file, bottom one first |
| Docstrings.ExpandSkip | fix_pylint_issues.py:127-143 | lines that get no docstring are copied unchanged |
| Docstrings.Expand | fix_pylint_issues.py:127-143 | from line j on, every line is kept and at most one docstring line is added per line, the first line first |
| Docstrings.ExpandAgree | fix_pylint_issues.py:127-143 | the expansion below a line depends only on the names keyed below it |
| Docstrings.KeysAfterStep | fix_pylint_issues.py:127-143 | counting the keys in a range, one line at a time |
| Docstrings.ExpandLength | fix_pylint_issues.py:127-143 | the new file has every line once plus one docstring line per qualifying definition |
| Docstrings.ExpandPlacesLine | fix_pylint_issues.py:127-143 | each line lands after the docstrings inserted above it, and a keyed line is directly followed by its docstring |
| Docstrings.DocNamesSnoc | fix_pylint_issues.py:129-133 | one more definition adds its name under its line exactly when it qualifies |
| Docstrings.DocNames | fix_pylint_issues.py:129-133 | every qualifying definition's line number is a key |
| Docstrings.InsertStep | fix_pylint_issues.py:135-143 | one insertion at the def line extends the description of the file by that line's docstring |
| Docstrings.Splice | fix_pylint_issues.py:143 | inserting after a def line inside the untouched prefix splices the line into that prefix |
| Docstrings.SkipStep | fix_pylint_issues.py:129-133 | a passed-over definition leaves the file and moves the description up to its line |
| Docstrings.DocNamesSameDefs | fix_pylint_issues.py:120-125 | the names depend only on which definitions there are, not their order |
| Docstrings.DocNamesOnlyLines | fix_pylint_issues.py:129-133 | a line with no definition has no docstring |
| Docstrings.DocNamesFrom | fix_pylint_issues.py:129-133 | every docstring comes from a qualifying definition on that line |
| Docstrings.InsertKeepsLoopState | fix_pylint_issues.py:129-144 | inserting for a qualifying definition keeps the loop state |
| Docstrings.SkipKeepsLoopState | fix_pylint_issues.py:129-133 | passing over a definition keeps the loop state |
| Docstrings.InsertingState | fix_pylint_issues.py:127-144 | after any number of definitions the loop state holds |
| Docstrings.InsertingExpands | fix_pylint_issues.py:119-144 | bottom-up insertion over the sorted definitions gives the one-pass expansion of the file |
| Docstrings.ExpandGrows | fix_pylint_issues.py:117-144 | the file grows exactly when some definition qualifies |
| Docstrings.InsertBottomUp | fix_pylint_issues.py:127-144 | the loop's lines follow the step-by-step description, and `modified` is set iff a line was inserted |
| Docstrings.InsertFunctionDocstrings | fix_pylint_issues.py:116-144 | `modified` iff some definition qualifies, and the new lines are the expansion of the file |
| Docstrings.DocNamesAt | fix_pylint_issues.py:129-133 | a definition gets a docstring iff it has none and its name does not start with "_" |
| Docstrings.DocNamesEmpty | fix_pylint_issues.py:129-144 | there is something to insert iff some definition qualifies |
| Docstrings.DocstringFollowsDef | fix_pylint_issues.py:119-143 | in the new file every qualifying def line is directly followed by its docstring line |
| Docstrings.AddFunctionDocstrings | fix_pylint_issues.py:99-150 | a file that does not parse gives False; otherwise it returns True iff some definition qualifies, and writes the expanded file only then |
| Text.LStrip | fix_pylint_issues.py:136 | drops exactly the leading whitespace |
| Text.RStrip | fix_pylint_issues.py:50 | drops exactly the trailing whitespace |
| Text.Strip | fix_pylint_issues.py:24 | a slice of the text with only whitespace before and after it, empty iff the text is all whitespace, and otherwise beginning and ending with non-whitespace |
| Text.TrimmedSlice | fix_pylint_issues.py:24 | trailing whitespace cut from a text whose leading whitespace was cut leaves a slice with only whitespace around it |
| Text.StripEnds | fix_pylint_issues.py:24 | what is left neither starts nor ends with whitespace |
| Text.StripEmpty | fix_pylint_issues.py:24 | nothing is left exactly when all is whitespace |
| Text.TrimRight | src/agents/common/tool_client.py:69 | drops exactly the trailing run of the character |
| Text.Split | fix_pylint_issues.py:19 | never empty, and no piece holds the separator |
| Text.JoinSplit | fix_pylint_issues.py:53 | joining the pieces of a split gives back the text |
| Text.SplitJoin | fix_pylint_issues.py:53 | splitting a joined text gives back the pieces when none holds the separator |
| Text.Join | fix_pylint_issues.py:53 | joining nothing gives ""; otherwise the result starts with the first piece |
| Text.Lower | src/agents/gmail_agent/tools.py:79 | same length, no upper-case letter left, each upper-case letter replaced by its lower-case partner and every other character kept |
| Text.Title | fix_pylint_issues.py:36-38 | same length, non-letters kept, each letter kept up to case: lower-case after a letter, upper-case otherwise |
| Text.TitleAfterCases | fix_pylint_issues.py:36-38 | the same, character by character, from any state of the "after a letter" flag |

## Left out

- HTTP and the A2A transport are inputs, not calls:
  - the discovery-document GETs, `A2AClient.send_message` and its timeout, and `AgentCard` validation;
  - the GitHub REST calls, with their headers and token.

  A call that raises is `None`. `create_task` lets those errors escape as the code does (`DispatchError`); it does not turn them into strings.
- The Gmail API, OAuth token handling, the language model behind each agent, the MCP servers, threads, event loops, logging and `print` are left out. They are foreign calls, concurrency or output only.
- The regular expressions of `clean_email_body` are parameters, except the quote pattern and the "--" separator, which are concrete:
  - reply header;
  - "Sent via";
  - phone number;
  - URL-only line;
  - the two rewrites.

  Base64url decoding followed by UTF-8 is a parameter `decode`, and decode errors are not modelled.
- Whitespace, lower-casing and title-casing follow Python on ASCII only; Unicode case rules are not modelled.
- Generated identifiers (`uuid4` message, task, context and artifact ids) are inputs (`FreshIds`, `messageId`, `requestId`).
- `create_task`'s fallback to `str(response)` when the dump itself raises is not modelled. The dump of a well-formed response does not raise.
- `list_remote_agents` returns the whole cache, `None` entries included; a failed fetch is not left out of the result. The model follows the code here.
- `ToolClient.NormalizeUrl`: idempotence is proved only when the result still starts with a scheme, and is disproved on "". The code is not idempotent on every input.
- Key order of the client cache is not modelled: the cache is a `map`. Order only affects the order of the returned mapping.
- Only the agent run can fail in `execute`. A failure of the queue or of `TaskUpdater` itself is not modelled.
- `search_parts_recursively` searches a part's nested parts before its own type, so a nested html part beats a later top-level plain part. The model follows the code here.
- A MIME part's "parts" key is modelled as a flag plus a list (`hasParts`).
- The GitHub contents API is a function `api` from a folder path to its raw items, or `None` when the request raises. A ghost tree of listings (`Listing`) that `api` serves at every sub-folder path describes what the recursion builds. An answer that is not a list is not modelled.
- `FolderTree.GetGithubFileContents`: a download that raises is `None`; the exception itself is not modelled.
- `gh_tools.py` is served by the same `FolderTree` model as the obsidian tools.
- `clean_email_body` classifies each line once (`LineView`) before the loop. The classifiers are pure, so this changes nothing.
- `fix_unused_arguments` (fix_pylint_issues.py:58-96) and the `main` driver are left out, because both depend on Python's `ast` rewriting and the file system.
- The syntax tree is an input list of `FunctionDef(lineno, name, hasDocstring)` records. It is assumed well placed: line numbers distinct, at least 1, and at most the line count, as a parsed file guarantees. The source's `lineno <= len(lines)` test therefore always holds. Because the line numbers are distinct, the `ast.walk` order does not matter once sorted.
- A `def` whose signature spans several lines still gets its docstring right after line `lineno`, as in the code. The model does not know where the signature ends.
- File reads and writes become content in and `Option` content out (`None` when nothing is written).
- `Docstrings.SecondRunFindsDocstring`: the second run is proved to find the docstring only when the header lines are not code and the module name holds no line feed.
- The agent, card and application modules, `client.py`, and the linters and command wrappers under `src/core` are configuration, interactive I/O or subprocess glue, and are not part of this model.
