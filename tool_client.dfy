/** The remote-agent client (`A2AToolClient`): a cache from normalised agent
    URL to the agent's discovery document, where `JNull` (Python's `None`)
    marks an agent that is registered but not fetched yet; and the dispatch of
    one `message/send` request with the extraction of its reply text.
    HTTP GETs and the send are abstract inputs: a function from URL (or card
    and request) to `None` when the call raises, or to what it returned. */
module ToolClient {
  import opened Wrappers
  import opened Text
  import opened A2A

  /** A JSON value as `response.json()` returns it; `JNull` is Python's `None`. */
  datatype Json = JNull | JBool(b: bool) | JInt(i: int) | JStr(s: string) | JArr(items: seq<Json>) | JObj(fields: map<string, Json>)

  // ---------------------------------------------------------------- URLs

  /** `url.startswith(("http://", "https://"))`: case-sensitive. */
  predicate HasScheme(url: string) {
    StartsWith(url, "http://") || StartsWith(url, "https://")
  }

  function WithScheme(url: string): (r: string)
    ensures HasScheme(r)
  {
    if HasScheme(url) then url else "http://" + url
  }

  /** `_normalize_url`: prefix "http://" unless the URL starts with one of the
      two schemes, then strip every trailing "/". The result never ends in "/",
      begins with "http" and one more character, and is the schemed URL minus a run of "/". */
  function NormalizeUrl(url: string): (r: string)
    ensures r != [] && r[|r| - 1] != '/'
    ensures StartsWith(r, "http") && |r| >= 5
    ensures StartsWith(WithScheme(url), r)
    ensures forall i | |r| <= i < |WithScheme(url)| :: WithScheme(url)[i] == '/'
  {
    var s := WithScheme(url);
    var r := TrimRight(s, '/');
    assert s[..4] == "http" && s[4] != '/' by {
      if StartsWith(s, "http://") {
        assert s[..4] == s[..7][..4];
        assert s[4] == s[..7][4];
      } else {
        assert s[..4] == s[..8][..4];
        assert s[4] == s[..8][4];
      }
    }
    assert r[..4] == s[..4];
    r
  }

  /** Normalising twice equals normalising once whenever the first result
      still carries its scheme, i.e. a character other than "/" follows it. */
  lemma NormalizeIdempotentWhenSchemeKept(url: string)
    requires HasScheme(NormalizeUrl(url))
    ensures NormalizeUrl(NormalizeUrl(url)) == NormalizeUrl(url)
  {
    var r := NormalizeUrl(url);
    assert WithScheme(r) == r;
  }

  /** The converse: when the first result has lost its scheme, normalising
      again adds a second "http://" and so changes the URL. */
  lemma NormalizeNotIdempotentWithoutScheme(url: string)
    requires !HasScheme(NormalizeUrl(url))
    ensures NormalizeUrl(NormalizeUrl(url)) != NormalizeUrl(url)
  {
    var r := NormalizeUrl(url);
    assert WithScheme(r) == "http://" + r;
    TrimRightKeeps("http://" + r, '/');
    assert |NormalizeUrl(r)| == |r| + 7;
  }

  /** "" gains the scheme and then loses both of its slashes. */
  lemma NormalizeEmpty()
    ensures NormalizeUrl("") == "http:"
  {
    assert !HasScheme("") && WithScheme("") == "http://";
    assert TrimRight("http://", '/') == TrimRight("http:/", '/') == TrimRight("http:", '/') == "http:";
  }

  /** "http:" lacks "http://", so it gains a second scheme. */
  lemma NormalizeHttpColon()
    ensures NormalizeUrl("http:") == "http://http:"
  {
    assert !StartsWith("http:", "http://") && !StartsWith("http:", "https://");
    assert WithScheme("http:") == "http://http:";
    assert TrimRight("http://http:", '/') == "http://http:";
  }

  /** Idempotence does not hold for every input: "" normalises to "http:",
      which lacks "http://" and so normalises to "http://http:". */
  lemma NormalizeNotIdempotentOnEmpty()
    ensures NormalizeUrl("") == "http:"
    ensures NormalizeUrl(NormalizeUrl("")) == "http://http:"
    ensures NormalizeUrl(NormalizeUrl("")) != NormalizeUrl("")
  {
    NormalizeEmpty();
    NormalizeHttpColon();
  }

  /** The scheme test is case-sensitive: an upper-case scheme gets a second one. */
  lemma SchemeTestIsCaseSensitive()
    ensures NormalizeUrl("HTTP://x") == "http://HTTP://x"
  {
    assert WithScheme("HTTP://x") == "http://HTTP://x" by {
      assert !StartsWith("HTTP://x", "http://") by { assert "HTTP://x"[0] != "http://"[0]; }
      assert !StartsWith("HTTP://x", "https://") by { assert "HTTP://x"[0] != "https://"[0]; }
    }
    TrimRightKeeps("http://HTTP://x", '/');
  }

  /** Nothing is trimmed from a string that does not end in `c`. */
  lemma TrimRightKeeps(s: string, c: char)
    requires s != [] && s[|s| - 1] != c
    ensures TrimRight(s, c) == s
  {
  }

  /** A host and port with a trailing slash gain the scheme and lose the slash. */
  lemma NormalizeHostPort()
    ensures NormalizeUrl("example.com:9000/") == "http://example.com:9000"
  {
    var s := "http://example.com:9000/";
    var t := "http://example.com:9000";
    assert WithScheme("example.com:9000/") == s by {
      assert !StartsWith("example.com:9000/", "http://") by { assert "example.com:9000/"[0] != 'h'; }
      assert !StartsWith("example.com:9000/", "https://") by { assert "example.com:9000/"[0] != 'h'; }
      assert "http://" + "example.com:9000/" == s;
    }
    assert TrimRight(s, '/') == TrimRight(t, '/') by {
      assert s[|s| - 1] == '/' && s[..|s| - 1] == t;
    }
    TrimRightKeeps(t, '/');
  }

  // ---------------------------------------------------------- the cache

  /** The cache after `add_remote_agent` for normalised key `key`: the key is
      present, an existing entry keeps its value, nothing else changes. */
  function Added(cache: map<string, Json>, key: string): (r: map<string, Json>)
    ensures r.Keys == cache.Keys + {key}
    ensures key in cache ==> r == cache
    ensures key !in cache ==> r[key] == JNull
    ensures forall k | k in cache :: r[k] == cache[k]
  {
    if key in cache then cache else cache[key := JNull]
  }

  /** The cache after `remove_remote_agent` for normalised key `key`. */
  function Removed(cache: map<string, Json>, key: string): (r: map<string, Json>)
    ensures r.Keys == cache.Keys - {key}
    ensures key !in cache ==> r == cache
    ensures forall k | k in r :: r[k] == cache[k]
  {
    if key in cache then cache - {key} else cache
  }

  /** One entry after `list_remote_agents`: a fetched document is kept without
      refetching; a `None` entry takes the fetched document when the fetch
      returns, and stays `None` when it raises. */
  function FilledEntry(cached: Json, fetched: Option<Json>): Json {
    if cached != JNull then cached
    else match fetched
      case Some(doc) => doc
      case None => JNull
  }

  /** The whole cache after `list_remote_agents`. */
  function Filled(cache: map<string, Json>, fetch: string -> Option<Json>): (r: map<string, Json>)
    ensures r.Keys == cache.Keys
    ensures forall k | k in cache && cache[k] != JNull :: r[k] == cache[k]
    ensures forall k | k in cache && cache[k] == JNull && fetch(k).None? :: r[k] == JNull
    ensures forall k | k in cache && cache[k] == JNull && fetch(k).Some? :: r[k] == fetch(k).value
  {
    map k | k in cache :: FilledEntry(cache[k], fetch(k))
  }

  /** Adding the same URL twice gives the same cache as adding it once. */
  lemma AddTwiceIsAddOnce(cache: map<string, Json>, url: string)
    ensures Added(Added(cache, NormalizeUrl(url)), NormalizeUrl(url)) == Added(cache, NormalizeUrl(url))
  {
  }

  /** Filling a filled cache with the same fetch results changes nothing. */
  lemma FillTwiceIsFillOnce(cache: map<string, Json>, fetch: string -> Option<Json>)
    ensures Filled(Filled(cache, fetch), fetch) == Filled(cache, fetch)
  {
    var once := Filled(cache, fetch);
    var twice := Filled(once, fetch);
    forall k | k in cache
      ensures twice[k] == once[k]
    {
      assert twice[k] == FilledEntry(once[k], fetch(k));
    }
  }

  /** What `list_remote_agents` returns: `[]` for an empty cache, otherwise the
      cache mapping itself (including entries still `None`). */
  datatype RemoteAgentList = EmptyList | WholeCache(entries: map<string, Json>)

  /** Why `create_task` raises: the card GET failed, the document is not a
      valid agent card, or the send failed. */
  datatype DispatchError = CardFetchFailed | InvalidCard | SendFailed

  /** The text `create_task` returns: the first text part found, or the JSON
      dump of the whole response. */
  datatype Reply = PartText(text: string) | ResponseDump(response: SendResponse)

  datatype SendMessageRequest = SendMessageRequest(id: string, message: Message)

  // ------------------------------------------------------ the dispatch

  /** The payload of `create_task`: one user message with a single text part
      holding `message`, the fresh `messageId`, and no task or context id. */
  function OutgoingMessage(message: string, messageId: string): (m: Message)
    ensures m.role == User && m.messageId == messageId
    ensures m.parts == [TextPart(message)]
    ensures m.taskId.None? && m.contextId.None?
  {
    Message(User, [TextPart(message)], messageId, None, None)
  }

  /** The served agent reads back exactly the text that was sent. */
  lemma {:induction false} ServerReadsSentText(message: string, messageId: string)
    ensures UserInput(OutgoingMessage(message, messageId)) == message
  {
    var parts := OutgoingMessage(message, messageId).parts;
    assert parts[1..] == [];
    assert TextsOf(parts) == [message] + TextsOf(parts[1..]) == [message];
  }

  /** The first text part of `parts`, scanning in order. */
  function FirstTextPart(parts: seq<Part>): (r: Option<string>)
    ensures r.Some? <==> exists i | 0 <= i < |parts| :: parts[i].TextPart?
    ensures r.Some? ==> exists i | 0 <= i < |parts| ::
      parts[i] == TextPart(r.value) && forall j | 0 <= j < i :: !parts[j].TextPart?
  {
    if parts == [] then None
    else if parts[0].TextPart? then Some(parts[0].text)
    else
      var r := FirstTextPart(parts[1..]);
      assert forall i | 1 <= i < |parts| :: parts[i] == parts[1..][i - 1];
      r
  }

  /** All parts of all artifacts, artifact by artifact. */
  function AllParts(artifacts: seq<Artifact>): seq<Part> {
    if artifacts == [] then [] else artifacts[0].parts + AllParts(artifacts[1..])
  }

  lemma {:induction false} FirstTextPartOfConcat(a: seq<Part>, b: seq<Part>)
    ensures FirstTextPart(a + b) == if FirstTextPart(a).Some? then FirstTextPart(a) else FirstTextPart(b)
  {
    if a != [] {
      assert (a + b)[1..] == a[1..] + b;
      FirstTextPartOfConcat(a[1..], b);
    } else {
      assert a + b == b;
    }
  }

  /** The nested loop over artifacts and their parts. */
  function FirstText(artifacts: seq<Artifact>): (r: Option<string>)
    ensures r == FirstTextPart(AllParts(artifacts))
  {
    if artifacts == [] then None
    else
      FirstTextPartOfConcat(artifacts[0].parts, AllParts(artifacts[1..]));
      match FirstTextPart(artifacts[0].parts)
      case Some(t) => Some(t)
      case None => FirstText(artifacts[1..])
  }

  /** The text extraction of `create_task`: the text of the first part that has
      a "text" key, scanning the result's artifacts and then their parts in
      order; the whole response's dump when there is no result, no artifacts,
      or no text part. */
  function ExtractReply(response: SendResponse): (r: Reply)
    ensures r.PartText? <==>
      response.SuccessResponse? && response.result.TaskResult? && response.result.task.artifacts.Some?
      && exists i | 0 <= i < |AllParts(response.result.task.artifacts.value)| ::
           AllParts(response.result.task.artifacts.value)[i].TextPart?
    ensures r.PartText? ==> Some(r.text) == FirstTextPart(AllParts(response.result.task.artifacts.value))
    ensures r.ResponseDump? ==> r.response == response
  {
    if response.SuccessResponse? && response.result.TaskResult? && response.result.task.artifacts.Some? then
      match FirstText(response.result.task.artifacts.value)
      case Some(t) => PartText(t)
      case None => ResponseDump(response)
    else ResponseDump(response)
  }

  /** A direct message reply has no artifacts and is returned as a dump, even
      when it holds text parts. */
  lemma DirectMessageIsDumped(requestId: string, message: Message)
    ensures ExtractReply(SuccessResponse(requestId, MessageResult(message))) ==
            ResponseDump(SuccessResponse(requestId, MessageResult(message)))
  {
  }

  /** Steps after the card is known: build the card, send the message, extract
      the reply. Errors from card validation and from the send escape. */
  function DispatchWithCard(card: Json, message: string, messageId: string, requestId: string,
                            isAgentCard: Json -> bool,
                            send: (Json, SendMessageRequest) -> Option<SendResponse>): (r: Result<Reply, DispatchError>)
    ensures !isAgentCard(card) ==> r == Err(InvalidCard)
    ensures var sent := send(card, SendMessageRequest(requestId, OutgoingMessage(message, messageId)));
      && (r.Ok? <==> isAgentCard(card) && sent.Some?)
      && (isAgentCard(card) && sent.None? ==> r == Err(SendFailed))
      && (r.Ok? ==> r.value == ExtractReply(sent.value))
  {
    if !isAgentCard(card) then Err(InvalidCard)
    else match send(card, SendMessageRequest(requestId, OutgoingMessage(message, messageId)))
      case None => Err(SendFailed)
      case Some(response) => Ok(ExtractReply(response))
  }

  class A2AToolClient {
    var agentInfoCache: map<string, Json>
    const defaultTimeout: real

    constructor (defaultTimeout: real := 120.0)
      ensures agentInfoCache == map[] && this.defaultTimeout == defaultTimeout
    {
      agentInfoCache := map[];
      this.defaultTimeout := defaultTimeout;
    }

    method AddRemoteAgent(agentUrl: string)
      modifies this
      ensures agentInfoCache == Added(old(agentInfoCache), NormalizeUrl(agentUrl))
    {
      var normalizedUrl := NormalizeUrl(agentUrl);
      if normalizedUrl !in agentInfoCache {
        agentInfoCache := agentInfoCache[normalizedUrl := JNull];
      }
    }

    method RemoveRemoteAgent(agentUrl: string)
      modifies this
      ensures agentInfoCache == Removed(old(agentInfoCache), NormalizeUrl(agentUrl))
    {
      var normalizedUrl := NormalizeUrl(agentUrl);
      if normalizedUrl in agentInfoCache {
        agentInfoCache := agentInfoCache - {normalizedUrl};
      }
    }

    /** `list_remote_agents`, with `fetch(url)` standing for GET
        `url/.well-known/agent.json` followed by `.json()`. */
    method ListRemoteAgents(fetch: string -> Option<Json>) returns (r: RemoteAgentList)
      modifies this
      ensures agentInfoCache == Filled(old(agentInfoCache), fetch)
      ensures r == if old(agentInfoCache) == map[] then EmptyList else WholeCache(agentInfoCache)
    {
      if agentInfoCache == map[] {
        return EmptyList;
      }
      var pending := agentInfoCache.Keys;
      while pending != {}
        invariant agentInfoCache.Keys == old(agentInfoCache).Keys
        invariant pending <= agentInfoCache.Keys
        invariant forall k | k in pending :: agentInfoCache[k] == old(agentInfoCache)[k]
        invariant forall k | k in agentInfoCache && k !in pending ::
          agentInfoCache[k] == FilledEntry(old(agentInfoCache)[k], fetch(k))
        decreases pending
      {
        var remoteConnection :| remoteConnection in pending;
        if agentInfoCache[remoteConnection] == JNull {
          match fetch(remoteConnection) {
            case Some(agentData) =>
              agentInfoCache := agentInfoCache[remoteConnection := agentData];
            case None =>
          }
        }
        pending := pending - {remoteConnection};
      }
      r := WholeCache(agentInfoCache);
    }

    /** `create_task`. `fetched` says whether the agent card was requested:
        exactly when the cache holds no document for the normalised URL. The
        method has no frame: it never writes to the cache, not even the card
        it fetched. */
    method CreateTask(agentUrl: string, message: string, messageId: string, requestId: string,
                      fetchCard: string -> Option<Json>, isAgentCard: Json -> bool,
                      send: (Json, SendMessageRequest) -> Option<SendResponse>)
      returns (r: Result<Reply, DispatchError>, fetched: bool)
      ensures var url := NormalizeUrl(agentUrl);
        fetched <==> !(url in agentInfoCache && agentInfoCache[url] != JNull)
      ensures var url := NormalizeUrl(agentUrl);
        !fetched ==> r == DispatchWithCard(agentInfoCache[url], message, messageId, requestId, isAgentCard, send)
      ensures var url := NormalizeUrl(agentUrl);
        fetched ==> r == match fetchCard(url)
          case None => Err(CardFetchFailed)
          case Some(card) => DispatchWithCard(card, message, messageId, requestId, isAgentCard, send)
    {
      var url := NormalizeUrl(agentUrl);
      var agentCardData: Json;
      if url in agentInfoCache && agentInfoCache[url] != JNull {
        agentCardData := agentInfoCache[url];
        fetched := false;
      } else {
        fetched := true;
        match fetchCard(url) {
          case None =>
            return Err(CardFetchFailed), fetched;
          case Some(card) =>
            agentCardData := card;
        }
      }
      if !isAgentCard(agentCardData) {
        return Err(InvalidCard), fetched;
      }
      var request := SendMessageRequest(requestId, OutgoingMessage(message, messageId));
      match send(agentCardData, request) {
        case None =>
          r := Err(SendFailed);
        case Some(response) =>
          r := Ok(ExtractReply(response));
      }
    }
  }
}
