/** The chat entry point: tool branch, cache, provider, and the JSON body that carries the reply. */
module AiClients {
  import opened Wrappers
  import opened Decimals
  import opened Json
  import opened LfuSpec
  import opened LfuTheorems
  import opened ShardSpec
  import opened ShardedCaches

  const FRONT: string := "{\"ok\":true,\"message\":\""

  function BuildChatBody(message: string, reply: string, provider: string, model: string, cacheHit: bool): string {
    BodyText(message, Escape(reply), provider, model, Flags(cacheHit, false) + "}")
  }

  // The body around a reply already printed, and what stands at its end.
  function BodyText(message: string, printed: string, provider: string, model: string, end: string): string {
    FRONT + Escape(message) + "\"," +
    "\"reply\":\"" + printed + "\"" +
    BodyTail(provider, model, end)
  }

  function BodyTail(provider: string, model: string, end: string): string {
    ",\"provider\":\"" + Escape(provider) + "\"," +
    "\"model\":\"" + Escape(model) + "\"" +
    end
  }

  function Flags(cacheHit: bool, toolUsed: bool): string {
    ",\"cache_hit\":" + Bool(cacheHit) +
    ",\"tool_used\":" + Bool(toolUsed)
  }

  function Bool(b: bool): string {
    if b then "true" else "false"
  }

  lemma FrontHasNoReply(j: nat)
    ensures !OccursAt(FRONT, Quoted("reply"), j)
  {
    assert |FRONT| == 22 && |Quoted("reply")| == 7;
    if j + 7 <= 22 {
      assert FRONT[j..j + 7][6] == FRONT[j + 6] && FRONT[j..j + 7][5] == FRONT[j + 5];
    }
  }

  lemma BodyIsTwoFields(message: string, reply: string, provider: string, model: string, hit: bool)
    ensures BuildChatBody(message, reply, provider, model, hit)
            == TwoFields(FRONT, message, "reply", reply, BodyTail(provider, model, Flags(hit, false) + "}"))
  {
    hide Escape, BodyTail, Flags;
    var x := FRONT + Escape(message) + "\",";
    assert x + "\"reply\":\"" == x + Quoted("reply") + ":\"";
  }

  /** Whatever the message is, the reply is read back from the body exactly. */
  lemma ReplyRoundTrip(message: string, reply: string, provider: string, model: string, hit: bool)
    ensures ClientField(BuildChatBody(message, reply, provider, model, hit), "reply") == Some(reply)
  {
    hide BuildChatBody, TwoFields, OccursAt;
    BodyIsTwoFields(message, reply, provider, model, hit);
    forall j: nat ensures !OccursAt(FRONT, Quoted("reply"), j) { FrontHasNoReply(j); }
    FieldAfterValue(FRONT, message, "reply", reply, BodyTail(provider, model, Flags(hit, false) + "}"));
  }

  // ----- the client -----

  datatype ToolOutcome = NoRegistry | ToolError(error: string) | ToolOk(json: string)

  // What the provider call comes back with: an error of its own making, or an answer over HTTP.
  datatype Upstream = Failed(status: string, errorBody: string) | Answered(code: nat, response: string)

  datatype Response = Response(ok: bool, status: string, body: string, cacheHit: bool, toolUsed: bool, toolName: string)

  function JsonError(message: string): string {
    "{\"ok\":false,\"error\":\"" + Escape(message) + "\"}"
  }

  // The assistant's content, if a good answer carries one.
  function Said(upstream: Upstream): Option<string> {
    if upstream.Answered? && 200 <= upstream.code < 300 then ClientField(upstream.response, "content") else None
  }

  // What the user is told otherwise.
  function Refusal(upstream: Upstream, provider: string): (string, string) {
    match upstream
    case Failed(status, body) => (status, body)
    case Answered(code, response) =>
      ("502 Bad Gateway",
       if 200 <= code < 300 then JsonError(NO_CONTENT) else HttpError(code, response, provider))
  }

  const NO_CONTENT: string := "provider response did not contain assistant content"

  function HttpError(code: nat, response: string, provider: string): string {
    "{\"ok\":false," + "\"error\":\"" + ("provider returned HTTP " + Decimal(code)) + "\",\"provider\":\"" + Escape(provider) +
    "\",\"body\":\"" + Escape(response) + "\"}"
  }

  function StubReply(message: string): string {
    "Stub AI reply for: " + message
  }

  predicate IsNetworkProvider(provider: string) {
    provider in {"openai", "openai_compatible", "deepseek", "openrouter", "groq", "ollama", "chatanywhere"}
  }

  function CacheKey(provider: string, model: string, message: string): string {
    provider + "\n" + model + "\n" + message
  }

  /** Under one configuration two messages never share a cache entry. */
  lemma CacheKeyInjective(provider: string, model: string, m1: string, m2: string)
    ensures CacheKey(provider, model, m1) == CacheKey(provider, model, m2) ==> m1 == m2
  {
    var front := provider + "\n" + model + "\n";
    assert CacheKey(provider, model, m1) == front + m1;
    assert CacheKey(provider, model, m2) == front + m2;
    assert (front + m1)[|front|..] == m1;
    assert (front + m2)[|front|..] == m2;
  }

  // Every put stored the stub reply of the message of its key.
  ghost predicate StubHistory(history: seq<Op>, provider: string, model: string) {
    forall i :: 0 <= i < |history| && history[i].Put? ==>
      exists m :: history[i].key == CacheKey(provider, model, m) && history[i].value == StubReply(m)
  }

  lemma {:induction false} StubLastPut(history: seq<Op>, provider: string, model: string, m: string)
    requires StubHistory(history, provider, model)
    ensures var last := LastPut(history, CacheKey(provider, model, m)); last.Some? ==> last.value == StubReply(m)
  {
    if history != [] {
      var n := |history| - 1;
      var key := CacheKey(provider, model, m);
      assert forall i :: 0 <= i < n ==> history[..n][i] == history[i];
      StubLastPut(history[..n], provider, model, m);
      if history[n].Put? && history[n].key == key {
        var w :| history[n].key == CacheKey(provider, model, w) && history[n].value == StubReply(w);
        CacheKeyInjective(provider, model, w, m);
      }
    }
  }

  class AiClient {
    const provider: string
    const model: string
    const cache: KHashLfuCache
    ghost var history: seq<Op>    // the calls made to the cache so far

    ghost predicate Valid()
      reads this, cache, cache.Repr, cache.slices
    {
      && cache.Valid() && this !in cache.Repr && |cache.slices| == 4
      && ValuesOk(cache.hash, cache.Model(), history)
      && ShardInv(cache.Model(), SliceSize(cache.capacity, 4))
      && (!IsNetworkProvider(provider) ==> StubHistory(history, provider, model))
    }

    // The reply last made or fetched for a message, as far as the cache was told.
    ghost function Obtained(m: string): Option<string>
      reads this
    {
      LastPut(history, CacheKey(provider, model, m))
    }

    // What the cache itself answers for a message.
    ghost function Cached(m: string): Option<string>
      reads this, cache, cache.slices
    {
      if cache.slices == [] then None else ShardLookup(cache.hash, cache.Model(), CacheKey(provider, model, m))
    }

    constructor (provider: string, model: string, capacity: nat, hash: Key -> nat)
      ensures Valid() && fresh(cache) && fresh(cache.Repr) && this.provider == provider && this.model == model && history == []
      ensures cache.capacity == capacity && cache.hash == hash && cache.Model() == InitShards(capacity, 4, 10)
    {
      hide ShardInv, ValuesOk, InitShards, KHashLfuCache.Valid, KHashLfuCache.Model;
      this.provider, this.model := provider, model;
      EmptyCache(hash, capacity);
      var c := new KHashLfuCache(capacity, 4, 10, hash);
      cache := c;
      history := [];
    }

    // Looks the message up.
    method CacheGet(m: string) returns (r: Option<string>)
      requires Valid()
      modifies this`history, cache`Repr, cache.Repr
      ensures Valid() && fresh(cache.Repr - old(cache.Repr))
      ensures r == old(Cached(m)) && (r.Some? ==> r == old(Obtained(m)))
      ensures forall w :: Obtained(w) == old(Obtained(w)) && Cached(w) == old(Cached(w))
    {
      hide StubHistory, CacheKey, ShardStep, ShardInv, ValuesOk, LastPut, KHashLfuCache.Valid, KHashLfuCache.Model;
      var key := CacheKey(provider, model, m);
      ghost var before, s := history, cache.Model();
      ghost var walk;
      r, walk := cache.Get(key);
      HitIsRecorded(cache.hash, s, before, key);
      history := history + [Op.Get(key, walk)];
      assert history[..|before|] == before;
      ShardStepValues(cache.hash, s, history);
      ShardStepKeeps(cache.hash, s, Op.Get(key, walk), SliceSize(cache.capacity, 4));
      AfterGet(before, key, walk);
      StubMore(before, Op.Get(key, walk), provider, model);
      GetKeepsAll(cache.hash, s, Op.Get(key, walk));
    }

    method CachePut(m: string, reply: string)
      requires Valid() && (!IsNetworkProvider(provider) ==> reply == StubReply(m))
      modifies this`history, cache`Repr, cache.Repr
      ensures Valid() && fresh(cache.Repr - old(cache.Repr))
      ensures Obtained(m) == Some(reply) && (0 < cache.capacity ==> Cached(m) == Some(reply))
      ensures forall w :: w != m ==> Obtained(w) == old(Obtained(w)) && (Cached(w).Some? ==> Cached(w) == old(Cached(w)))
    {
      hide StubHistory, CacheKey, ShardStep, ShardInv, ValuesOk, LastPut, KHashLfuCache.Valid, KHashLfuCache.Model;
      var key := CacheKey(provider, model, m);
      ghost var before, s := history, cache.Model();
      ShardCanPut(cache.hash, s, key, SliceSize(cache.capacity, 4));
      ghost var walk := cache.Put(key, reply);
      history := history + [Op.Put(key, reply, walk)];
      assert history[..|before|] == before;
      ShardStepValues(cache.hash, s, history);
      ShardStepKeeps(cache.hash, s, Op.Put(key, reply, walk), SliceSize(cache.capacity, 4));
      AfterPut(before, provider, model, m, reply, walk);
      if !IsNetworkProvider(provider) { StubMore(before, Op.Put(key, reply, walk), provider, model, m); }
      PutShows(cache.hash, s, provider, model, m, reply, walk, cache.capacity);
    }

    // toolOutcome and upstream are what the registry and the provider answer, when they are asked.
    method Chat(message: string, tool: string, toolOutcome: ToolOutcome, upstream: Upstream) returns (r: Response)
      requires Valid()
      modifies this`history, cache`Repr, cache.Repr
      ensures Valid() && fresh(cache.Repr - old(cache.Repr))
      ensures tool != "" ==> r == ToolResponse(message, tool, toolOutcome, provider, model) && history == old(history)
      ensures tool != "" ==> Cached(message) == old(Cached(message))
      ensures r.cacheHit <==> tool == "" && old(Cached(message)).Some?
      // A hit answers with what the cache holds, which is the reply last obtained for this very message, and keeps it.
      ensures r.cacheHit ==>
                && tool == "" && r.ok && old(Cached(message)) == old(Obtained(message)) == Cached(message)
                && r.body == BuildChatBody(message, old(Cached(message)).value, provider, model, true)
      // A miss answers with what the provider said, or the stub, and the next lookup of the message finds it.
      ensures tool == "" && !r.cacheHit && IsNetworkProvider(provider) ==> Answers(message, upstream, r)
      ensures tool == "" && !r.cacheHit && IsNetworkProvider(provider) && Said(upstream) == None ==>
                Obtained(message) == old(Obtained(message)) && Cached(message) == None
      // In stub mode the cache is invisible but for the flag.
      ensures tool == "" && !IsNetworkProvider(provider) ==>
                && r.ok && r.status == "200 OK" && r.body == BuildChatBody(message, "Stub AI reply for: " + message, provider, model, r.cacheHit)
                && (0 < cache.capacity ==> Cached(message) == Some(StubReply(message)))
      // No other message is affected, except that it may have to give way.
      ensures forall w :: w != message ==> Obtained(w) == old(Obtained(w)) && (Cached(w).Some? ==> Cached(w) == old(Cached(w)))
    {
      hide StubHistory, CacheKey, ValuesOk, ShardInv, ShardLookup, KHashLfuCache.Valid, KHashLfuCache.Model, BuildChatBody, LastPut,
           Said, Refusal, ToolResponse;
      if tool != "" {
        return ToolResponse(message, tool, toolOutcome, provider, model);
      }
      if !IsNetworkProvider(provider) { StubLastPut(history, provider, model, message); }
      var cached := CacheGet(message);
      if cached.Some? {
        return Response(true, "200 OK", BuildChatBody(message, cached.value, provider, model, true), true, false, "");
      }
      if IsNetworkProvider(provider) {
        r := AskProvider(message, upstream);
      } else {
        var reply := StubReply(message);
        CachePut(message, reply);
        r := Response(true, "200 OK", BuildChatBody(message, reply, provider, model, false), false, false, "");
      }
    }

    // The response says what the provider said, and the cache holds it unless it can hold nothing.
    ghost predicate Answers(message: string, upstream: Upstream, r: Response)
      reads this, cache, cache.slices
    {
      match Said(upstream)
      case None => !r.ok && (r.status, r.body) == Refusal(upstream, provider)
      case Some(reply) =>
        && r.ok && r.body == BuildChatBody(message, reply, provider, model, false)
        && Obtained(message) == Some(reply) && (0 < cache.capacity ==> Cached(message) == Some(reply))
    }

    // The provider's answer, remembered through its own printed body.
    method AskProvider(message: string, upstream: Upstream) returns (r: Response)
      requires Valid() && IsNetworkProvider(provider)
      modifies this`history, cache`Repr, cache.Repr
      ensures Valid() && fresh(cache.Repr - old(cache.Repr)) && !r.cacheHit
      ensures Answers(message, upstream, r)
      ensures Said(upstream) == None ==> Obtained(message) == old(Obtained(message)) && Cached(message) == old(Cached(message))
      ensures forall w :: w != message ==> Obtained(w) == old(Obtained(w)) && (Cached(w).Some? ==> Cached(w) == old(Cached(w)))
    {
      hide StubHistory, CacheKey, ValuesOk, ShardInv, KHashLfuCache.Valid, KHashLfuCache.Model, BuildChatBody, LastPut, Refusal,
           IsNetworkProvider, ClientField, JsonError, HttpError, Said;
      r := CallOpenAiCompatible(message, upstream);
      if r.ok {
        ReplyRoundTrip(message, Said(upstream).value, provider, model, false);
        var reply := ExtractClient(r.body, "reply");
        if reply.Some? {
          CachePut(message, reply.value);
        }
      }
    }

    method CallOpenAiCompatible(message: string, upstream: Upstream) returns (r: Response)
      ensures !r.cacheHit && !r.toolUsed && (r.ok <==> Said(upstream).Some?)
      ensures r.ok ==> r.status == "200 OK" && r.body == BuildChatBody(message, Said(upstream).value, provider, model, false)
      ensures !r.ok ==> (r.status, r.body) == Refusal(upstream, provider)
      // Written out: it is well only with an answer of a code of success that has the content.
      ensures Said(upstream) == if upstream.Answered? && upstream.code / 100 == 2 then ClientField(upstream.response, "content") else None
      ensures upstream.Failed? ==> r.status == upstream.status && r.body == upstream.errorBody
      ensures upstream.Answered? && !r.ok ==>
                && r.status == "502 Bad Gateway"
                && r.body == if upstream.code / 100 == 2 then JsonError("provider response did not contain assistant content")
                             else HttpError(upstream.code, upstream.response, provider)
    {
      hide BuildChatBody, ClientField, JsonError, HttpError;
      match upstream
      case Failed(status, body) =>
        r := Response(false, status, body, false, false, "");
      case Answered(code, response) =>
        if code < 200 || code >= 300 {
          return Response(false, "502 Bad Gateway", HttpError(code, response, provider), false, false, "");
        }
        var reply := ExtractClient(response, "content");
        if reply == None {
          return Response(false, "502 Bad Gateway", JsonError(NO_CONTENT), false, false, "");
        }
        r := Response(true, "200 OK", BuildChatBody(message, reply.value, provider, model, false), false, false, "");
    }
  }

  lemma EmptyCache(hash: Key -> nat, capacity: nat)
    ensures var s := InitShards(capacity, 4, 10);
            |s| == 4 && ValuesOk(hash, s, []) && ShardInv(s, SliceSize(capacity, 4))
  {
    hide ValuesOk, ShardInv;
    ShardHitIsLastPut(hash, capacity, 4, 10, [], "");
    ShardRunKeeps(hash, capacity, 4, 10, []);
  }

  function ToolResponse(message: string, tool: string, outcome: ToolOutcome, provider: string, model: string): (r: Response)
    ensures !r.cacheHit && (r.ok <==> outcome.ToolOk?) && (r.toolUsed <==> !outcome.NoRegistry?)
  {
    match outcome
    case NoRegistry =>
      Response(false, "500 Internal Server Error", JsonError("tool registry is not configured"), false, false, "")
    case ToolError(error) => Response(false, "400 Bad Request", JsonError(error), false, true, tool)
    case ToolOk(json) =>
      Response(true, "200 OK",
        BodyText(message, "Tool " + Escape(tool) + " executed for: " + Escape(message), provider, model,
                 Flags(false, true) + ",\"tool\":\"" + Escape(tool) + "\",\"tool_result\":" + json + "}"),
        false, true, tool)
  }

  lemma AfterGet(history: seq<Op>, key: Key, walk: seq<Key>)
    ensures forall k :: LastPut(history + [Op.Get(key, walk)], k) == LastPut(history, k)
  {
    assert (history + [Op.Get(key, walk)])[..|history|] == history;
  }

  lemma AfterPut(history: seq<Op>, provider: string, model: string, m: string, reply: string, walk: seq<Key>)
    ensures var after := history + [Op.Put(CacheKey(provider, model, m), reply, walk)];
            && LastPut(after, CacheKey(provider, model, m)) == Some(reply)
            && forall w :: w != m ==> LastPut(after, CacheKey(provider, model, w)) == LastPut(history, CacheKey(provider, model, w))
  {
    hide CacheKey;
    var after := history + [Op.Put(CacheKey(provider, model, m), reply, walk)];
    assert after[..|history|] == history;
    forall w | w != m ensures CacheKey(provider, model, w) != CacheKey(provider, model, m) {
      CacheKeyInjective(provider, model, w, m);
    }
  }

  lemma GetKeepsAll(hash: Key -> nat, s: seq<Cache>, op: Op)
    requires s != [] && ShardLegal(hash, s, op) && op.Get?
    ensures forall k :: ShardLookup(hash, ShardStep(hash, s, op), k) == ShardLookup(hash, s, k)
  {
    hide ShardLegal, ShardStep, ShardLookup;
    forall k ensures ShardLookup(hash, ShardStep(hash, s, op), k) == ShardLookup(hash, s, k) {
      ShardOthersKeep(hash, s, op, k);
    }
  }

  lemma PutShows(hash: Key -> nat, s: seq<Cache>, provider: string, model: string, m: string, reply: string, walk: seq<Key>,
                 capacity: nat)
    requires |s| == 4 && ShardInv(s, SliceSize(capacity, 4))
    requires ShardLegal(hash, s, Op.Put(CacheKey(provider, model, m), reply, walk))
    ensures var t := ShardStep(hash, s, Op.Put(CacheKey(provider, model, m), reply, walk));
            && (0 < capacity ==> ShardLookup(hash, t, CacheKey(provider, model, m)) == Some(reply))
            && forall w :: w != m && ShardLookup(hash, t, CacheKey(provider, model, w)).Some? ==>
                 ShardLookup(hash, t, CacheKey(provider, model, w)) == ShardLookup(hash, s, CacheKey(provider, model, w))
  {
    hide ShardLegal, ShardStep, ShardLookup, CacheKey, Inv;
    var op := Op.Put(CacheKey(provider, model, m), reply, walk);
    if 0 < capacity { ShardPutIsCached(hash, s, op.key, reply, walk); }
    forall w | w != m ensures CacheKey(provider, model, w) != op.key {
      CacheKeyInjective(provider, model, w, m);
    }
    forall w ensures
      && op.key != CacheKey(provider, model, w) && ShardLookup(hash, ShardStep(hash, s, op), CacheKey(provider, model, w)).Some? ==>
           ShardLookup(hash, ShardStep(hash, s, op), CacheKey(provider, model, w)) == ShardLookup(hash, s, CacheKey(provider, model, w))
    {
      ShardOthersKeep(hash, s, op, CacheKey(provider, model, w));
    }
  }

  lemma StubMore(history: seq<Op>, op: Op, provider: string, model: string, m: string := "")
    requires op.Put? ==> op.key == CacheKey(provider, model, m) && op.value == StubReply(m)
    ensures StubHistory(history, provider, model) ==> StubHistory(history + [op], provider, model)
  {
  }
}
