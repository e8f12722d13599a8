/** The two provider adapters: `embed_texts` and `generate_sql`, both
    decorated with the retry policy of module Retry, both resolving the API
    key through `_client()` on every attempt. The remote calls are oracles
    that receive the request and the attempt number. */
module T2Sql {

  import opened Host
  import opened Text
  import opened Retry

  const SqlSystemPrompt: string :=
    "You are a senior data analyst. Generate a single dialect-correct PostgreSQL SQL query to answer the user question."
    + " Use only tables and columns that exist based on the provided schema context."
    + " Prefer safe aggregates and explicit casts. Limit to 1000 rows unless the task requires full results."

  const ApiKeyVar: string := "OPENAI_API_KEY"
  const EmbeddingModelVar: string := "EMBEDDING_MODEL"
  const DefaultEmbeddingModel: string := "text-embedding-3-small"
  const SqlModelVar: string := "SQL_MODEL"
  const DefaultSqlModel: string := "gpt-4o-mini"

  const ContextHeader: string := "Schema context:\n"
  const QuestionHeader: string := "\n\nQuestion: "
  const ReplyInstruction: string := "\nReturn only SQL code in a fenced block or raw text without commentary."
  /** What the prompt shows when no schema context is given. */
  const NoContext: string := "(none)"

  /** A Markdown code fence. */
  const Fence: string := "```"

  /** What `_client()` depends on: whether the `openai` package imported,
      the environment, and the secret store. */
  datatype ClientConfig = ClientConfig(openaiAvailable: bool, env: Environ, secrets: SecretStore)

  datatype Message = Message(role: string, content: string)

  /** An embedding vector; its numbers are opaque to the core. */
  type Vector = seq<real>

  datatype EmbedRequest = EmbedRequest(apiKey: string, model: string, input: seq<string>)
  datatype ChatRequest = ChatRequest(apiKey: string, model: string, messages: seq<Message>, temperature: int)

  /** The remote calls: what the provider answers to a request on a given
      attempt; a chat reply's message content may be None. */
  type EmbedOracle = (EmbedRequest, nat) -> Result<seq<Vector>>
  type ChatOracle = (ChatRequest, nat) -> Result<Option<string>>

  // ---------------------------------------------------------------- _client

  /** Python truthiness of an optional string. */
  predicate Truthy(v: Option<string>) {
    v.Some? && v.value != ""
  }

  /** Reference policy for credentials: the resolvers are tried in order and
      the first one that produces a non-empty value wins. */
  function FirstNonEmpty(candidates: seq<Option<string>>): (r: Option<string>)
    ensures r.Some? ==> r.value != ""
    ensures r.Some? ==> exists i :: 0 <= i < |candidates| && candidates[i] == r &&
                                    forall j :: 0 <= j < i ==> !Truthy(candidates[j])
    ensures r.None? <==> forall i :: 0 <= i < |candidates| ==> !Truthy(candidates[i])
    decreases |candidates|
  {
    if |candidates| == 0 then None
    else if Truthy(candidates[0]) then candidates[0]
    else
      var r := FirstNonEmpty(candidates[1..]);
      if r.Some? then
        var i :| 0 <= i < |candidates[1..]| && candidates[1..][i] == r &&
                 (forall j :: 0 <= j < i ==> !Truthy(candidates[1..][j]));
        assert candidates[i + 1] == r;
        assert forall j :: 0 <= j < i + 1 ==> !Truthy(candidates[j]) by {
          forall j | 0 <= j < i + 1 ensures !Truthy(candidates[j]) {
            if j > 0 {
              assert candidates[j] == candidates[1..][j - 1];
            }
          }
        }
        r
      else r
  }

  /** With two resolvers: the first if it is non-empty, else the second if it is. */
  lemma FirstNonEmptyOfTwo(a: Option<string>, b: Option<string>)
    ensures FirstNonEmpty([a, b]) == if Truthy(a) then a else if Truthy(b) then b else None
  {
    assert [a, b][1..] == [b];
    assert [b][1..] == [];
  }

  /** `st.secrets.get("OPENAI_API_KEY")` with any exception read as None. */
  function SecretKey(store: SecretStore): Option<string> {
    match SecretsGet(store, ApiKeyVar)
    case Err(_) => None
    case Ok(v) => v
  }

  /** The key `_client()` builds its client with, or the error it raises. */
  function ApiKey(cfg: ClientConfig): Result<string> {
    if !cfg.openaiAvailable then Err(OpenAiPackageMissing)
    else match FirstNonEmpty([GetEnv(cfg.env, ApiKeyVar), SecretKey(cfg.secrets)])
      case Some(k) => Ok(k)
      case None => Err(ApiKeyNotConfigured)
  }

  /** `_client()`: `api_key` is read from the environment and, if falsy,
      replaced by the secret store's value, an exception there giving None. */
  method Client(cfg: ClientConfig) returns (r: Result<string>)
    ensures r == ApiKey(cfg)
  {
    if !cfg.openaiAvailable {
      return Err(OpenAiPackageMissing);
    }
    FirstNonEmptyOfTwo(GetEnv(cfg.env, ApiKeyVar), SecretKey(cfg.secrets));
    var apiKey := GetEnv(cfg.env, ApiKeyVar);
    if !Truthy(apiKey) {
      var secret := SecretsGet(cfg.secrets, ApiKeyVar);
      if secret.Err? {
        apiKey := None;
      } else {
        apiKey := secret.value;
      }
    }
    if !Truthy(apiKey) {
      return Err(ApiKeyNotConfigured);
    }
    return Ok(apiKey.value);
  }

  /** A non-empty environment value wins; otherwise the secret's value if it
      is non-empty; otherwise "not configured". An environment value of ""
      falls through to the secret store. */
  lemma ApiKeyResolution(cfg: ClientConfig)
    requires cfg.openaiAvailable
    ensures Truthy(GetEnv(cfg.env, ApiKeyVar)) ==> ApiKey(cfg) == Ok(cfg.env[ApiKeyVar])
    ensures (!Truthy(GetEnv(cfg.env, ApiKeyVar)) && cfg.secrets.Loaded? && ApiKeyVar in cfg.secrets.entries &&
             cfg.secrets.entries[ApiKeyVar] != "") ==> ApiKey(cfg) == Ok(cfg.secrets.entries[ApiKeyVar])
    ensures ApiKey(cfg) == Err(ApiKeyNotConfigured) <==>
            !Truthy(GetEnv(cfg.env, ApiKeyVar)) && !Truthy(SecretKey(cfg.secrets))
  {
    FirstNonEmptyOfTwo(GetEnv(cfg.env, ApiKeyVar), SecretKey(cfg.secrets));
  }

  // ---------------------------------------------------------------- the prompt

  /** `schema_context or '(none)'`. */
  function ContextText(context: Option<string>): string {
    if Truthy(context) then context.value else NoContext
  }

  /** The user message of `generate_sql`. */
  function UserPrompt(question: string, context: Option<string>): string {
    ContextHeader + ContextText(context) + QuestionHeader + question + ReplyInstruction
  }

  /** One system message with the fixed policy, then the user message. */
  function PromptMessages(question: string, context: Option<string>): seq<Message> {
    [Message("system", SqlSystemPrompt), Message("user", UserPrompt(question, context))]
  }

  /** An absent and an empty context both show as "(none)". */
  lemma UserPromptWithoutContext(question: string)
    ensures UserPrompt(question, None) == UserPrompt(question, Some(""))
    ensures UserPrompt(question, None) ==
            "Schema context:\n(none)\n\nQuestion: " + question + ReplyInstruction
  {
  }

  /** The question and the shown context can be read back from the user
      message: different questions (or contexts) give different messages. */
  lemma UserPromptInjective(q1: string, c1: Option<string>, q2: string, c2: Option<string>)
    requires UserPrompt(q1, c1) == UserPrompt(q2, c2)
    ensures ContextText(c1) == ContextText(c2) <==> q1 == q2
  {
    var u := UserPrompt(q1, c1);
    var a := |ContextHeader + ContextText(c1) + QuestionHeader|;
    var b := |ContextHeader + ContextText(c2) + QuestionHeader|;
    assert u[a..|u| - |ReplyInstruction|] == q1;
    assert u[b..|u| - |ReplyInstruction|] == q2;
    if q1 == q2 {
      assert a == b;
      assert u[|ContextHeader|..a - |QuestionHeader|] == ContextText(c1);
      assert u[|ContextHeader|..b - |QuestionHeader|] == ContextText(c2);
    }
  }

  // ---------------------------------------------------------------- SQL extraction

  /** `s.strip().lower().startswith("sql")`, given the stripped text: the
      first three characters are s, q, l in either case (no other character
      lower-cases to a string that starts with one of them). */
  predicate HasSqlTag(s: string) {
    |s| >= 3 && (s[0] == 's' || s[0] == 'S') && (s[1] == 'q' || s[1] == 'Q') && (s[2] == 'l' || s[2] == 'L')
  }

  /** `lines[1:]`. */
  function DropFirst(lines: seq<string>): seq<string> {
    if |lines| == 0 then [] else lines[1..]
  }

  /** A fenced body whose text starts with "sql" loses its first line. */
  function Untag(body: string): string {
    if HasSqlTag(Strip(body)) then Join("\n", DropFirst(SplitLines(body))) else body
  }

  /** The SQL `generate_sql` returns for reply content `content`: the text
      between the first two fences (or after the only one) without its tag
      line, or else the whole reply; stripped either way. */
  function ExtractSql(content: string): string {
    if Contains(content, Fence) then
      var parts := Split(content, Fence);
      if |parts| >= 2 then Strip(Untag(parts[1])) else Strip(content)
    else Strip(content)
  }

  /** A reply without a fence is returned stripped; a None reply gives "". */
  lemma ExtractWithoutFence(content: string)
    requires !Contains(content, Fence)
    ensures ExtractSql(content) == Strip(content)
    ensures ExtractSql(None.GetOr("")) == ""
  {
  }

  /** An opening fence at `|x|` is the first fence of `x + Fence + rest` when
      `x` neither contains a fence nor ends with backticks that start one. */
  lemma FirstFenceAt(x: string, rest: string)
    requires !Contains(x + "``", Fence)
    ensures Split(x + Fence + rest, Fence) == [x] + Split(rest, Fence)
  {
    var s := x + Fence + rest;
    assert s == (x + "``") + ("`" + rest);
    assert OccursAt(s, Fence, |x|);
    forall j | 0 <= j < |x| ensures !OccursAt(s, Fence, j) {
      if OccursAt(s, Fence, j) {
        OccursInConcat(x + "``", "`" + rest, Fence, j);
      }
    }
    assert IndexOf(s, Fence) == Some(|x|);
    assert s[..|x|] == x;
    assert s[|x| + 3..] == rest;
  }

  /** Only the text between the first and the second fence survives: prose
      before and after the block, and any later blocks, are discarded. */
  lemma ExtractFirstBlock(pre: string, body: string, post: string)
    requires !Contains(pre + "``", Fence) && !Contains(body + "``", Fence)
    ensures ExtractSql(pre + Fence + body + Fence + post) == Strip(Untag(body))
  {
    var s := pre + Fence + body + Fence + post;
    assert s == pre + Fence + (body + Fence + post);
    FirstFenceAt(pre, body + Fence + post);
    FirstFenceAt(body, post);
    assert Split(s, Fence)[1] == body;
  }

  /** With a single fence the body runs to the end of the reply. */
  lemma ExtractOpenBlock(pre: string, body: string)
    requires !Contains(pre + "``", Fence) && !Contains(body, Fence)
    ensures ExtractSql(pre + Fence + body) == Strip(Untag(body))
  {
    FirstFenceAt(pre, body);
    assert Split(body, Fence) == [body];
  }

  /** A string without backticks neither contains a fence nor starts one
      with two backticks appended. */
  lemma NoBacktick(x: string)
    requires '`' !in x
    ensures !Contains(x + "``", Fence) && !Contains(x, Fence)
  {
    var s := x + "``";
    forall j | 0 <= j <= |s| ensures !OccursAt(s, Fence, j) {
      if OccursAt(s, Fence, j) {
        CoveredByOccurrence(s, Fence, j, j);
      }
    }
    forall j | 0 <= j <= |x| ensures !OccursAt(x, Fence, j) {
      if OccursAt(x, Fence, j) {
        CoveredByOccurrence(x, Fence, j, j);
      }
    }
  }

  /** A block opened by a tag line such as "sql" or "SQL" yields the lines
      after the tag, stripped. */
  lemma ExtractTaggedBlock(pre: string, tag: string, q: string, post: string)
    requires !Contains(pre + "``", Fence)
    requires HasSqlTag(tag) && '`' !in tag && forall j :: 0 <= j < |tag| ==> !IsLineBreak(tag[j])
    requires !Contains(q, Fence) && forall j :: 0 <= j < |q| ==> IsLineBreak(q[j]) ==> q[j] == '\n'
    ensures ExtractSql(pre + Fence + (tag + "\n" + q + "\n") + Fence + post) == Strip(q)
  {
    TaggedBodyFenceFree(tag, q);
    TaggedBodyUntag(tag, q);
    ExtractFirstBlock(pre, tag + "\n" + q + "\n", post);
  }

  /** A tagged body, even followed by two backticks, holds no fence. */
  lemma TaggedBodyFenceFree(tag: string, q: string)
    requires '`' !in tag && !Contains(q, Fence)
    ensures !Contains(tag + "\n" + q + "\n" + "``", Fence)
  {
    NoBacktick(tag);
    assert !Contains("``", Fence);
    JoinAvoids('\n', [tag, q, "``"], Fence);
    assert [tag, q, "``"][1..] == [q, "``"];
    assert [q, "``"][1..] == ["``"];
    assert Join("\n", [q, "``"]) == q + "\n" + "``";
    assert tag + "\n" + q + "\n" + "``" == tag + "\n" + (q + "\n" + "``");
  }

  /** The stripped text of a tagged body starts with the tag. */
  lemma TaggedBodyStripped(tag: string, rest: string)
    requires HasSqlTag(tag)
    ensures HasSqlTag(Strip(tag + rest))
  {
    var body := tag + rest;
    var t := TrimLeft(body);
    assert !IsSpace(body[0]);
    assert t == body;
    var r := TrimRight(t);
    assert !IsSpace(body[2]);
    assert |r| >= 3;
    assert r[..3] == tag[..3];
  }

  /** Untagging a tagged body leaves the lines after the tag line. */
  lemma TaggedBodyUntag(tag: string, q: string)
    requires HasSqlTag(tag) && forall j :: 0 <= j < |tag| ==> !IsLineBreak(tag[j])
    requires forall j :: 0 <= j < |q| ==> IsLineBreak(q[j]) ==> q[j] == '\n'
    ensures Untag(tag + "\n" + q + "\n") == q
  {
    TaggedBodyTagged(tag, q);
    TaggedBodyFirstLine(tag, q);
    JoinSplitLines(q);
    UntagLines(tag + "\n" + q + "\n", SplitLines(q + "\n"), q);
  }

  lemma TaggedBodyTagged(tag: string, q: string)
    requires HasSqlTag(tag)
    ensures HasSqlTag(Strip(tag + "\n" + q + "\n"))
  {
    assert tag + "\n" + q + "\n" == tag + ("\n" + q + "\n");
    TaggedBodyStripped(tag, "\n" + q + "\n");
  }

  /** Untag drops the first line of a body whose stripped text is tagged. */
  lemma UntagLines(body: string, rest: seq<string>, q: string)
    requires HasSqlTag(Strip(body)) && DropFirst(SplitLines(body)) == rest && Join("\n", rest) == q
    ensures Untag(body) == q
  {
  }

  /** The tag is the first line of a tagged body. */
  lemma TaggedBodyFirstLine(tag: string, q: string)
    requires forall j :: 0 <= j < |tag| ==> !IsLineBreak(tag[j])
    ensures DropFirst(SplitLines(tag + "\n" + q + "\n")) == SplitLines(q + "\n")
  {
    var body := tag + "\n" + q + "\n";
    assert LineEnd(body, 0) == |tag| by {
      assert body[|tag|] == '\n';
      LineEndSkips(body, 0, |tag|);
    }
    assert body[|tag| + 1..] == q + "\n";
    assert body[..|tag|] == tag;
  }

  /** `LineEnd` passes over characters that are not line breaks. */
  lemma {:induction false} LineEndSkips(s: string, k: nat, i: nat)
    requires k <= i < |s| && IsLineBreak(s[i])
    requires forall j :: k <= j < i ==> !IsLineBreak(s[j])
    ensures LineEnd(s, k) == i
    decreases i - k
  {
    if k < i {
      LineEndSkips(s, k + 1, i);
    }
  }

  /** The fenced example: "```sql\nSELECT 1\n```" gives "SELECT 1". */
  lemma ExtractTaggedExample(reply: string)
    requires reply == "```sql\nSELECT 1\n```"
    ensures ExtractSql(reply) == "SELECT 1"
  {
    var q := "SELECT 1";
    assert reply == "" + Fence + ("sql" + "\n" + q + "\n") + Fence + "";
    ExtractSelectOneBlock("", q, "");
  }

  /** The raw example: "SELECT 1" without a fence is returned as it is. */
  lemma ExtractRawExample()
    ensures ExtractSql("SELECT 1") == "SELECT 1"
  {
    NoBacktick("SELECT 1");
    StripTrimmed("SELECT 1");
  }

  /** The prose example: explanation around a fenced block is dropped. */
  lemma ExtractProseExample(reply: string)
    requires reply == "Here is the query:\n```sql\nSELECT 1\n```\nIt counts one row."
    ensures ExtractSql(reply) == "SELECT 1"
  {
    var pre, q, post := "Here is the query:\n", "SELECT 1", "\nIt counts one row.";
    ProseReplyParts(reply, pre, q, post);
    ExtractSelectOneBlock(pre, q, post);
  }

  /** The prose example cut into its prose, its tagged block and its epilogue. */
  lemma ProseReplyParts(reply: string, pre: string, q: string, post: string)
    requires reply == "Here is the query:\n```sql\nSELECT 1\n```\nIt counts one row."
    requires pre == "Here is the query:\n" && q == "SELECT 1" && post == "\nIt counts one row."
    ensures reply == pre + Fence + ("sql" + "\n" + q + "\n") + Fence + post && '`' !in pre
  {
  }

  /** A "sql"-tagged block holding "SELECT 1" gives "SELECT 1", whatever prose
      without backticks precedes it and whatever follows it. */
  lemma ExtractSelectOneBlock(pre: string, q: string, post: string)
    requires '`' !in pre && q == "SELECT 1"
    ensures ExtractSql(pre + Fence + ("sql" + "\n" + q + "\n") + Fence + post) == q
  {
    NoBacktick(pre);
    NoBacktick(q);
    NoBacktick("sql");
    StripTrimmed(q);
    ExtractTaggedBlock(pre, "sql", q, post);
  }

  /** Stripping keeps a string free of a pattern. */
  lemma StripAvoids(s: string, pat: string)
    requires !Contains(s, pat)
    ensures !Contains(Strip(s), pat)
  {
    var r := Strip(s);
    var k :| StrippedAt(s, r, k);
    InfixAvoids(s, k, k + |r|, pat);
  }

  /** Dropping the tag line keeps a fence-free body fence-free. */
  lemma UntagAvoids(body: string)
    requires !Contains(body, Fence)
    ensures !Contains(Untag(body), Fence)
  {
    if HasSqlTag(Strip(body)) {
      var lines := SplitLines(body);
      SplitLinesAvoid(body, Fence);
      JoinAvoids('\n', DropFirst(lines), Fence);
    }
  }

  /** The extracted SQL never contains a fence and has no surrounding whitespace. */
  lemma ExtractClean(content: string)
    ensures !Contains(ExtractSql(content), Fence)
    ensures IsTrimmed(ExtractSql(content))
  {
    if Contains(content, Fence) {
      var parts := Split(content, Fence);
      UntagAvoids(parts[1]);
      StripAvoids(Untag(parts[1]), Fence);
    } else {
      StripAvoids(content, Fence);
    }
  }

  /** Extracting from extracted SQL returns it unchanged. */
  lemma ExtractIdempotent(content: string)
    ensures ExtractSql(ExtractSql(content)) == ExtractSql(content)
  {
    var sql := ExtractSql(content);
    ExtractClean(content);
    StripTrimmed(sql);
  }

  // ---------------------------------------------------------------- the decorated calls

  /** One attempt of `embed_texts`: `_client()`, then the embeddings call. */
  function EmbedAttempt(cfg: ClientConfig, texts: seq<string>, embed: EmbedOracle, n: nat): Result<seq<Vector>> {
    match ApiKey(cfg)
    case Err(e) => Err(e)
    case Ok(key) => embed(EmbedRequest(key, GetEnvOr(cfg.env, EmbeddingModelVar, DefaultEmbeddingModel), texts), n)
  }

  function EmbedAttempts(cfg: ClientConfig, texts: seq<string>, embed: EmbedOracle): nat -> Result<seq<Vector>> {
    (n: nat) => EmbedAttempt(cfg, texts, embed, n)
  }

  /** `embed_texts(texts)`. */
  method EmbedTexts(cfg: ClientConfig, texts: seq<string>, embed: EmbedOracle) returns (run: RetryRun<seq<Vector>>)
    ensures run == Retried(EmbedAttempts(cfg, texts, embed))
  {
    run := CallWithRetry(EmbedAttempts(cfg, texts, embed));
  }

  /** What `embed_texts` returns is the provider's answer, in its order, to
      the first attempt that succeeded, for exactly the given texts. */
  lemma EmbedTextsResult(cfg: ClientConfig, texts: seq<string>, embed: EmbedOracle)
    ensures var run := Retried(EmbedAttempts(cfg, texts, embed));
      run.result.Ok? ==> (ApiKey(cfg).Ok? && 1 <= run.attempts <= MaxAttempts &&
        run.result == embed(EmbedRequest(ApiKey(cfg).value, GetEnvOr(cfg.env, EmbeddingModelVar, DefaultEmbeddingModel), texts), run.attempts))
  {
    var f := EmbedAttempts(cfg, texts, embed);
    RetriedFirstSuccess(f);
    RetriedBounded(f);
  }

  /** One attempt of `generate_sql`: `_client()`, the chat call at
      temperature 0, then extraction from the reply (`content or ""`). */
  function GenerateAttempt(cfg: ClientConfig, question: string, context: Option<string>, chat: ChatOracle, n: nat): Result<string> {
    match ApiKey(cfg)
    case Err(e) => Err(e)
    case Ok(key) =>
      match chat(ChatRequest(key, GetEnvOr(cfg.env, SqlModelVar, DefaultSqlModel), PromptMessages(question, context), 0), n)
      case Err(e) => Err(e)
      case Ok(reply) => Ok(ExtractSql(reply.GetOr("")))
  }

  function GenerateAttempts(cfg: ClientConfig, question: string, context: Option<string>, chat: ChatOracle): nat -> Result<string> {
    (n: nat) => GenerateAttempt(cfg, question, context, chat, n)
  }

  /** `generate_sql(question, schema_context)`. */
  method GenerateSql(cfg: ClientConfig, question: string, context: Option<string>, chat: ChatOracle) returns (run: RetryRun<string>)
    ensures run == Retried(GenerateAttempts(cfg, question, context, chat))
  {
    run := CallWithRetry(GenerateAttempts(cfg, question, context, chat));
  }

  /** The SQL `generate_sql` returns is extracted from the reply to the first
      successful attempt; it is fence-free and stripped. */
  lemma GenerateSqlResult(cfg: ClientConfig, question: string, context: Option<string>, chat: ChatOracle)
    ensures var run := Retried(GenerateAttempts(cfg, question, context, chat));
      run.result.Ok? ==>
        ApiKey(cfg).Ok? && 1 <= run.attempts <= MaxAttempts &&
        !Contains(run.result.value, Fence) && IsTrimmed(run.result.value) &&
        var reply := chat(ChatRequest(ApiKey(cfg).value, GetEnvOr(cfg.env, SqlModelVar, DefaultSqlModel),
                                      PromptMessages(question, context), 0), run.attempts);
        reply.Ok? && run.result.value == ExtractSql(reply.value.GetOr(""))
  {
    var f := GenerateAttempts(cfg, question, context, chat);
    RetriedFirstSuccess(f);
    RetriedBounded(f);
    var run := Retried(f);
    if run.result.Ok? {
      var reply := chat(ChatRequest(ApiKey(cfg).value, GetEnvOr(cfg.env, SqlModelVar, DefaultSqlModel),
                                    PromptMessages(question, context), 0), run.attempts);
      ExtractClean(reply.value.GetOr(""));
    }
  }

  /** A missing credential (or a missing `openai` package) is raised inside
      the decorated functions, so it is retried like any other failure: three
      attempts, waits of 1 and 2 seconds, then `RetryError`. */
  lemma CredentialFailureExhaustsRetries(cfg: ClientConfig, texts: seq<string>, embed: EmbedOracle,
                                         question: string, context: Option<string>, chat: ChatOracle)
    requires ApiKey(cfg).Err?
    ensures Retried(EmbedAttempts(cfg, texts, embed)) == RetryRun(Err(RetryError(ApiKey(cfg).error)), MaxAttempts, [1, 2])
    ensures Retried(GenerateAttempts(cfg, question, context, chat)) == RetryRun(Err(RetryError(ApiKey(cfg).error)), MaxAttempts, [1, 2])
  {
    RetriedExhausted(EmbedAttempts(cfg, texts, embed));
    RetriedExhausted(GenerateAttempts(cfg, question, context, chat));
  }
}
