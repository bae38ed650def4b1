/**
  The record-handling core of the schedule processor: selecting pending
  schedules, enriching a schedule with a generated caption, and building
  the request that schedules a post with the publishing API. File access,
  environment lookups, date parsing and HTTP calls are inputs.
 */
module ProcessSchedules {
  import opened Wrappers
  import opened Json

  // ---------------------------------------------------------------------
  // Pending selection
  // ---------------------------------------------------------------------

  /** One enumerated schedule file: the path it was read from and its decoded record. */
  type Entry = (string, Record)

  /** `data.get("status") == "pending"`. */
  predicate IsPending(r: Record)
  {
    Get(r, "status") == Some(Str("pending"))
  }

  /** The pending entries of `files`, in enumeration order. */
  function PendingOf(files: seq<Entry>): (r: seq<Entry>)
    ensures |r| <= |files|
  {
    if files == [] then []
    else
      var last := files[|files| - 1];
      PendingOf(files[..|files| - 1]) + (if IsPending(last.1) then [last] else [])
  }

  /** The filter loop over the enumerated files. */
  method GetPendingSchedules(files: seq<Entry>) returns (pending: seq<Entry>)
    ensures pending == PendingOf(files)
  {
    pending := [];
    for i := 0 to |files|
      invariant pending == PendingOf(files[..i])
    {
      var (filePath, data) := files[i];
      assert files[..i + 1][..i] == files[..i];
      if IsPending(data) {
        pending := pending + [(filePath, data)];
      }
    }
    assert files[..|files|] == files;
  }

  /**
    `idx` lists, in increasing order, the positions of `files` that the entries
    of `sel` come from, and a position is listed iff its record is pending.
   */
  ghost predicate SelectedAt(files: seq<Entry>, sel: seq<Entry>, idx: seq<nat>)
  {
    && |idx| == |sel|
    && (forall k :: 0 <= k < |idx| ==> idx[k] < |files| && sel[k] == files[idx[k]])
    && (forall k, l :: 0 <= k < l < |idx| ==> idx[k] < idx[l])
    && (forall i :: 0 <= i < |files| ==> (i in idx <==> IsPending(files[i].1)))
  }

  lemma SelectedAtKeep(files: seq<Entry>, sel: seq<Entry>, idx: seq<nat>, x: Entry)
    requires SelectedAt(files, sel, idx) && IsPending(x.1)
    ensures SelectedAt(files + [x], sel + [x], idx + [|files|])
  {
  }

  lemma SelectedAtDrop(files: seq<Entry>, sel: seq<Entry>, idx: seq<nat>, x: Entry)
    requires SelectedAt(files, sel, idx) && !IsPending(x.1)
    ensures SelectedAt(files + [x], sel, idx)
  {
  }

  /**
    Pending selection keeps exactly the pending entries, as an order-preserving
    subsequence of the enumerated files, each path still paired with its record.
   */
  lemma {:induction false} PendingOfIndices(files: seq<Entry>) returns (idx: seq<nat>)
    ensures |idx| == |PendingOf(files)|
    ensures forall k :: 0 <= k < |idx| ==> idx[k] < |files| && PendingOf(files)[k] == files[idx[k]]
    ensures forall k, l :: 0 <= k < l < |idx| ==> idx[k] < idx[l]
    ensures forall i :: 0 <= i < |files| ==> (i in idx <==> IsPending(files[i].1))
  {
    idx := PendingOfSelectedAt(files);
  }

  lemma {:induction false} PendingOfSelectedAt(files: seq<Entry>) returns (idx: seq<nat>)
    ensures SelectedAt(files, PendingOf(files), idx)
  {
    if files == [] {
      idx := [];
    } else {
      var n := |files| - 1;
      var prefix, x := files[..n], files[n];
      assert files == prefix + [x];
      var idx0 := PendingOfSelectedAt(prefix);
      if IsPending(x.1) {
        SelectedAtKeep(prefix, PendingOf(prefix), idx0, x);
        idx := idx0 + [n];
      } else {
        SelectedAtDrop(prefix, PendingOf(prefix), idx0, x);
        idx := idx0;
      }
    }
  }

  /**
    Every selected entry is an enumerated entry whose status is "pending", and
    every enumerated entry whose status is "pending" is selected.
   */
  lemma PendingOfMembers(files: seq<Entry>)
    ensures forall p :: p in PendingOf(files) ==> p in files && IsPending(p.1)
    ensures forall i :: 0 <= i < |files| && IsPending(files[i].1) ==> files[i] in PendingOf(files)
  {
    var sel := PendingOf(files);
    var idx := PendingOfIndices(files);
    forall p | p in sel
      ensures p in files && IsPending(p.1)
    {
      var k :| 0 <= k < |sel| && sel[k] == p;
      assert idx[k] in idx;
    }
    forall i | 0 <= i < |files| && IsPending(files[i].1)
      ensures files[i] in sel
    {
      var k :| 0 <= k < |idx| && idx[k] == i;
      assert sel[k] == files[i];
    }
  }

  /** Selecting over two batches of files is selecting over each batch in turn. */
  lemma {:induction false} PendingOfConcat(a: seq<Entry>, b: seq<Entry>)
    ensures PendingOf(a + b) == PendingOf(a) + PendingOf(b)
  {
    if b == [] {
      assert a + b == a;
    } else {
      var n := |b| - 1;
      var ab := a + b;
      var last := b[n];
      var tail := if IsPending(last.1) then [last] else [];
      assert ab[..|ab| - 1] == a + b[..n];
      assert ab[|ab| - 1] == last;
      calc {
        PendingOf(ab);
        PendingOf(a + b[..n]) + tail;
        { PendingOfConcat(a, b[..n]); }
        (PendingOf(a) + PendingOf(b[..n])) + tail;
        PendingOf(a) + (PendingOf(b[..n]) + tail);
        PendingOf(a) + PendingOf(b);
      }
    }
  }

  /** Selection is idempotent: the result holds only pending entries. */
  lemma {:induction false} PendingOfIdempotent(files: seq<Entry>)
    ensures PendingOf(PendingOf(files)) == PendingOf(files)
  {
    if files != [] {
      var n := |files| - 1;
      var last := files[n];
      var tail := if IsPending(last.1) then [last] else [];
      PendingOfIdempotent(files[..n]);
      PendingOfConcat(PendingOf(files[..n]), tail);
    }
  }

  // ---------------------------------------------------------------------
  // Caption enrichment
  // ---------------------------------------------------------------------

  /** A schedule record held by reference, as the processor's dictionaries are. */
  class Schedule {
    var fields: Record

    constructor (fields: Record)
      ensures this.fields == fields
    {
      this.fields := fields;
    }
  }

  /**
    The outcome of the caption request: a reply with its HTTP status code and,
    when the body has one, the value at `choices[0].message.content`; or
    `Unreachable` when `requests.post` raises before any reply arrives.
   */
  datatype CaptionReply =
    | Reply(statusCode: int, firstContent: Option<Value>)
    | Unreachable

  /** The exceptions that leave `generate_caption_if_needed` before it returns. */
  datatype CaptionError =
    | TransportFailure   // `requests.post` raised
    | MalformedReply     // a 200 reply without `choices[0].message.content`

  /** The `OPENAI_API_KEY` environment value, absent or empty meaning not configured. */
  predicate ApiKeyConfigured(apiKey: Option<string>)
  {
    apiKey.Some? && apiKey.value != ""
  }

  /** The enrichment guard: caption missing or falsy, brief present and truthy, key configured. */
  predicate NeedsCaption(r: Record, apiKey: Option<string>)
  {
    !GetTruthy(r, "caption") && GetTruthy(r, "brief") && ApiKeyConfigured(apiKey)
  }

  /** A reply with status 200. */
  predicate IsOk(reply: CaptionReply)
  {
    reply.Reply? && reply.statusCode == 200
  }

  /** The record after enrichment, or the exception raised while enriching it. */
  function Enriched(r: Record, apiKey: Option<string>, reply: CaptionReply): (res: Result<Record, CaptionError>)
    ensures res == Failure(TransportFailure) <==> NeedsCaption(r, apiKey) && reply.Unreachable?
    ensures res == Failure(MalformedReply) <==> NeedsCaption(r, apiKey) && IsOk(reply) && reply.firstContent.None?
    ensures res.Success? ==> forall k :: k != "caption" ==> (k in res.value <==> k in r)
    ensures res.Success? ==> forall k :: k != "caption" && k in r ==> res.value[k] == r[k]
    ensures res.Success? && res.value != r ==> NeedsCaption(r, apiKey) && IsOk(reply)
    ensures NeedsCaption(r, apiKey) && IsOk(reply) && reply.firstContent.Some? ==>
              res.Success? && "caption" in res.value && res.value["caption"] == reply.firstContent.value
    ensures reply.Reply? && reply.statusCode != 200 ==> res == Success(r)
    ensures !NeedsCaption(r, apiKey) ==> res == Success(r)
  {
    if !NeedsCaption(r, apiKey) then Success(r)
    else
      match reply
      case Unreachable => Failure(TransportFailure)
      case Reply(statusCode, firstContent) =>
        if statusCode != 200 then Success(r)
        else
          match firstContent
          case Some(c) => Success(r["caption" := c])
          case None => Failure(MalformedReply)
  }

  /**
    `generate_caption_if_needed`: issues the caption request only when the guard
    holds (`requested`), updates `caption` in place from a 200 reply, and returns
    the very object it was given.
   */
  method GenerateCaptionIfNeeded(schedule: Schedule, apiKey: Option<string>, reply: CaptionReply)
    returns (result: Result<Schedule, CaptionError>, requested: bool)
    modifies schedule
    ensures requested == NeedsCaption(old(schedule.fields), apiKey)
    ensures result.Success? ==> result.value == schedule
    ensures match Enriched(old(schedule.fields), apiKey, reply)
            case Success(r) => result.Success? && schedule.fields == r
            case Failure(e) => result == Failure(e) && schedule.fields == old(schedule.fields)
  {
    requested := false;
    result := Success(schedule);
    if !GetTruthy(schedule.fields, "caption") && GetTruthy(schedule.fields, "brief") && ApiKeyConfigured(apiKey) {
      requested := true;
      match reply {
        case Unreachable =>
          result := Failure(TransportFailure);
        case Reply(statusCode, firstContent) =>
          if statusCode == 200 {
            match firstContent {
              case Some(c) =>
                schedule.fields := schedule.fields["caption" := c];
              case None =>
                result := Failure(MalformedReply);
            }
          }
      }
    }
  }

  /** A rejected caption request leaves the caption missing or falsy. */
  lemma EnrichedRejectedKeepsCaptionFalsy(r: Record, apiKey: Option<string>, reply: CaptionReply)
    requires NeedsCaption(r, apiKey) && reply.Reply? && reply.statusCode != 200
    ensures Enriched(r, apiKey, reply) == Success(r) && !GetTruthy(r, "caption")
  {
  }

  /** Once a truthy caption has been merged, a second enrichment changes nothing. */
  lemma EnrichedIdempotent(r: Record, apiKey: Option<string>, reply: CaptionReply, again: CaptionReply)
    requires IsOk(reply) && reply.firstContent.Some? && Truthy(reply.firstContent.value)
    requires Enriched(r, apiKey, reply).Success?
    ensures Enriched(Enriched(r, apiKey, reply).value, apiKey, again) == Enriched(r, apiKey, reply)
  {
  }

  /** One chat message of the caption request. */
  datatype Message = Message(role: string, content: string)

  /** The caption request: its URL, its headers and its JSON body. */
  datatype CaptionRequest = CaptionRequest(
    url: string, authorization: string, contentType: string,
    model: string, messages: seq<Message>, maxTokens: nat)

  const CaptionApiUrl := "https://api.openai.com/v1/chat/completions"
  const CaptionPromptPrefix := "Create a short Instagram caption based on this brief: "

  /** The brief a caption prompt was built from, if it has the prompt's shape. */
  function BriefOfPrompt(prompt: string): Option<string>
  {
    if |CaptionPromptPrefix| <= |prompt| && prompt[..|CaptionPromptPrefix|] == CaptionPromptPrefix
    then Some(prompt[|CaptionPromptPrefix|..])
    else None
  }

  /** The caption request for a string brief and a configured key. */
  function CaptionRequestFor(brief: string, apiKey: string): (q: CaptionRequest)
    ensures q.url == CaptionApiUrl && q.model == "gpt-4o-mini" && q.maxTokens == 60
    ensures |q.authorization| == 7 + |apiKey|
    ensures q.authorization[..7] == "Bearer " && q.authorization[7..] == apiKey
    ensures q.contentType == "application/json"
    ensures |q.messages| == 1 && q.messages[0].role == "user"
    ensures BriefOfPrompt(q.messages[0].content) == Some(brief)
  {
    var prompt := CaptionPromptPrefix + brief;
    CaptionRequest(
      CaptionApiUrl, "Bearer " + apiKey, "application/json",
      "gpt-4o-mini", [Message("user", prompt)], 60)
  }

  // ---------------------------------------------------------------------
  // Post-request construction
  // ---------------------------------------------------------------------

  /** One entry of the account configuration; either value is `None` when its variable is unset. */
  datatype Account = Account(igUserId: Option<string>, accessToken: Option<string>)

  /** `os.getenv(name)`. */
  function GetEnv(env: map<string, string>, name: string): Option<string>
  {
    if name in env then Some(env[name]) else None
  }

  /** The environment variables (user id, token) that each configured account is read from. */
  const AccountVariables: map<string, (string, string)> := map[
    "tattoo1" := ("IG_TATTOO1_ID", "IG_TATTOO1_TOKEN"),
    "tattoo2" := ("IG_TATTOO2_ID", "IG_TATTOO2_TOKEN"),
    "spa" := ("IG_SPA_ID", "IG_SPA_TOKEN")
  ]

  /** `ACCOUNTS_CONFIG`, read from the environment `env`. */
  function AccountsConfig(env: map<string, string>): (m: map<string, Account>)
    ensures m.Keys == {"tattoo1", "tattoo2", "spa"} == AccountVariables.Keys
    ensures forall k :: k in m ==>
              && m[k].igUserId == GetEnv(env, AccountVariables[k].0)
              && m[k].accessToken == GetEnv(env, AccountVariables[k].1)
  {
    map[
      "tattoo1" := Account(GetEnv(env, "IG_TATTOO1_ID"), GetEnv(env, "IG_TATTOO1_TOKEN")),
      "tattoo2" := Account(GetEnv(env, "IG_TATTOO2_ID"), GetEnv(env, "IG_TATTOO2_TOKEN")),
      "spa" := Account(GetEnv(env, "IG_SPA_ID"), GetEnv(env, "IG_SPA_TOKEN"))
    ]
  }

  /** How an f-string renders an optional string: `None` prints as "None". */
  function FormatOptional(o: Option<string>): string
  {
    if o.Some? then o.value else "None"
  }

  const GraphApiBase := "https://graph.facebook.com/v17.0/"
  const MediaSuffix := "/media"

  /** The media-creation endpoint of one user id. */
  function MediaEndpoint(userId: string): (e: string)
    ensures |e| == |GraphApiBase| + |userId| + |MediaSuffix|
    ensures e[..|GraphApiBase|] == GraphApiBase
    ensures e[|GraphApiBase|..|e| - |MediaSuffix|] == userId
    ensures e[|e| - |MediaSuffix|..] == MediaSuffix
  {
    GraphApiBase + userId + MediaSuffix
  }

  /** Distinct user ids give distinct endpoints. */
  lemma MediaEndpointInjective(a: string, b: string)
    requires MediaEndpoint(a) == MediaEndpoint(b)
    ensures a == b
  {
  }

  /**
    What `schedule_instagram_post` has computed by the end of its payload's
    visible part: the endpoint, the `image_url` and `caption` entries, the
    scheduled Unix time and the account's token.
   */
  datatype PostRequest = PostRequest(
    endpoint: string, imageUrl: Value, caption: Value, unixTimestamp: int, accessToken: Option<string>)

  /** The exceptions raised before the request exists. */
  datatype PostError =
    | UnknownAccount(accountKey: string)      // KeyError on the account map
    | MissingField(name: string)              // KeyError on the schedule record
    | UnparsableTime(scheduledTime: Value)    // the date parser raised

  /**
    Builds the post request. `toUnix` stands for parsing `scheduled_time` and
    truncating its timestamp to whole seconds; `None` means the parser raised.
   */
  function BuildPostRequest(
    accounts: map<string, Account>, accountKey: string, schedule: Record, toUnix: Value -> Option<int>)
    : (res: Result<PostRequest, PostError>)
    ensures res.Success? <==>
              accountKey in accounts && "media_url" in schedule && "scheduled_time" in schedule
              && toUnix(schedule["scheduled_time"]).Some?
    ensures res == Failure(UnknownAccount(accountKey)) <==> accountKey !in accounts
    ensures res == Failure(MissingField("media_url")) <==>
              accountKey in accounts && "media_url" !in schedule
    ensures res == Failure(MissingField("scheduled_time")) <==>
              accountKey in accounts && "media_url" in schedule && "scheduled_time" !in schedule
    ensures (res.Failure? && res.error.UnparsableTime?) <==>
              accountKey in accounts && "media_url" in schedule && "scheduled_time" in schedule
              && toUnix(schedule["scheduled_time"]).None?
    ensures res.Success? ==>
              && accountKey in accounts && "media_url" in schedule && "scheduled_time" in schedule
              && res.value.endpoint == MediaEndpoint(FormatOptional(accounts[accountKey].igUserId))
              && res.value.accessToken == accounts[accountKey].accessToken
              && res.value.imageUrl == schedule["media_url"]
              && res.value.caption == (if "caption" in schedule then schedule["caption"] else Str(""))
              && toUnix(schedule["scheduled_time"]) == Some(res.value.unixTimestamp)
  {
    if accountKey !in accounts then Failure(UnknownAccount(accountKey))
    else
      var account := accounts[accountKey];
      if "media_url" !in schedule then Failure(MissingField("media_url"))
      else
        var mediaUrl := schedule["media_url"];
        var caption := GetOr(schedule, "caption", Str(""));
        if "scheduled_time" !in schedule then Failure(MissingField("scheduled_time"))
        else
          match toUnix(schedule["scheduled_time"])
          case None => Failure(UnparsableTime(schedule["scheduled_time"]))
          case Some(unixTimestamp) =>
            Success(PostRequest(
              MediaEndpoint(FormatOptional(account.igUserId)), mediaUrl, caption,
              unixTimestamp, account.accessToken))
  }

  /** With the built-in configuration, only the three configured account keys resolve. */
  lemma ConfiguredAccountsResolve(
    env: map<string, string>, accountKey: string, schedule: Record, toUnix: Value -> Option<int>)
    ensures BuildPostRequest(AccountsConfig(env), accountKey, schedule, toUnix) == Failure(UnknownAccount(accountKey))
            <==> accountKey !in {"tattoo1", "tattoo2", "spa"}
  {
  }
}
