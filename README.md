# Schedule processor: record-handling core

This project models the record-handling logic of the schedule processor in
`scripts/process_schedules.py`. The processor publishes pre-authored
Instagram posts at a scheduled time. It has three deterministic pieces,
and the model replaces their I/O with plain inputs:

- **Pending selection** (`get_pending_schedules`). The enumerated schedule
  files come in as a sequence of (path, record) pairs. The loop keeps exactly
  those pairs whose record has `status` equal to `"pending"`, in enumeration
  order.
- **Caption enrichment** (`generate_caption_if_needed`). Three conditions
  guard it: the caption is missing or falsy, the brief is present and truthy,
  and an API key is configured. A 200 reply then replaces `caption` in place
  with the first choice's content. A non-200 reply leaves the record alone.
  The schedule is a `Schedule` object, so "returns the same dict, updated in
  place" is part of the method's contract. The outcome of the HTTP
  call is an input. It is either a reply, carrying a status code and the
  value at `choices[0].message.content` if there is one, or a transport
  failure, where `requests.post` raises.
- **Post-request construction** (the visible part of
  `schedule_instagram_post`). It looks up the account in the account map,
  reads `media_url`, defaults `caption` to `""`, converts `scheduled_time`
  and builds the `/{ig_user_id}/media` endpoint. It returns a `Result`
  whose error cases are the `KeyError`s and the parser failure the source
  can raise, in the order the source raises them.

Records are decoded JSON objects (`Json.Record`, a `map<string, Value>`).
Python's truthiness rule for `dict.get` results is `Json.Truthy`: `None`,
`False`, `0`, `""`, `[]` and `{}` are falsy.

Files: `wrappers.dfy` (Option, Result), `json.dfy` (JSON values and the
dictionary operations), `process_schedules.dfy` (the three pieces).

The model follows what the code does, including these details:
- The media URL is read from the key `media_url` and always goes under
  `image_url`. The code has no `media_kind` field that would switch it to
  `video_url`.
- The caption defaults to `""` only when the key is absent. A `caption` key
  whose value is `null` stays `null`.
- The schedule files are enumerated in whatever order `glob.glob` returns
  (scripts/process_schedules.py:35), which is not sorted by filename. The
  model takes that order as given and preserves it.
- An unknown account key raises `KeyError` at the lookup
  (scripts/process_schedules.py:74); `BuildPostRequest` returns it as
  `UnknownAccount`. The visible code has no handling that skips such a
  record and leaves it untouched. It has no field validation before that
  lookup and no archival step either, so none of these is modelled.

## Model

| member | source | states |
|---|---|---|
| `ProcessSchedules.PendingOf` | scripts/process_schedules.py:36-45 | the selection is never longer than the enumeration |
| `ProcessSchedules.GetPendingSchedules` | scripts/process_schedules.py:33-45 | the filter loop returns exactly the pending selection of the enumerated files |
| `ProcessSchedules.PendingOfMembers` | scripts/process_schedules.py:38-45 | every returned pair is an enumerated pair whose status is "pending"; every enumerated pair whose status is "pending" is returned, so a missing or different status never appears |
| `ProcessSchedules.PendingOfIndices` | scripts/process_schedules.py:36-43 | the result is an order-preserving subsequence of the enumeration; each returned pair is the enumerated (path, record) pair at a strictly increasing position, and a position is used iff its record is pending |
| `ProcessSchedules.PendingOfConcat` | scripts/process_schedules.py:38-43 | selecting over two batches in turn equals selecting over their concatenation, because the loop treats each file independently and appends in order |
| `ProcessSchedules.PendingOfIdempotent` | scripts/process_schedules.py:42-43 | selecting again from a selection changes nothing |
| `ProcessSchedules.Enriched` | scripts/process_schedules.py:47-71 | only `caption` can change, and only when the guard holds and the reply is 200; a 200 reply with content sets `caption` to that content; a non-200 reply leaves the record unchanged; a transport failure and a 200 reply without `choices[0].message.content` are the exceptions the source raises, each happening exactly when the guard holds and the reply is of that kind; when the guard fails the record is unchanged |
| `ProcessSchedules.GenerateCaptionIfNeeded` | scripts/process_schedules.py:47-71 | the request is issued iff the guard holds; the object it returns is the object it was given; its fields become the enriched record, or stay as they were when the request or the lookup raises |
| `ProcessSchedules.EnrichedRejectedKeepsCaptionFalsy` | scripts/process_schedules.py:66-69 | after a non-200 reply the record is unchanged and its caption is still missing or falsy |
| `ProcessSchedules.EnrichedIdempotent` | scripts/process_schedules.py:50-67 | once a 200 reply has merged a truthy caption, a second enrichment with any reply changes nothing |
| `ProcessSchedules.CaptionRequestFor` | scripts/process_schedules.py:51-63 | the prompt is the fixed prefix followed by the brief, which can be recovered from it; the request has one message, with role `user`, and that prompt as its content; it uses bearer authorization with the key, the content type `application/json`, model gpt-4o-mini and 60 max tokens |
| `ProcessSchedules.AccountsConfig` | scripts/process_schedules.py:14-27 | the account map has exactly the keys tattoo1, tattoo2 and spa; each account's user id and token are the values of that account's own `IG_*_ID` and `IG_*_TOKEN` environment variables, `None` when unset |
| `ProcessSchedules.MediaEndpoint` | scripts/process_schedules.py:83 | the endpoint is the Graph API v17.0 base, then the user id, then `/media`; the user id can be read back from it |
| `ProcessSchedules.MediaEndpointInjective` | scripts/process_schedules.py:83 | different user ids give different endpoints |
| `ProcessSchedules.BuildPostRequest` | scripts/process_schedules.py:73-88 | an unknown account key is the first error and happens iff the key is not in the map; next come a missing `media_url`, a missing `scheduled_time` and an unparsable time, each characterised exactly; success happens iff the key is known, both fields are present and the time parses; on success the endpoint embeds the account's user id, `image_url` carries `media_url`, the caption is the record's caption or `""` when absent, and the timestamp is the parsed time |
| `ProcessSchedules.ConfiguredAccountsResolve` | scripts/process_schedules.py:74 | with the built-in account map, the unknown-account error happens iff the key is not one of the three configured keys |

## Left out

- File enumeration (`glob`), `open`, `json.load` and `ensure_dirs`: filesystem plumbing. The enumerated (path, record) sequence is an input. Malformed JSON and non-object top-level values are not modelled.
- Environment lookups (`os.getenv`): the environment is an input map, and `OPENAI_API_KEY` is an optional string.
- The HTTP calls to the caption API and to the publishing API: the caption call's outcome (a reply or a transport failure) is an input. The call has no timeout; waiting is not modelled. The publishing call lies past the visible code.
- The failure message printed on a non-200 caption reply: console output only.
- `CaptionRequestFor`: covers string briefs only. Python's `str()` rendering of a non-string brief inside the prompt is not modelled. The JSON serialisation of the body by `requests` is not modelled either. `GenerateCaptionIfNeeded` reports whether the request is sent, not its body.
- Date parsing (`dateutil.parser.parse`) and `int(timestamp())`: a caller-supplied function from the `scheduled_time` value to whole seconds, or `None` when the parser raises. Floating-point truncation is not modelled.
- JSON numbers are integers only. Floating-point values are not modelled.
- Everything after scripts/process_schedules.py:88 is not visible: the rest of the payload, the publishing request and its success test, archival, `last_error`, `creation_id` and the git commit step. None of these is modelled.
- `app.py` is not part of this model. It is a Flask handler that forwards one request and returns the reply verbatim.
- Aliasing between the list built by pending selection and the dictionaries later enriched: selection works on record values, and only enrichment works on a shared `Schedule` object.
- Concurrent runs over the pending area: the processor is single-threaded batch code with no locking.
