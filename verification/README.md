# TikTok handle checker — a Dafny model

This project models the decision logic of a small Python repository. The
repository checks whether TikTok handles are live, banned ("die") or
undecidable, and runs two Telegram bots and a payment webhook around that
check. What remains once HTTP, threads, Telegram, Flask and file storage are
taken away is modelled as pure Dafny functions over immutable values:

- three handle normalizers:
  - the precise checker's, which extracts the handle from a URL;
  - the simple checker's;
  - the pay-per-check bot's;
- the verdict ladders:
  - the simple checker's keyword reading, with its single retry after HTTP 429;
  - the precise checker's probe cascade (three JSON endpoints, then two profile pages, and the first conclusive probe wins) and its profile-page ladder;
  - the pay-per-check bot's `classify`;
- the batch checkers, folded sequentially into three buckets;
- the prepaid ledger and the bot's in-memory copy of it;
- the chat → user id link store;
- the daily free-use gate, the pricing modes of `/check`, and `/setprice`;
- the credit webhook's validation ladder;
- the bulk bot's input helpers:
  - reading a boolean setting and the allow-list;
  - chunking;
  - splitting `/check` arguments;
  - capping the bulk size;
  - reading an uploaded file;
  - building the result documents.

Each source file has one module:

| file | module |
|---|---|
| checker_precise.py | `Precise` (checker_precise.dfy) |
| checker.py | `Checker` (checker.dfy) |
| bot_telegram.py | `TelegramBot` (bot_telegram.dfy) |
| bot.py | `BulkBot` (bot.dfy) |
| billing.py | `Ledger` (billing.dfy) |
| link_store.py | `Links` (link_store.dfy) |
| wallet_webhook.py | `Webhook` (wallet_webhook.dfy) |

Three shared modules support them:
- `Common` holds the verdicts, buckets, `Option`, and `Raises` (a call that returns or raises).
- `Text` models the Python string operations the code uses: `strip`, `lstrip`, `lower`, `in`, `split`, `splitlines`, `join`, `str(int)` and `int(str)`.
- `Json` models a decoded JSON value with Python truthiness, `dict.get` and `or`.

`Scenarios` proves what the precise normalizer returns on three concrete inputs.

The model replaces every outside effect with a parameter:
- An HTTP request becomes a function the caller supplies:
  - `fetch(url, attempt)` for the simple checker;
  - `fetch(url)` for the bot;
  - `api(url)` and `page(url)` for the precise checker.
- Each of these returns a reply datatype. That datatype tells a response apart from a `RequestException` and from any other exception.
- The clock (`now`) and the UTC date key (`day`) are parameters.
- HMAC-SHA256 is the uninterpreted function `mac(secret, message)`.
- Persistent maps are immutable Dafny maps that are passed in and handed back.

## Model

| member | source | states |
|---|---|---|
| Common.Collect | checker.py:92-98 | folding verdicts into the three buckets puts every item in exactly one bucket: the buckets together are the multiset of the items |
| Common.CollectPicks | checker_precise.py:176-178 | each bucket is the in-order subsequence of the items whose verdict is that bucket's status |
| Common.PickHasItem | checker.py:98 | the i-th item appears in the bucket of the i-th verdict |
| Common.PoolSize | checker.py:89 | the worker count lies in 1..5, equals the request inside that range, and is 5 above it and 1 below it |
| Text.Filter | checker_precise.py:46 | removing the characters outside `[A-Za-z0-9._]` yields a handle no longer than the input |
| Text.FilterKeepsHandles | checker_precise.py:46 | a string already inside the alphabet is left unchanged |
| Text.FilterIdempotent | checker.py:28 | filtering twice is filtering once |
| Text.Strip | checker_precise.py:36 | `str.strip`: the result is a slice of the input with only whitespace cut from its two ends, has no whitespace at either end, and is empty exactly when the input is all whitespace |
| Text.StripPadded | checker_precise.py:36 | a trimmed word with whitespace padding on both sides strips back to the word |
| Text.LStripChar | checker.py:27 | `lstrip("@")`: the result does not start with `@` |
| Text.LStripCharCuts | checker.py:27 | `lstrip` keeps a suffix and removes only `@` characters |
| Text.FilterStrip | checker.py:27-28 | whitespace lies outside the alphabet, so stripping never changes what the filter keeps |
| Text.FilterLStrip | checker.py:27-28 | removing leading `@` never changes what the filter keeps |
| Text.LowerIdempotent | checker.py:36 | lower-casing twice is lower-casing once |
| Text.SplitJoin | bot.py:66-70 | joining pieces that contain no separator and splitting again gives the pieces back |
| Text.SplitOnContent | bot.py:96 | splitting loses exactly the separator characters: the pieces concatenate to the input without them |
| Text.Words | bot.py:96 | `str.split()` yields non-empty words without whitespace |
| Text.ParseInt | bot_telegram.py:322 | `int(s)` fails on the empty string and reads a plain digit string as its decimal value |
| Text.IntRoundTrip | wallet_webhook.py:12 | `int(str(i)) == i` for every integer |
| Json.Or | checker_precise.py:144 | `a or b` is truthy exactly when one operand is; it is `a` when `a` is truthy and `b` otherwise |
| Json.Get | checker_precise.py:144 | `d.get(k)` is `d[k]` for a present key and None for a missing one |
| Precise.RunLength | checker_precise.py:40 | the greedy `[A-Za-z0-9._]+` run: every character inside it is in the alphabet, and the first character after it is not |
| Precise.SearchFrom | checker_precise.py:40 | `re.search` finds the leftmost `/@` followed by a handle character: it finds none when none exists, and none earlier than the one it returns |
| Precise.SearchFindsFirst | checker_precise.py:40 | a marker with no marker before it is the one the search returns |
| Precise.UrlHandle | checker_precise.py:40-42 | group 1 is absent exactly when the string has no usable `/@`; otherwise it is the maximal run of handle characters right after the leftmost usable `/@` |
| Precise.Normalize | checker_precise.py:35-47 | the result is in `[A-Za-z0-9._]*` and is empty for empty or all-whitespace input |
| Precise.NormalizeFilters | checker_precise.py:39-47 | in the URL case the result is the handle after the first `/@`; otherwise it is the input with every character outside the alphabet removed, so the strip and the one-`@` cut are subsumed |
| Precise.HandleHasNoMarker | checker_precise.py:39-42 | a normalized handle never takes the URL branch |
| Precise.NormalizeIdempotent | checker_precise.py:35-47 | normalizing twice is normalizing once |
| Scenarios.NormalizeAtExample | checker_precise.py:43-47 | `@Foo.Bar` normalizes to `Foo.Bar` |
| Scenarios.NormalizeJunkExample | checker_precise.py:46 | `!!!` normalizes to the empty handle |
| Scenarios.NormalizeUrlExample | checker_precise.py:39-42 | `http://x/@carol` normalizes to `carol` |
| Precise.ObjectSignal | checker_precise.py:144-155 | a dict reply is live exactly when its user record has a truthy uniqueId/secUid/id; banned exactly when no such user exists and statusCode or status is one of the six not-found codes |
| Precise.ApiListReplyRaises | checker_precise.py:142-144 | as written, a decoded reply `[1]` is truthy but not a dict, and `data.get` raises |
| Precise.ApiSignal | checker_precise.py:142-155 | the corrected API verdict agrees with the source wherever the source returns; a non-dict reply is inconclusive; live requires an identified user and banned requires a not-found code |
| Precise.UserBeatsStatusCode | checker_precise.py:149-155 | an identified user wins over any statusCode |
| Precise.SigiStringModuleRaises | checker_precise.py:92-93 | as written, an embedded state whose UserModule is a string makes `um.get` raise |
| Precise.SigiSignal | checker_precise.py:89-100 | the corrected embedded-state verdict agrees with the source wherever the source returns; live exactly when the user entry (exact or lower-cased key) has secUid/id; banned exactly when it does not and userNotFound names the handle or is `true` |
| Precise.TextVerdict | checker_precise.py:104-118 | a not-found phrase means banned; live exactly when there is no such phrase and both `@name` and the og profile marker appear; banned otherwise only on 404; a 404 is never an error |
| Precise.HtmlProfile | checker_precise.py:76-121 | the profile ladder, rung by rung: a request failure or 401/403/429 is an error; otherwise an embedded user means live; failing that an embedded not-found means banned; failing that the page text decides as `TextVerdict` says. It agrees with the source wherever the source returns, and a 404 never ends as an error |
| Precise.NotFoundCodeComesLast | checker_precise.py:104-115 | a 404 page with no not-found phrase that shows `@name` and the profile marker is live, not banned |
| Precise.ThrottledIgnoresBody | checker_precise.py:83-84 | under 401/403/429 the page content plays no part |
| Precise.Targets | checker_precise.py:134-159 | five probes: the three JSON endpoints, then the mobile and the desktop profile page |
| Precise.SignalsOf | checker_precise.py:139-163 | one signal per probe, in probe order |
| Precise.FirstConclusive | checker_precise.py:139-163 | the first conclusive signal: everything before it is inconclusive |
| Precise.Cascade | checker_precise.py:139-166 | the cascade's verdict is the first conclusive probe's, or inconclusive; the trace holds exactly one step per probe run, up to and including the deciding one |
| Precise.CheckOne | checker_precise.py:123-166 | an input that normalizes to nothing is `error` with `err = "empty"` and no probe; otherwise the handle's verdict is the first conclusive probe's (error if there is none), with one step per probe run; wherever the code as written returns, the result is the same |
| Precise.ApiNotFoundSkipsHtml | checker_precise.py:152-155 | a not-found code from the first endpoint decides banned after one step, before any page is fetched |
| Precise.AllInconclusiveIsError | checker_precise.py:165-166 | when no probe is conclusive, all five run and the verdict is error |
| Precise.FirstNoneWhenAllInconclusive | checker_precise.py:139-163 | with no conclusive signal the search runs off the end |
| Precise.CheckOneKeepsHandle | checker_precise.py:125 | a handle the batch submits comes back under its own name |
| Precise.Items | checker_precise.py:170 | the batch's items are non-empty handles, no more of them than inputs |
| Precise.ItemsHasUsable | checker_precise.py:170 | every input that normalizes to something is among the items |
| Precise.ItemsComeFromInputs | checker_precise.py:170 | every item is the normalization of some input |
| Precise.CheckUsernames | checker_precise.py:168-180 | every usable input lands in exactly one bucket: the buckets together are the multiset of normalized inputs |
| Precise.CheckUsernamesAsWrittenRaises | checker_precise.py:17-19 | as written, a batch with at least one usable handle raises NameError from its first `check_one` (its session draws on the unimported `string`); a batch with none returns the empty buckets, as the corrected batch does |
| Precise.BatchBuckets | checker_precise.py:175-178 | each bucket holds exactly the normalized inputs whose cascade gave that verdict |
| Precise.BatchNamesAreItems | checker_precise.py:170-177 | the names the checks return are the submitted items, in order |
| Precise.BatchPlacesEachItem | checker_precise.py:175-178 | each normalized input lands in the bucket of its own verdict |
| Precise.BatchDropsUnusable | checker_precise.py:170 | only non-empty handles reach a bucket; the empty string an unusable input normalizes to appears in none |
| Checker.Normalize | checker.py:26-28 | the result is a handle no longer than the input |
| Checker.NormalizeIsFilter | checker.py:26-28 | the strips and the `lstrip("@")` are redundant: the result is the input with every character outside the alphabet removed |
| Checker.NormalizeIdempotent | checker.py:26-28 | normalizing twice is normalizing once |
| Checker.ParseStatus | checker.py:30-56 | die exactly when a not-found phrase or ban word appears in the lower-cased page; live exactly when neither appears and a profile marker or counter label does; error otherwise |
| Checker.ParseStatusIgnoresCase | checker.py:36 | the verdict depends only on the lower-cased page |
| Checker.BanWordsAreStems | checker.py:47-49 | the six ban words match exactly when one of the stems suspend/ban/block does |
| Checker.BanStemMeansDie | checker.py:47-49 | any occurrence of a stem (the `block` of `display:block`, say) makes the page die, whatever live markers it also has |
| Checker.Settles | checker.py:63-82 | a reply settles the verdict as follows: a request failure is an error, 404 is die, and 200/301/302 is the page reading. Any other code settles nothing, and any other exception propagates |
| Checker.ReadFinal | checker.py:63-82 | a reply with no retry left, code by code: 404 is die, 200/301/302 is the page reading, a request failure or any other code is error, and any other exception escapes |
| Checker.CheckOne | checker.py:58-82 | no request for an empty handle, which is then error; a first reply other than 429 decides after one request, as `ReadFinal` reads it; after a 429 the second reply decides the same way after two requests, and a second 429 is error with no third request |
| Checker.RetryOnlyAfter429 | checker.py:70-78 | when the first reply is not a 429, the second request plays no part |
| Checker.TwiceRateLimitedIsError | checker.py:70-78 | two 429s give error after exactly two requests, with no third |
| Checker.CheckOneOnNormalized | checker.py:59 | checking an already normalized handle gives the same result |
| Checker.Items | checker.py:85 | the batch's items are non-empty handles |
| Checker.Verdict | checker.py:94-97 | a check that raised is bucketed as error; otherwise its own verdict |
| Checker.CheckMany | checker.py:84-99 | every usable input lands in exactly one bucket: the buckets together are the multiset of normalized inputs |
| Checker.CheckManyBuckets | checker.py:92-98 | each bucket holds exactly the handles whose check gave that verdict |
| Checker.CrashLandsInError | checker.py:94-98 | an input whose check raised has its normalized handle in the error bucket |
| Checker.ItemsHasUsable | checker.py:85 | every input that normalizes to something is among the batch's items |
| Ledger.EnsureUser | billing.py:31-37 | the chat's account exists afterwards; an existing account and every other chat are untouched, and a new account is all zeros |
| Ledger.Balance | billing.py:39-42 | an unknown chat's balance is 0 |
| Ledger.Charge | billing.py:44-59 | succeeds exactly when the balance covers the amount; a refusal changes nothing; a success moves the amount from the balance to spent and adds the check count; other chats are untouched |
| Ledger.Credit | billing.py:61-69 | the returned balance is the old balance plus the amount and is the stored one; spent and checks are unchanged; other chats are untouched |
| Ledger.CreditAfterEnsure | wallet_webhook.py:30 | opening the account before a credit changes nothing |
| Ledger.ChargeKeepsTotal | billing.py:55-56 | a charge preserves balance + spent |
| Ledger.ChargeKeepsSolvent | billing.py:53-55 | a charge never makes a balance negative |
| Ledger.CreditKeepsSolvent | billing.py:61-69 | a non-negative credit keeps every balance non-negative |
| Ledger.CreditThenCharge | billing.py:44-69 | charging back what was just credited succeeds and restores the balance |
| Ledger.MemCharge | bot_telegram.py:23-26 | the fallback charge opens the account and then behaves like the ledger's: a refusal leaves only the empty account behind |
| Ledger.MemCredit | bot_telegram.py:27-29 | the fallback credit equals the ledger's credit |
| Ledger.ChargesAgree | bot_telegram.py:23-26 | both charges agree on success and on every balance, spent total and check count |
| Ledger.ChargesCoincideAfterEnsure | bot_telegram.py:16-26 | once the account exists, the two charges are identical |
| Links.Bind | link_store.py:30-34 | the chat is linked to the id; other links are kept; the key set gains only the chat |
| Links.Unbind | link_store.py:36-40 | the chat is unlinked; unbinding an absent chat changes nothing; other links are kept |
| Links.UserId | link_store.py:42-44 | an unknown chat reads as 0; a linked chat reads as its id |
| Links.BindThenGet | link_store.py:30-44 | after a bind, the chat reads back the bound id and other chats read as before |
| Links.UnbindThenGet | link_store.py:36-44 | after an unbind, the chat reads 0 and other chats read as before |
| Links.BindThenUnbind | link_store.py:30-40 | binding then unbinding forgets the chat, whatever it was linked to before |
| Links.BindOverrides | link_store.py:30-34 | a second bind overrides the first |
| Webhook.SigOk | wallet_webhook.py:10-14 | false without a secret; true exactly when the signature is the MAC of `chat\|amount\|ts`; a non-ASCII signature or MAC makes `compare_digest` raise TypeError, and only then is there a raise |
| Webhook.ApiCredit | wallet_webhook.py:16-37 | the ladder in order: non-JSON is 400; a missing field is 400 `missing`; with all fields present, a timestamp more than 600 s off is 400 `expired`; within the window a false signature check is 403 `bad_sig` and a true one credits. A credit answers the new balance, the old one plus exactly the amount; every refusal leaves the ledger unchanged |
| Webhook.NoSecretNoCredit | wallet_webhook.py:11 | without a secret nothing is ever credited |
| Webhook.WindowEdgeAccepted | wallet_webhook.py:26-27 | a timestamp exactly 600 s old is accepted, and one 601 s old is expired |
| Webhook.BadSigAfterOtherChecks | wallet_webhook.py:24-29 | a bad-signature refusal implies that the presence and freshness checks passed |
| Webhook.ReplayCreditsAgain | wallet_webhook.py:16-37 | there is no nonce: an accepted request replayed within the window credits the amount a second time |
| Webhook.MessageInjective | wallet_webhook.py:12 | distinct (chat, amount, ts) triples sign distinct messages, even when the chat id contains `\|` |
| Webhook.IntToStringInjective | wallet_webhook.py:12 | distinct integers render differently |
| TelegramBot.Normalize | bot_telegram.py:92-95 | the result is a handle |
| TelegramBot.NormalizeIsFilter | bot_telegram.py:92-95 | the strip and the one-`@` cut are subsumed by the filter |
| TelegramBot.NormalizeIdempotent | bot_telegram.py:92-95 | normalizing twice is normalizing once |
| TelegramBot.Classify | bot_telegram.py:97-102 | live exactly when the status is 200 and the page names the handle as `/"@name"` or `"uniqueId":"name"`; banned exactly on 404 or 451; error otherwise |
| TelegramBot.GoneIgnoresBody | bot_telegram.py:100-101 | a 404 or 451 is banned whatever the page says |
| TelegramBot.UniqueIdMeansLive | bot_telegram.py:98-99 | a 200 page naming the handle as `"uniqueId":"name"` is live |
| TelegramBot.QuickCheck | bot_telegram.py:104-110 | a reply is classified by `Classify` from its code and body; a request failure is an error; a non-request exception escapes |
| TelegramBot.UsesOf | bot_telegram.py:49 | a chat with no entry today has used nothing |
| TelegramBot.IncUse | bot_telegram.py:50-51 | one more use for this chat today, returned; every other (day, chat) is untouched |
| TelegramBot.Remaining | bot_telegram.py:46 | never negative; free minus used while uses are below the limit, 0 from then on |
| TelegramBot.Gate | bot_telegram.py:158-175 | lets the command through exactly when today's uses are below the limit, counting one use; a refusal leaves the counter alone |
| TelegramBot.GateMatchesRemaining | bot_telegram.py:46 | the gate opens exactly when free uses remain |
| TelegramBot.GateRunPasses | bot_telegram.py:158-175 | of n successive commands, exactly min(n, remaining) pass |
| TelegramBot.ModeOf | bot_telegram.py:63 | only `per_check` and `per_live` are known modes |
| TelegramBot.HandleOf | bot_telegram.py:350 | the probed name is a handle |
| TelegramBot.Prepare | bot_telegram.py:342-366 | a chat off the allow-list is ignored and nothing changes. A free use is counted exactly when the arguments give a handle and uses remain. A per_check probe happens only after a successful charge of the price. An unaffordable price stops before the probe. The charge never fails after the affordability check |
| TelegramBot.AfterProbe | bot_telegram.py:370-371 | per_live charges the price only for a live verdict |
| TelegramBot.CmdCheck | bot_telegram.py:342-374 | price and mode never change; the command is ignored exactly off the allow-list; every reply `Prepare` gives (syntax, bad name, limit reached, insufficient balance) is answered as it stands; past `Prepare` the command is answered with `quick_check`'s verdict on the normalized handle, with the balance left afterwards, or ends with its exception |
| TelegramBot.GateCountsOnce | bot_telegram.py:355 | a command that passed the gate used exactly one free use; any other used none |
| TelegramBot.PerCheckPricing | bot_telegram.py:358-366 | a per_check verdict costs exactly the price. A chat that cannot pay gets no probe and keeps its balance, yet its free use is spent |
| TelegramBot.PerLivePricing | bot_telegram.py:370-371 | a per_live verdict is charged only when it is live and affordable. An unaffordable live verdict is answered free of charge |
| TelegramBot.UnpricedIsFree | bot_telegram.py:358-371 | under any other mode, `/check` charges nothing |
| TelegramBot.CheckTouchesOnlyItsChat | bot_telegram.py:342-374 | no other chat's account changes |
| TelegramBot.CmdSetPrice | bot_telegram.py:317-329 | price and mode change together, and exactly when the caller is an admin, the amount parses and the mode (the current one by default) is known, and the reply echoes that amount and mode; otherwise nothing changes |
| TelegramBot.SetPriceKeepsModeKnown | bot_telegram.py:321-326 | a known mode stays known through any `/setprice` |
| BulkBot.ReadEnvBool | bot.py:19-23 | unset gives the default; set is true exactly when the trimmed, lower-cased value is 1/true/yes/y |
| BulkBot.PaddedYesWordIsTrue | bot.py:19-23 | `1`, `true`, `yes` or `y` with any whitespace padding reads as true, whatever the default |
| BulkBot.SetValueIgnoresDefault | bot.py:19-23 | once set, the default plays no part |
| BulkBot.CheckAuth | bot.py:34-38 | an empty allow-list admits everyone; otherwise only a sender whose id is listed |
| BulkBot.AllowedIdsRoundTrip | bot.py:28 | ids written comma-separated are read back as exactly that set |
| BulkBot.ChunksOf | bot.py:54-56 | the chunks concatenate to the list; each is non-empty and at most `size` long; all but the last are exactly `size` long |
| BulkBot.ChunkCount | bot.py:54-56 | there are ceil(len/size) chunks |
| BulkBot.Chunks | bot.py:54-56 | a zero size raises; a negative size yields no chunk |
| BulkBot.SplitArgs | bot.py:93-96 | every token is non-empty and holds no whitespace and no comma |
| BulkBot.TokensAreClean | bot.py:96 | the tokens of one argument are non-empty and free of whitespace and commas |
| BulkBot.NonBlankKeepsWords | bot.py:96 | the `x.strip()` filter drops no word |
| BulkBot.ArgTokensKeepOrder | bot.py:94-96 | the tokens spell out the argument in order, with only separators removed |
| BulkBot.Prefix | bot.py:100 | `xs[:m]` is a prefix of length min(m, len) for m ≥ 0, and len+m (at least 0) for negative m |
| BulkBot.CapBulk | bot.py:99-100 | a list within the limit is kept whole; a longer one is cut to its first `max_bulk` handles |
| BulkBot.ParseUpload | bot.py:120 | every parsed name is a non-empty, stripped line without line breaks |
| BulkBot.StrippedLines | bot.py:120 | at most one name per line, each non-empty, stripped and free of line breaks |
| BulkBot.StrippedLinesAppend | bot.py:120 | reading two runs of lines one after the other gives the two readings concatenated: file order is kept |
| BulkBot.StrippedLinesOne | bot.py:120 | one line gives its strip, or nothing when the strip is empty |
| BulkBot.ParseUploadLines | bot.py:120 | a file whose lines are any break-free strings is read as the reading of those lines |
| BulkBot.BlankLineDropped | bot.py:120 | a blank line contributes nothing wherever it sits |
| BulkBot.UploadRoundTrip | bot.py:120 | writing clean names one per line and reading the file back gives the same names in order |
| BulkBot.DocumentFor | bot.py:65-70 | one document for a non-empty bucket, holding its names one per line; none for an empty bucket |
| BulkBot.Respond | bot.py:58-78 | the summary counts are the bucket sizes; the documents come in the order live, banned, errors, one per non-empty bucket, so at most three |
| BulkBot.DocumentReadsBack | bot.py:64-70 | uploading a result document again yields exactly its bucket |
| BulkBot.Run | bot.py:99-105 | the cap notice appears exactly when the list exceeds the limit; the summary is of the capped list's buckets |
| BulkBot.CheckCmd | bot.py:87-105 | refuse without permission, then without a token; the usage reply appears exactly when the arguments yield no name; otherwise the split names are run |
| BulkBot.HandleFile | bot.py:107-129 | refuse without permission; a name not ending in `.txt` (any case) is refused; the empty-file reply appears exactly when no non-blank line remains; otherwise the file's names are run; no token is asked for |
| BulkBot.CountsAddUp | bot.py:73-77 | the three counts add up to the number of kept handles that normalize to something |

## Behaviour worth knowing

- Handle length: no normalizer truncates. `_USERNAME_RE` (checker_precise.py:33) is defined but never used.
- Retries: only the simple checker retries, once, and only after a 429 (checker.py:70-78). The precise checker's profile probe ends with `error` on 401/403/429 (checker_precise.py:83-84), and its JSON probes ignore the status code altogether.
- HTTP 404: the precise checker consults a profile page's 404 last, after the embedded state and the page text (checker_precise.py:114-115), so a 404 page carrying the profile markers is live.
- Exceptions: as written, every `check_one` call that gets past the empty-input return raises NameError, because `_session` uses the unimported `string` module. Once `string` is imported, non-dict JSON shapes still propagate out of the precise checker as AttributeError. Both are under Findings.

## Left out

- Network I/O is out: sessions, headers, user agents, cookies, timeouts and redirects. Replies are parameters. `_try_json`'s content-type sniffing and JSON decoding (checker_precise.py:49-64) are out, and so is the SIGI_STATE regular-expression extraction (checker_precise.py:66-74). The probes receive the decoded value, or `Null`. A JSON decoding error reaches the model as a reply with no data.
- checker.py is stored with every line indented by 12 spaces (checker.py:1 onwards). Python would reject that file with an IndentationError, and `from checker import check_many` (bot.py:13) would fail with it. The model reads checker.py as if it were not indented.
- The thread clamp of both batch checkers (Common.PoolSize) is used by no batch function here: the batches are sequential folds, so the worker count has no effect on their results.
- Concurrency is out. This covers the thread pools and completion order, `_result_lock`, the jitter sleep (checker_precise.py:179) and the 1.5 s backoff (checker.py:72). Batches are folded in submission order, so bucket contents are stated as multisets and as in-order picks. Bucket order under real completion order is not modelled.
- Telegram and Flask plumbing is out: message texts, Markdown, keyboards, document upload and download, and HTTP status plumbing. The replies are datatypes.
- File persistence, directory creation, atomic replace and locks in billing.py and link_store.py are out. The stores are immutable maps.
- Cryptography is out. HMAC-SHA256 is an uninterpreted parameter. `compare_digest` is modelled as equality, plus its refusal of non-ASCII strings.
- `create_yeumoney_link` and the purchase keyboard of `_gate_or_count` (bot_telegram.py:133-155, 163-172) are out. They are network calls and reply formatting, and the gate's decision does not depend on them.
- The other commands of the pay-per-check bot are out: `/start` with its deep links, `/balance`, `/bind`, `/unbind`, `/me`, `/free`, `/topup`, `/credit`, and QR URL building. They are message plumbing around the ledger and link store, which are modelled: `/credit` is ensure-then-credit, like the webhook, and `/bind` and `/unbind` are `Links.Bind` and `Links.Unbind`.
- The `usage_limit` module the bot tries to import is not part of this model. The in-memory fallback (bot_telegram.py:45-53) is modelled, with `limit_for_today` equal to `FREE_USES` and no bonus.
- Parsing the allow-list and admin-list environment variables of the pay-per-check bot (bot_telegram.py:59-60) is out. The allow-list and admin checks arrive as booleans. The bulk bot's `ALLOWED_USER_IDS` parsing is modelled.
- The bulk bot's `BOT_TOKEN`, `MAX_BULK`, `THREADS` and `TIMEOUT` settings arrive already converted. `int(float(...))` and floats in general are out.
- Text.Lower: `str.lower` is modelled for ASCII, Latin-1 capitals, the Vietnamese capitals U+1EA0..U+1EF8 and the Kelvin sign U+212A (which becomes `k`). The rest of Unicode case mapping is left out. One left-out character can change a verdict: U+0130 (capital I with a dot) lower-cases in Python to two characters, `i` plus a combining dot, which the model does not produce. A page holding `@X` + U+0130 therefore contains `@xi` in Python, and the precise checker's `@name` marker for a handle `xi` matches there but not in the model.
- Precise.ObjectSignal: the Json module's decoded numbers are integers only. Floats are out, so the model does not see that a decoded `10000.0` equals the not-found code 10000 (checker_precise.py:154), as it does in Python.
- Text.ParseInt: `int(str)` is modelled for ASCII digits with an optional sign and single underscores. Unicode digits and surrounding whitespace are not accepted.
- BulkBot.AllDigits: `str.isdigit` is modelled for ASCII digits only.
- The bulk bot decodes uploads as UTF-8 with `errors="ignore"`. This is out; the model receives the decoded text.
- BulkBot.ParseUpload splits at every `str.splitlines` line-break character. The only difference from `splitlines` is the empty pieces it makes, and those are dropped as blank.
- Webhook.ApiCredit receives the fields already converted. These are out:
  - the exceptions `int()` raises on non-numeric fields;
  - a JSON body that is not an object;
  - the Telegram notification after a credit. Its failure is swallowed and does not change the answer.
- `get_config` of bot.py (bot.py:25-32) is out, except for the allow-list; its values are parameters.
- `_session` of checker_precise.py (checker_precise.py:17-31) is out, apart from the NameError it raises. It builds browser-like headers and a random web id.
- Precise.CheckOne and Precise.CheckUsernames assume that checker_precise.py imports `string`. As written they raise NameError for every usable handle (see Findings); Precise.CheckOneAsWritten and Precise.CheckUsernamesAsWritten model that.
- The pay-per-check bot's `main` and the handler registrations of every bot are out.

## Findings

| source | as written | input that shows it | evidently intended | confidence | as-written member | corrected member |
|---|---|---|---|---|---|---|
| checker_precise.py:17-19 | `_rand_tt_webid` reads `string.digits`, but the module never imports `string` (lines 1-8). `check_one` calls `_session()` (line 130) right after the empty-input return | any list holding a usable handle, such as `alice`: `check_usernames` raises NameError from its first `check_one` | `import string` at the top, so that the session opens and the cascade runs | high, not executed | Precise.CheckUsernamesAsWrittenRaises | Precise.CheckOne |
| checker_precise.py:142-144 | any truthy decoded reply is read with `data.get`, but `_try_json` also accepts a body starting with `[` (line 58), which decodes to a list | once `string` is imported (first row), a JSON endpoint answering `[1]` makes `check_one` raise AttributeError, and `check_usernames` with it | a non-dict reply is inconclusive, like every other unusable body | medium, not executed | Precise.ApiListReplyRaises | Precise.ApiSignal |
| checker_precise.py:92-99 | every level of the embedded state is read with `.get`, which assumes dicts | once `string` is imported (first row), an embedded state `{"UserModule": "x"}` makes `_check_html_profile` raise AttributeError. Only request exceptions are caught, so the batch fails | a misplaced non-dict is read as an empty dict, and the ladder continues with the page text | medium, not executed | Precise.SigiStringModuleRaises | Precise.SigiSignal |
