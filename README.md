# mailorca in Dafny

mailorca is a development mail catcher. An SMTP server accepts every message and
keeps it in an in-memory store. A web application lists the stored messages,
shows one, and offers its raw bytes for download. A JSON configuration file and
command-line options set the ports, the history size, the UI columns and the
logging.

This project models the core of that system and proves properties of the model:

- `Store` (store.dfy): the `MailStore` class. It keeps a newest-first list of
  records, cut to `max_history` entries with Python slice rules after every
  insertion, and searched by id.
- `MailParse` (mail_parse.dfy): `_parse_email`. Headers are grouped by name,
  with `get_all` matching names case-insensitively. A name with one value keeps
  a string and any other name keeps a list. The first non-empty `text/plain`
  and `text/html` parts are decoded, and an unknown charset falls back to
  utf-8. Python's email library is supplied as the functions of a `Decoders`
  value.
- `Urlize` (urlize.dfy): `urlize_text`. The text is HTML-escaped and every
  match of `https?://[^\s]+` is wrapped in an anchor, leftmost first. Removing
  the anchors and unescaping gives the original text back. The output holds no
  markup besides the inserted anchors.
- `WebApi` (web_api.dfy): the `/api/mails` list without raw bytes, the detail
  endpoint and its 404, the HTML detail route's 404, and the `.eml` download
  with its `Content-Disposition` header.
- `Smtp` (smtp_handler.dfy): `handle_DATA` stores the content and answers `250 OK`.
- `JsonValue` and `ConfigMerge` (json_value.dfy, config_merge.dfy): JSON values,
  Python subscripting with its KeyError, TypeError and AttributeError, and the
  six merge lines both `load_config` functions run. Each line is a step that
  may raise. The steps run in order, and the assignments made before a failure
  stay in `CONFIG`.
- `PackageConfig` (package_config.dfy): src/mailorca/config.py. A missing file
  is silent and every other failure is reported.
- `LegacyConfig` (legacy_config.dfy): the root config.py. Every failure is
  reported, a missing file included.
- `Monolith` (monolith_config.dfy): the single-file mailorca.py's shallow
  `load_config`, `dict.update` with a JSON object or with an iterable of
  pairs. Its merge is contrasted with the per-section one.
- `Cli` (cli.dfy): `main`. It loads the file, raises logger levels by
  verbosity and calls `dictConfig`. Then every option whose click parameter
  source is not `DEFAULT` overrides the configuration. Finally it writes the
  configuration out and exits, or serves.

The single-file mailorca.py repeats the store, the parser, `urlize_text`,
`handle_DATA` and the routes with the same code. The same members model both.

`max_history` is a plain public attribute that callers may lower, set to zero
or make negative. The model therefore keeps it as a mutable field and states no
`len(mails) <= max_history` class invariant. `AddLength` gives the bound after
each insertion when the capacity is positive, and `AddNonPositiveCapacity`
gives what Python's slice does otherwise.

## Model

| member | source | states |
|---|---|---|
| Store.PyTake | src/mailorca/store.py:51-52 | `s[:n]` is a prefix of `s`; its length is `min(n, len)` for `n >= 0` and `max(0, len + n)` for negative `n`, as Python slices |
| Store.AddPrepends | src/mailorca/store.py:48-52 | with a positive capacity, the new record comes first and is followed by the newest `max_history - 1` old records in their old order |
| Store.AddLength | src/mailorca/store.py:48-52 | with a positive capacity, after `add` the store holds `min(old length + 1, max_history)` records, so it never exceeds the capacity |
| Store.AddNonPositiveCapacity | src/mailorca/store.py:48-52 | with `max_history == 0` the store empties; a negative capacity drops that many records from the end; the result is always a prefix of the new record followed by the old list |
| Store.AddedAllKeepsLast | src/mailorca/store.py:48-52 | adding records one by one to an empty store leaves the last `n` records added, newest first |
| Store.FindById | src/mailorca/store.py:54-66 | `get` returns None exactly when no record has the id, and otherwise the first record, in list order, whose id matches |
| Store.FindInPrefix | src/mailorca/store.py:63-66 | a record found in a prefix of the list is the one found in the whole list |
| Store.FindAfterAdd | src/mailorca/store.py:25-66 | right after `add` with a positive capacity, `get` of the new id returns the new record |
| Store.FindOtherAfterAdd | src/mailorca/store.py:25-66 | `add` never changes which record another id finds: that id finds the same record as before, or nothing once evicted |
| Store.AddKeepsIdsUnique | src/mailorca/store.py:40-52 | adding a record with an unused id keeps every id in the store distinct |
| Store.MailStore.constructor | src/mailorca/store.py:16-23 | a new store is empty, holds the given capacity, and satisfies its invariant |
| Store.MailStore.Entry | src/mailorca/store.py:40-47 | the stored record carries the given id, timestamp and raw bytes, and the parse of those bytes |
| Store.MailStore.Add | src/mailorca/store.py:25-52 | the new list is the old one with the new entry in front, trimmed to `max_history`; ids stay distinct |
| Store.FindUnique | src/mailorca/store.py:35-66 | when the ids are distinct, the record `get` finds is the only record with that id |
| Store.MailStore.Get | src/mailorca/store.py:54-66 | the loop returns what `FindById` specifies: the first matching record, or None; with distinct ids it is the only record with that id |
| MailParse.DecodeHeader | src/mailorca/store.py:90-95 | a header value is its RFC 2047 decoding, or the raw value when decoding raises |
| MailParse.DecodeAll | src/mailorca/store.py:85-95 | the decoded list has one entry per value, each the decoding of the value at the same position |
| MailParse.GetAllAppend | src/mailorca/store.py:84 | `get_all` keeps source order: on a concatenation it returns the matches of the first part, then those of the second |
| MailParse.GetAllEmpty | src/mailorca/store.py:84 | `get_all` returns nothing exactly when no header name matches the key |
| MailParse.GetAllMembers | src/mailorca/store.py:84 | every value `get_all` returns belongs to a header whose name matches the key, and every such header's value is returned |
| MailParse.GetAllSingle | src/mailorca/store.py:84-98 | `get_all` returns exactly one value exactly when exactly one header name matches |
| MailParse.GetAllIgnoresCase | src/mailorca/store.py:83-84 | `get_all` gives the same values for keys that differ only in letter case |
| MailParse.HeaderNames | src/mailorca/store.py:83-101 | the header table has exactly one key per header name as spelled in the message |
| MailParse.HeaderGrouping | src/mailorca/store.py:84-101 | a name with a single matching header maps to that header's decoded value; any other name maps to the decoded list of all its values, in order, with at least two entries |
| MailParse.CaseVariantsShareValue | src/mailorca/store.py:83-101 | two spellings of one name are separate keys holding the same grouped value |
| MailParse.DecodeValues | src/mailorca/store.py:85-95 | the inner loop decodes every value in order, falling back to the raw value |
| MailParse.GroupHeaders | src/mailorca/store.py:83-101 | the header loop builds exactly the grouped header table |
| MailParse.Charset | src/mailorca/store.py:112 | the charset is the part's declared charset when it is non-empty, and otherwise utf-8; it is never empty |
| MailParse.DecodePayload | src/mailorca/store.py:112-116 | the payload is decoded with the part's charset when Python knows that codec, and with utf-8 after a LookupError |
| MailParse.FirstBodyIsFirst | src/mailorca/store.py:104-127 | a body of a content type is missing exactly when no part of that type has a non-empty payload; otherwise it is the decoding of the first such part in walk order |
| MailParse.FirstBodyAppend | src/mailorca/store.py:107-127 | walking one more part changes the body only when none was found yet and that part is eligible |
| MailParse.FirstBodyKeepsFirst | src/mailorca/store.py:107-127 | once a body is found, later parts never replace it; the first one wins |
| MailParse.ExtractPart | src/mailorca/store.py:107-121 | a part fills a body slot only when the slot is empty and the part has that type and a non-empty payload; every other slot is unchanged |
| MailParse.ExtractBodies | src/mailorca/store.py:104-127 | the walk loop finds exactly the first eligible plain and HTML bodies, walking a single-part message as its only part |
| MailParse.ParseEmail | src/mailorca/store.py:68-133 | the parse is the header table plus the first plain and first HTML body of the library's parse of the bytes |
| Urlize.UnescapeEscape | src/mailorca/web.py:40 | HTML escaping loses nothing: unescaping the five entities gives the text back |
| Urlize.EscapeNoMarkup | src/mailorca/web.py:40 | escaped text contains no `<`, `>`, `"` or `'` |
| Urlize.SchemeLen | src/mailorca/web.py:42 | the scheme is `https://` (8 characters), `http://` (7) or absent |
| Urlize.RunLen | src/mailorca/web.py:42 | `[^\s]+` takes the longest run of non-whitespace characters |
| Urlize.UrlMatch | src/mailorca/web.py:42 | a URL starts here exactly when a scheme is followed by at least one non-whitespace character; the match extends past the scheme |
| Urlize.UrlMatchWhole | src/mailorca/web.py:42-46 | the matched URL on its own is matched in full, so the match is maximal |
| Urlize.UrlizeText | src/mailorca/web.py:37-38 | a missing or empty body yields the empty string; what a non-empty body yields is stated by `UrlizeReadsBack`, `UrlizeSafe` and `UrlizeLinksUrls` |
| Urlize.UpToQuote | src/mailorca/web.py:45 | reads an attribute value: the prefix before the first `"`, or the whole input when there is none |
| Urlize.AnchorAt | src/mailorca/web.py:45 | a recognised anchor is a real prefix of the output |
| Urlize.AnchorAtAnchor | src/mailorca/web.py:45 | an inserted anchor is recognised again with its URL |
| Urlize.LinkifyReadsBack | src/mailorca/web.py:42-47 | on escaped text, removing the inserted anchors gives the text back, so the substitution only wraps URLs |
| Urlize.LinkifySafe | src/mailorca/web.py:42-47 | on escaped text, the output holds markup characters only inside anchors whose URL is a whole match of the pattern |
| Urlize.LinkifyNoUrl | src/mailorca/web.py:42-47 | text with no URL is left as it is |
| Urlize.UrlizeReadsBack | src/mailorca/web.py:28-47 | removing the anchors gives the escaped body, and unescaping that gives the original body |
| Urlize.UrlizeSafe | src/mailorca/web.py:28-47 | for every body, the only markup in the output is the inserted anchors, so the body cannot inject HTML |
| Urlize.LinkifyUrls | src/mailorca/web.py:42-47 | on escaped text, the anchors of the output, read back from left to right, wrap exactly the leftmost non-overlapping matches of the pattern, in order |
| Urlize.MatchesAreMatches | src/mailorca/web.py:42 | every listed match is non-empty and a whole match of `https?://[^\s]+` on its own |
| Urlize.MatchesFindsUrl | src/mailorca/web.py:42-47 | when the pattern matches at any position of the text, at least one match is listed |
| Urlize.UrlizeLinksUrls | src/mailorca/web.py:28-47 | the anchors of `urlize_text(t)` wrap exactly the matches of the escaped body, in order; a body in which a URL occurs gets at least one anchor |
| Urlize.UrlizeWithoutUrl | src/mailorca/web.py:28-47 | a body without URLs is only escaped |
| WebApi.RestoreProject | src/mailorca/web.py:139-140 | the list summary loses only the raw bytes: adding them back gives the record |
| WebApi.ProjectForgetsOnlyRaw | src/mailorca/web.py:139-140 | two records have the same summary exactly when they differ at most in their raw bytes |
| WebApi.ApiList | src/mailorca/web.py:133-142 | the list has one entry per stored record, in store order, each that record without its raw bytes |
| WebApi.ApiListRestores | src/mailorca/web.py:133-142 | each list entry keeps the record's id and, with its raw bytes, is the stored record |
| WebApi.ApiDetail | src/mailorca/web.py:145-153 | an unknown id gives the 404 reply; a known one gives the found record without its raw bytes |
| WebApi.Detail | src/mailorca/web.py:100-105 | an unknown id gives the 404 "Mail not found"; a known one gives the record with that id |
| WebApi.DispositionReadsBack | src/mailorca/web.py:125-129 | the `Content-Disposition` value is the fixed prefix, then the id, then `.eml` |
| WebApi.DownloadRaw | src/mailorca/web.py:117-130 | the download fails with 404 exactly when the id is unknown; otherwise it carries the record's raw bytes as `message/rfc822` |
| WebApi.DownloadAfterAdd | src/mailorca/web.py:117-130 | right after a message is added, downloading its id gives back its bytes |
| Smtp.MailHandler.constructor | src/mailorca/smtp.py:10-14 | the handler uses the given store |
| Smtp.MailHandler.HandleData | src/mailorca/smtp.py:10-14 | the content is added to the store as `add` does, and the reply is `250 OK` |
| ConfigMerge.Loc | src/mailorca/config.py:64-73 | every merge line assigns at a path of at least one key |
| ConfigMerge.ApplyWrites | src/mailorca/config.py:64-73 | a merge line that succeeds stores its written value at its location and changes nothing else |
| ConfigMerge.WrittenIdempotent | src/mailorca/config.py:64-73 | writing a line's value twice is writing it once |
| ConfigMerge.ApplyStable | src/mailorca/config.py:64-73 | a line that succeeded changes nothing on a configuration that already holds what it wrote |
| ConfigMerge.ApplyFrame | src/mailorca/config.py:64-73 | a successful line leaves every location outside its own as it was |
| ConfigMerge.ApplyStores | src/mailorca/config.py:64-73 | after a successful line, its location holds what it wrote |
| ConfigMerge.MergeStepsIndependent | src/mailorca/config.py:64-73 | the six merge lines write at six pairwise separate locations |
| ConfigMerge.RunFrame | src/mailorca/config.py:64-79 | running the lines leaves every location none of them writes as it was, whether or not one raises |
| ConfigMerge.RunKeepsKeys | src/mailorca/config.py:64-79 | the merge neither adds nor removes a top-level key |
| ConfigMerge.RunIdempotent | src/mailorca/config.py:64-79 | lines with separate locations, run again on their own result, give the same outcome |
| ConfigMerge.RunWrites | src/mailorca/config.py:64-73 | when no line raises, each location holds the value its line wrote |
| ConfigMerge.RunStopsAtFailure | src/mailorca/config.py:64-79 | a raising merge keeps the assignments of the lines before the failing one, and not that line's |
| ConfigMerge.DefaultsWellShaped | src/mailorca/config.py:10-50 | the default configuration has the sections the merge lines subscript |
| ConfigMerge.MergeError | src/mailorca/config.py:64-79 | from well-shaped defaults, the merge raises exactly the exception the document's shape dictates and leaves the configuration well shaped |
| ConfigMerge.ApplyError | src/mailorca/config.py:64-73 | on a well-shaped configuration, a merge line raises exactly when the document's shape makes it raise, and keeps the shape otherwise |
| ConfigMerge.RunError | src/mailorca/config.py:64-79 | the error of a run of merge lines is the first line's error in order |
| ConfigMerge.FirstErrorOfMerge | src/mailorca/config.py:64-73 | the first error of the six lines is the exception the document's shape dictates: not a dict, a non-dict section, a non-dict `ui` |
| ConfigMerge.RunFixpoint | src/mailorca/config.py:64-73 | lines that each change nothing run through without error and change nothing |
| ConfigMerge.MergeEmptyChangesNothing | src/mailorca/config.py:64-73 | merging the empty document `{}` into a well-shaped configuration changes nothing and raises nothing |
| ConfigMerge.MergeIdempotent | src/mailorca/config.py:64-73 | merging the same document twice gives what merging it once gives |
| ConfigMerge.MergeKeepsOtherKeys | src/mailorca/config.py:64-73 | a top-level key the merge lines do not name keeps its value, and no key is added, so unknown user keys are dropped |
| ConfigMerge.MergeOverlaysSection | src/mailorca/config.py:64-65 | after a clean merge, `smtp` and `http` hold the default keys overlaid by the user's keys: user values win and omitted defaults stay |
| ConfigMerge.MergeReplacesValues | src/mailorca/config.py:66-73 | after a clean merge, `max_history` and `logging` are the user's value when given and the old value otherwise |
| ConfigMerge.MergeKeepsOtherUiKeys | src/mailorca/config.py:67-72 | a `ui` key other than the two merged ones keeps its value and its presence |
| ConfigMerge.MergeReplacesUiValue | src/mailorca/config.py:67-72 | after a clean merge, `ui.list_columns` and `ui.detail_headers` are the user's value when given and the old value otherwise |
| ConfigMerge.LoadIdempotent | src/mailorca/config.py:53-79 | loading the same file twice is loading it once; a file that cannot be used changes nothing |
| ConfigMerge.LoadKeepsShape | src/mailorca/config.py:53-79 | loading keeps a well-shaped configuration well shaped and keeps its top-level keys |
| ConfigMerge.Settings.constructor | src/mailorca/config.py:10-50 | `CONFIG` starts as the given defaults |
| ConfigMerge.Settings.Merge | src/mailorca/config.py:64-73 | the six assignments in place leave `CONFIG` as the step semantics says and report the first exception |
| PackageConfig.LoadConfig | src/mailorca/config.py:53-79 | a missing file is silent; an unreadable or malformed file is reported; a merge failure is reported with its exception, and the earlier assignments stay |
| PackageConfig.LoadIntoDefaults | src/mailorca/config.py:10-79 | from the package defaults, the merge raises only as the document's shape dictates |
| PackageConfig.EmptyDocumentKeepsDefaults | src/mailorca/config.py:10-73 | merging `{}` into the package defaults keeps them |
| LegacyConfig.LoadConfig | config.py:63-80 | every failure is reported, a missing file included; merge failures keep the earlier assignments |
| LegacyConfig.FailureKeepsEarlierAssignments | config.py:70-80 | a document with a list for `ui` raises AttributeError at the first `ui` line, and its `smtp` port and `max_history` stay in `CONFIG` |
| Monolith.LoadConfig | mailorca.py:58-68 | a missing file yields the defaults; it fails exactly when the file cannot be opened or decoded, or its document is neither a JSON object, nor the empty string, nor a list of pairs |
| Monolith.UpdatePairsSucceeds | mailorca.py:64 | `dict.update` with an iterable goes through exactly when every element is a pair |
| Monolith.UpdatePairsKeys | mailorca.py:64 | a pairs update keeps the old keys, adds the pairs' keys and nothing else, and leaves keys no pair names unchanged |
| Monolith.LastPairWins | mailorca.py:64 | among pairs with the same key, the last one's value ends up in the configuration |
| Monolith.EmptyIterableKeepsDefaults | mailorca.py:63-65 | a document that is the empty string or the empty list yields the defaults unchanged |
| Monolith.ShallowMerge | mailorca.py:63-65 | `dict.update`: every user key wins with its whole value, omitted default keys stay, and nothing else appears |
| Monolith.DefaultSmtp | mailorca.py:22-55 | the default `smtp` section is host `127.0.0.1`, port 1025 |
| Monolith.ShallowDropsNestedDefaults | mailorca.py:58-68 | a user `smtp` section with only a port replaces the default section, losing the host, and unknown keys are kept |
| ConfigMerge.OverlayKeepsHost | src/mailorca/config.py:64 | the per-section merge of a port-only `smtp` section keeps the old host |
| Monolith.PerSectionKeepsNestedDefaults | src/mailorca/config.py:64-73 | in contrast with the shallow merge, the same document under the later per-section merge keeps the default host and drops unknown keys |
| Cli.Assign | src/mailorca/cli.py:111-132 | a nested assignment succeeds exactly when the subscripts do, stores the value at its path, and adds at most its top-level key |
| Cli.AssignOther | src/mailorca/cli.py:111-132 | a nested assignment leaves every location outside its path unchanged |
| Cli.MailorcaLevel | src/mailorca/cli.py:110-113 | the `mailorca` logger becomes DEBUG when `verbose > 1`, INFO when `verbose == 1`, and is untouched when `verbose <= 0` |
| Cli.RootLevel | src/mailorca/cli.py:114-117 | the root logger becomes DEBUG when `verbose > 11`, INFO when `verbose == 11`, and is untouched when `verbose <= 10` |
| Cli.VerbositySetsLevels | src/mailorca/cli.py:110-117 | after the verbosity handling, each logger level holds the chosen level, or its old value when none is chosen |
| Cli.VerbosityFrame | src/mailorca/cli.py:110-117 | the verbosity handling changes nothing outside `logging` |
| Cli.VerbositySucceeds | src/mailorca/cli.py:110-117 | with the `loggers.mailorca` and `root` dictionaries present, the verbosity handling never raises |
| Cli.VerbosityNeedsLoggers | src/mailorca/cli.py:110-113 | a logging section without `loggers` makes any positive verbosity raise KeyError, changing nothing |
| Cli.VerbosityKeepsShape | src/mailorca/cli.py:110-117 | the verbosity handling keeps the top-level keys and the shape of a well-shaped configuration |
| Cli.Options | src/mailorca/cli.py:122-132 | there are five overridable options, each writing at a non-empty path |
| Cli.OverridesFrame | src/mailorca/cli.py:122-132 | the overrides leave every location outside their paths unchanged |
| Cli.OverridesWrite | src/mailorca/cli.py:122-132 | when no override raises, each option's path holds its value if click did not default it, and keeps its old value otherwise |
| Cli.OptionPathsDiverge | src/mailorca/cli.py:122-132 | the five option paths are pairwise separate and none is under `logging` |
| Cli.AssignKeepsShape | src/mailorca/cli.py:123-132 | on a well-shaped configuration, each option assignment succeeds and keeps the shape |
| Cli.OverridesSucceed | src/mailorca/cli.py:122-132 | on a well-shaped configuration, the overrides never raise and keep the shape |
| Cli.CommandLineBeatsFile | src/mailorca/cli.py:107-156 | when `main` writes or serves, each option set on the command line or otherwise not defaulted has the final word over the file, and each defaulted one keeps the file's value |
| Cli.GenConfigExits | src/mailorca/cli.py:134-156 | `--gen-config` writes the final configuration and never serves; without it the final configuration is served with the reload flag, never written |
| Cli.LaunchFromWellShaped | src/mailorca/cli.py:107-156 | from well-shaped defaults, `main` crashes only in the verbosity handling; with loggers present, no level changes and logging accepted, it writes or serves |
| Cli.RaiseLevels | src/mailorca/cli.py:110-117 | the in-place assignments leave `CONFIG` and the error as the verbosity semantics says |
| Cli.SetOption | src/mailorca/cli.py:123-132 | one `if` assigns the option's value in place when it was not defaulted, and leaves `CONFIG` alone otherwise |
| Cli.OverrideOptions | src/mailorca/cli.py:122-132 | the five `if`s in place leave `CONFIG` and the error as the override semantics says |
| Cli.Start | src/mailorca/cli.py:101-156 | `main` leaves `CONFIG` and ends as the launch semantics says: crashed, logging rejected, configuration written, or served |

## Left out

- I/O: opening and reading files, `json.dump` of `--gen-config` and its temporary file name, printing, `click.echo`, and the text of exception messages. A file reaches the model as missing, unreadable, malformed or a parsed document.
- `uuid.uuid4()` and `time.time()` are parameters of `Add` and `HandleData`. The id is required to be unused, as a random 128-bit id is in practice.
- Concurrency: the asyncio event loop, the `sys.platform == "win32"` event-loop policy, and the threads of the SMTP and HTTP servers.
- aiosmtpd's session, envelope and protocol, FastAPI routing and status text beyond the 404s, Jinja templates, the index page and uvicorn's server. `Served` records the configuration and the reload flag handed to uvicorn; the reload flag has no further effect.
- `logging.config.dictConfig` is the `accepts` parameter of `Launch`. Whether it accepts a logging section is not modelled.
- Python's email library: `message_from_bytes`, RFC 2047 header decoding and codec lookup and decoding are the functions of a `Decoders` value.
- `MailParse.Lower` lower-cases ASCII letters only, whereas Python's email library compares header names with full Unicode `str.lower`.
- A codec that raises something other than LookupError is not modelled; `errors="replace"` makes decoding itself total.
- JSON numbers are integers: floating point values are left out. JSON object key order is not kept.
- Aliasing is not modelled:
  - the single-file `load_config` returns `DEFAULT_CONFIG` itself when the file is missing;
  - its `copy()` shares the nested section dictionaries with `DEFAULT_CONFIG`;
  - the merge lines mutate `CONFIG`'s nested dictionaries in place.
- `Monolith.LoadConfig`: two kinds of list element are reported as `UpdateFailed` although Python's `dict.update` accepts them. One is a pair whose key is a number, a boolean or null: Python takes these as dictionary keys, but configuration keys are strings here. The other is a JSON object with exactly two keys, which Python reads as a pair of those keys, in an order the model does not keep. Partial updates before a failing element are not modelled either, because the exception escapes and the copy is discarded.
- `|` on a section that is not a dictionary is modelled as TypeError, although Python's `|` succeeds on two integers (bitwise or) or two booleans. From the defaults every overlaid section is a dictionary, so the merge never meets this case.
- `non-dict.get` is modelled as AttributeError and `dict | non-dict` as TypeError, which are the exceptions Python raises for them.
- The module-level `STORE = MailStore(max_history=CONFIG["max_history"])` is the constructor called with that value; when the module is imported is not modelled.
- A `max_history` that is not an integer is not modelled: the field's type is `int`. When the user's file gives a string, null, a list or an object, the source's `len(self.mails) > self.max_history` raises TypeError on every `add`, so every SMTP DATA command fails.
- click's option declarations, their defaults and types (src/mailorca/cli.py:39-88): options reach `Cli.Args` with a value and a parameter source.
- `Cli.Start` is written against the package's `load_config` (src/mailorca/config.py). The root config.py is modelled only as `LegacyConfig.LoadConfig`.
- The logger calls of `main`, and the `except` around `uvicorn.run` that only logs.
- runserver.py and the tests are not part of this model.
