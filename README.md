# Blizzard, the deterministic core

Blizzard predicts snow days. A group chat of language-model agents reads
the evening and overnight weather, the district's closure criteria and
its settings. Blizzard, the last agent, gives a verdict. The script then
records the conversation, prepends the prediction to a history file and
stamps the deployment environment into the web pages.

The chat itself, with its turn-taking and its termination, runs in a
foreign agent library. This project models the code around those calls:

- the two parsers that turn the selection and termination prompts'
  replies into decisions (module `Agents`);
- the loop that records the conversation and keeps the last verdict
  (`Recorder`);
- the in-memory part of the history update (`History`);
- the criteria file choice (`Criteria`);
- the settings text given to the agents, and the error fallback around
  it (`Settings`);
- the environment lookup and the history path it picks (`Env`);
- the rate-limit retry and backoff loop (`Retry`);
- the extraction of the evening and morning weather windows and of the
  first alert (`Weather`);
- the page rewrites that inject the environment (`Inject`).

Python's own building blocks are modelled where the core relies on them:

- `strip`, `upper`, `lower`, `in`, `replace`, `split` and `int()` on
  strings (`Text`);
- decoded JSON and YAML values, with subscripting, `dict.get`, iteration,
  truthiness and `str()` (`Json`).

Code that raises returns a `Result` or an `Option`, so each `try`/`except`
of the source becomes an explicit case split. A `Result` carries the Python
exception kind; in the retry loop it carries the message instead. An
`Option` gives None where the source raises and the kind is never looked at.
Imperative code is modelled as methods with loops. Each method is proved
equal to a specification function, or its contract states the source's
promise outright.

## Model

| member | source | states |
|---|---|---|
| Text.Strip | main.py:183 | `str.strip()`: the result is empty exactly when the text is all whitespace, otherwise it starts and ends with a non-space; text without surrounding whitespace is returned unchanged |
| Text.StripSlice | main.py:183 | `str.strip()` is a slice of the text with only whitespace before it and only whitespace after it |
| Text.StripPadded | main.py:411 | stripping removes trailing whitespace from a word that has none of its own |
| Text.Upper | main.py:413 | `str.upper()` keeps the length and upper-cases each character |
| Text.Lower | main.py:120 | `str.lower()` keeps the length and lower-cases each character |
| Text.ReplaceAll | scripts/inject_env.py:37-39 | `str.replace` with a non-empty pattern and a replacement of the same length keeps the length of the text |
| Text.ReplaceWithoutMatch | scripts/inject_env.py:37-39 | `str.replace` leaves text without an occurrence of the pattern unchanged |
| Text.ReplaceLeftmost | scripts/inject_env.py:37-39 | `str.replace` replaces the leftmost occurrence, keeps what precedes it and carries on after it |
| Text.ReplaceKeepsPrefix | scripts/inject_env.py:37-39 | `str.replace` keeps unchanged the text before the first position where the pattern could start |
| Text.ReplaceOnlyAt | scripts/inject_env.py:37-39 | a non-empty pattern occurring at exactly one position is replaced there, and the text before and after it is kept |
| Text.ReplaceConcat | scripts/inject_env.py:37-39 | when no occurrence crosses the join, replacing in a concatenation is replacing in each part |
| Text.Before | weather/weather_data.py:107 | `split(c)[0]`: the longest prefix without `c`, followed by `c` when shorter than the text |
| Text.After | weather/weather_data.py:107 | the text after the first `c`, absent exactly when `c` does not occur; the text is prefix, `c`, rest |
| Text.SplitAtFirst | weather/weather_data.py:107 | splitting `a + c + b` with `c` not in `a` gives back `a` and `b` |
| Text.ParseIntSpec | weather/weather_data.py:107 | `int()` succeeds exactly when the stripped text is a run of digits, optionally after one sign; the value is negative only after a minus sign |
| Text.IntRoundTrip | weather/weather_data.py:107 | `int()` reads back the decimal text of every integer |
| Text.IntToStringInjective | weather/weather_data.py:111-133 | different hours render as different decimal texts |
| Json.Lookup | main.py:231-233 | a dict lookup finds a value exactly when the key is present, and the value is the one stored under it |
| Json.Store | main.py:292-294 | assigning a key makes it hold the new value, leaves every other key alone and keeps the size when the key existed |
| Json.StoreKeepsKeys | main.py:292-294 | assigning a key that is already present keeps every key of the dict in its place |
| Json.Iterate | main.py:253-255 | `for x in v` works on lists, strings and dicts only, and visits nothing exactly when `v` is falsy; a list gives its items, a string its one-character strings and a dict its keys, in order |
| Agents.AgentMap | main.py:418 | every value of the agent map is an agent of the roster whose upper-cased name is its key |
| Agents.AgentMapSpec | main.py:418 | the agent map has the upper-cased name of every agent as a key, and each key maps to the last agent with that upper-cased name |
| Agents.AgentMapKeys | main.py:418 | every agent's upper-cased name is a key of the agent map |
| Agents.AgentMapValues | main.py:418 | each key of the agent map is held by the last agent of the roster whose upper-cased name it is |
| Agents.SelectionParser | main.py:409-419 | a TERMINATE, NONE or blank reply, after strip and upper-casing, gives the last message's speaker, or None for an empty history; any other reply gives a value exactly when an agent's upper-cased name equals it, and that value is the agent's own name |
| Agents.SelectionIsRegistered | main.py:413-419 | if the history names only agents of the roster, the parser returns None or a registered agent |
| Agents.SelectByName | main.py:417-419 | with the real roster, a reply spelling an agent's name in any case and padding selects that agent |
| Agents.RosterLengthsDistinct | main.py:52-55 | the four agent names have different lengths, none of them the length of TERMINATE |
| Agents.TerminationParser | main.py:441 | the chat ends exactly when the upper-cased reply, not stripped, is TERMINATE |
| Agents.TerminationNeedsExactReply | main.py:441 | a reply that begins or ends with whitespace never ends the chat |
| Agents.PaddedTerminateDisagrees | main.py:411-415 | TERMINATE followed by whitespace does not end the chat, yet the selection parser reads the same reply as no new speaker |
| Recorder.RecordConversation | main.py:465-482 | one entry per response, in order, with role, name and content; the decision is None exactly when no response is Blizzard's with the verdict marker, otherwise it is the content of the last such response |
| History.UpdateHistory | main.py:266-302 | an empty conversation writes nothing; otherwise the new record comes first and is exactly the dict of `id` (the date), `timestamp`, `prediction` (the decision), `actual` (null) and `details` (the last message's content), in that order, and the earlier records follow in order; a malformed history is replaced by one holding only the predictions, and a well-formed one keeps every other key with its value and its place |
| History.LookupFirst | main.py:283-289 | a record field is read from the first entry carrying its key |
| History.RecordFields | main.py:283-289 | each of the five fields of a new record is found under its own key |
| History.RerunSameDay | main.py:284-294 | two runs on one day leave two records with the same id, the later run first, and nothing is merged |
| Criteria.ReadCriteria | main.py:164-212 | the stripped content of the first location, in order of preference, whose stripped content is not empty; the default text when there is none |
| Settings.FieldOr | main.py:233-249 | a missing field renders as `N/A`, a present one as `str()` of its value |
| Settings.NoteLinesAppend | main.py:255-256 | the note lines of two lists of notes are the lines of the first followed by those of the second |
| Settings.NoteLinesSnoc | main.py:255-256 | one more note adds exactly its own line at the end |
| Settings.NoteLinesAt | main.py:255-256 | the `k`-th note line is the line of note `k` |
| Settings.NoteLinesStep | main.py:255-256 | the lines of the first `i + 1` notes are those of the first `i` followed by the line of note `i` |
| Settings.NotesSectionIffTruthy | main.py:252-256 | the notes section appears exactly when the `notes` setting is truthy |
| Settings.AppendNotes | main.py:255-256 | the note loop appends one `- note` line per note, in order |
| Settings.FormatSections | main.py:228-249 | the header and the three sections, or nothing when a section is not a dict |
| Settings.FormatNotes | main.py:252-256 | nothing for falsy notes; fails exactly when the notes cannot be iterated; else the heading and one line per note |
| Settings.FormatSettingsForAgents | main.py:223-258 | falsy settings give the fixed no-settings text; otherwise the call raises exactly when the settings, a section or the notes have the wrong type, and else gives the header, the three sections and the notes section |
| Settings.LoadDistrictContext | main.py:338-346 | when formatting raises, both texts are the error texts; otherwise the criteria are the chosen ones and the settings text is the rendering |
| Env.BlizzardEnv | scripts/inject_env.py:23 | an unset variable means `development`, a set one its value |
| Env.HistoryFile | main.py:260-264 | the history path is `static/history.json` exactly when the environment is `production`, and `static/history_local.json` exactly when it is not |
| Env.UnsetEnvIsLocal | main.py:262-264 | with the variable unset or not `production`, the local history file is used |
| Retry.BackoffSchedule | main.py:88-93 | the waits are 4, 8 and 16 seconds, then 30 for every later retry |
| Retry.BackoffMonotone | main.py:121 | the wait never shrinks and never exceeds 30 seconds |
| Retry.SendWithRetry | main.py:114-125 | at most five attempts; every attempt but the last failed with a rate-limit error; a failure leaves at once unless it is a rate limit with attempts left; the result is the last attempt's; wait `k` is backoff `k` |
| Retry.WaitsArePrefix | main.py:114-125 | the waits slept are a prefix of 4, 8, 16, 30 |
| Weather.EveryMetricListed | weather/weather_data.py:111-133 | the metric list holds every metric |
| Weather.MetricNameInjective | weather/weather_data.py:111-133 | different metrics have different key suffixes |
| Weather.AlertNameInjective | weather/weather_data.py:172-178 | different alert fields have different source names |
| Weather.SeparatorSplit | weather/weather_data.py:111-133 | two texts that agree up to a separator absent from both middles have the same middles and tails |
| Weather.KeyTextHead | weather/weather_data.py:111-178 | hour keys start with `h` and alert keys with `w` |
| Weather.KeyTextInjective | weather/weather_data.py:111-178 | two keys with the same text are the same key, so the text keys can stand for the structured ones |
| Weather.HourOf | weather/weather_data.py:106-107 | an hour is read only from a dict entry |
| Weather.TwoDigitsValue | weather/weather_data.py:107 | a zero-padded hour holds no separator and reads back as the hour |
| Weather.HourField | weather/weather_data.py:107 | the hour field of a `date HH:rest` text is `HH` |
| Weather.HourOfTimestamp | weather/weather_data.py:106-107 | an entry timed `YYYY-MM-DD HH:MM` has hour `HH` |
| Weather.RowOfSpec | weather/weather_data.py:111-133 | a row fails with the first metric that cannot be read, and otherwise holds exactly the listed metrics of the hour, each with the entry's value |
| Weather.Row | weather/weather_data.py:111-133 | a kept hour contributes exactly its metrics, each read from the entry, with `snow_cm` 0 when absent |
| Weather.HourlyErrorSticks | weather/weather_data.py:105-133 | once an entry raises, later entries change nothing |
| Weather.HourlyPrefixStep | weather/weather_data.py:105-133 | the loop over one more entry is the loop so far followed by that entry's step, and an earlier failure stays |
| Weather.StepKept | weather/weather_data.py:109-133 | an entry inside the window adds its row to what was gathered |
| Weather.StepSkipped | weather/weather_data.py:109 | an entry outside the window adds nothing |
| Weather.StepOk | weather/weather_data.py:105-133 | one step succeeds exactly when the entry's hour can be read and, inside the window, its row as well |
| Weather.HourlyOk | weather/weather_data.py:105-133 | the loop succeeds exactly when every entry succeeds |
| Weather.HourlyKeys | weather/weather_data.py:109-133 | every key gathered is an hour key inside the window |
| Weather.HourlyLatest | weather/weather_data.py:111-133 | each metric of a kept hour holds the value of the last entry with that hour |
| Weather.HourlyComplete | weather/weather_data.py:109-133 | every entry inside the window contributes every metric of its hour |
| Weather.LastIndexWithHour | weather/weather_data.py:111-133 | every hour read from an entry has a last entry carrying it |
| Weather.GetHourlyForecastData | weather/weather_data.py:84-135 | the loop computes the specification; an empty list gives an empty map; every key lies in the window |
| Weather.AlertRecordOfSpec | weather/weather_data.py:172-178 | the alert record holds exactly the listed fields, each with the alert's value |
| Weather.AlertRecord | weather/weather_data.py:172-178 | the five alert keys, each with the alert's field, and no other key |
| Weather.AlertsSpec | weather/weather_data.py:170-178 | alert keys appear exactly when there is an alert list with an entry, and they hold the first alert's fields |
| Weather.WindowHours | weather/weather_data.py:162-167 | a window holds only hour keys inside its bounds |
| Weather.ReadWindow | weather/weather_data.py:162-167 | reading a window computes its specification, and every key is an hour key inside the bounds |
| Weather.RelevantHours | weather/weather_data.py:162-167 | every hour reported lies from 19 to 23 or from 0 to 7 |
| Weather.KeyErrorIsCaught | weather/weather_data.py:180-183 | a missing key never escapes, and one in the evening window yields an empty map |
| Weather.EveningKept | weather/weather_data.py:158-183 | once the evening window is read, its entries reach the result unchanged, even when a later step misses a key |
| Weather.FirstAlert | weather/weather_data.py:170-178 | the alert step computes the alert specification, and every key it gathers is an alert key |
| Weather.GetRelevantWeatherInformation | weather/weather_data.py:137-183 | the extraction computes the specification, and every hour key lies in the two windows |
| Inject.InjectPlaceholder | main.py:315 | a page without the placeholder is returned unchanged |
| Inject.InjectEnv | scripts/inject_env.py:36-39 | a page with none of the three patterns is returned unchanged; a page with neither known meta value gets the same rewrite as in `main` |
| Inject.Overlapping | scripts/inject_env.py:37-39 | an occurrence of a pattern absent from the text around a value overlaps that value, through the pattern's first character or the value's first character |
| Inject.UntagDevelopment | scripts/inject_env.py:37 | the first rewrite turns `content="development"` into `content="{{ env }}"` and leaves the other two meta values and the surrounding text alone |
| Inject.RetagProduction | scripts/inject_env.py:38 | the second rewrite turns `content="production"` into `content="{{ env }}"`, leaves the template alone and keeps the surrounding text |
| Inject.FillPlaceholderMeta | scripts/inject_env.py:39 | `content="{{ env }}"` becomes `content="<env>"` and the surrounding text is kept |
| Inject.Reinject | scripts/inject_env.py:36-39 | a page carrying `content="development"` or `content="production"` comes out carrying `content="<env>"` with all else kept |
| Inject.InjectTemplate | scripts/inject_env.py:36-39 | a templated page comes out carrying `content="<env>"` with all else kept |
| Inject.TemplateDefaultsToDevelopment | scripts/inject_env.py:23-39 | with the environment unset, a templated page comes out as the development page |
| Inject.PlaceholderLeftmost | main.py:315 | the first placeholder is replaced by the environment, the text before it kept, and the rewrite goes on after it |

## Left out

- File, YAML and JSON input and output: reading the criteria files, the settings file, the history file, the prompts and the pages, and writing the data, history and page files. The text read or the decoded value is a parameter, and what would be written is the result.
- The agent library, the kernels, the agents, the kernel functions behind the two strategies and their iteration ceiling of 20. These are a foreign library and language-model calls. Only the result parsers are modelled; the recorder takes the responses as a sequence.
- The network: the weather API client and the OpenAI requests. `SendWithRetry` takes the outcome of each attempt as a function of the attempt number.
- Retry.SendWithRetry: does not model the initial wait to keep two seconds between requests or `_last_request_time`, because both need the clock. Waits are whole seconds rather than floats.
- Logging and the startup code (environment file loading, exit codes, kernel construction).
- Floating-point values: the weather payload and the settings values rendered at main.py:242. The `Json` model has integers only.
- Text.Upper, Text.Lower: Unicode case mapping is modelled for ASCII letters only.
- Text.Strip: covers the Latin-1 whitespace characters only, not the whole Unicode whitespace class.
- Text.ParseInt: `int()` accepts digits with an optional sign and surrounding whitespace. Underscores and non-ASCII digits are not modelled.
- Json.Repr: strings are quoted with `'` and without escaping, so `str()` of a nested value is exact only for printable text without `'` or backslashes.
- Weather: the relevant-weather dict is a map from structured keys. The text form of each key is rendered and proved injective, but the insertion order of the Python dict is not kept.
- Recorder.RecordConversation: an exception raised by the chat while responses arrive (main.py:484-488) is not modelled; the source re-raises it and writes nothing.
- Inject: the loop over the two page files and its per-file error reporting are I/O and are left out.
- Inject.UntagDevelopment, Inject.RetagProduction: stated for a page with one meta value and none of the three patterns in the text around it.
- Inject.FillPlaceholderMeta: stated for a page whose text around the template holds none of the three patterns.
- Inject.Reinject: stated for a page with one meta value and none of the three patterns elsewhere. Pages with several occurrences are covered only by the general replace lemmas.
- Inject.InjectTemplate: stated for a page with one template and none of the three patterns elsewhere. Pages with several occurrences are covered only by the general replace lemmas.
- Inject.TemplateDefaultsToDevelopment: stated for a page with one template and none of the three patterns elsewhere. Pages with several occurrences are covered only by the general replace lemmas.
