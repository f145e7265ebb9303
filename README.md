# flask-telegram-bot core, in Dafny

This project models the message-handling core of a Flask-based Telegram bot.
It covers:

- **Bot commands.** Reading bot commands and their parameters out of a
  message's text and its `bot_command` entities.
- **MarkdownV2 rendering.** Turning a message and its formatting entities
  (bold, italic, code, links, mentions, …) into Telegram MarkdownV2 text. This
  is a recursive walk over entities nested inside one another, with
  per-context escaping.
- **Entity decoding.** Building a message entity from its Bot API JSON object.
- **The dispatcher.** Its bot-token parsing, API endpoint construction, the
  class-level registry of dispatchers, handler registration, and
  `process_update`, which feeds an update to each handler until one stops it.
- **`email_list`.** Splitting a delimited list of addresses, each with an
  optional (possibly quoted) display name, using the regular expression of
  `common/__init__.py`.
- **Users.** Decoding a Telegram user from JSON, and the user's subscriber and
  admin standing per bot.
- **Chats and chat types.** Decoding a chat and its chat type (name to
  one-letter code), and marking a group chat as an admin or forward channel
  of a bot.
- **The log formatter.** It adds a `relpath` field to each log record: the
  record's path relative to a configured base directory.

## How the model is organised

Each core source file has its own module. Shared helpers live in their own
modules:

- `Wrappers`: `Option` and `Result`.
- `PyValue`: a JSON/Python value, truthiness and `dict.get`.
- `PyStr`: `str.strip`, `str.split`, `str.find`, `str.join`, ASCII `lower`
  and `int()` on text in ASCII decimal digits.
- `OrderedMaps`: an insertion-ordered dictionary.
- `MessageEntity`: the entity record and its decoder.
- `EntityOrder`: the two-pass stable sort of entities.

The imperative parts of the source are classes with fields, methods carry
`modifies` clauses, and state changes are spelled out in the `ensures`
clauses. These classes are:

- the renderer's shared `processed_entities` list;
- the dispatcher and its registry;
- users, chats and their database tables;
- the formatter and its log records.

The loops and the recursive methods are proved equal to specification
functions, and the properties the source promises are lemmas about those
functions. Examples:

- `GetBotCommands` equals `Commands`.
- `MarkdownRenderer.ProcessEntity` equals `ProcessF`.
- `BotDispatcher.ProcessUpdate` equals `Dispatch`.

The table methods of users, chats and the registry, the chat-type setters and
the token setter state the new state directly in their `ensures`: which rows
change, to what, and that every other row is unchanged.

Quirks of the source are modelled as written:

- **Command keys.** A command key is
  `text[offset:length]`, not `text[offset:offset+length]`.
- **Cursor rewind.** After a nested entity is rendered, the renderer's cursor
  moves back to that entity's end, so text the entity already covered is
  emitted again.
- **`BotDispatcher.get`.** It always builds and registers a fresh dispatcher
  before its lookup.
- **Path prefix test.** The log formatter compares paths character by
  character, so a sibling directory whose name extends the base directory's
  name also counts as "under" the base.

The first, second and fourth are stated by lemmas (`OffsetLengthSlice`,
`CursorRewindRepeatsText`, `SiblingDirectoryMatches`); the third is stated
by the `ensures` of `Registry.Get`.

Where the source is handed a value of the wrong type, the model reports an
error. These cases are marked in "Left out" below.

## Model

| member | source | states |
|---|---|---|
| MessageEntity.FromDict | app/models/bot_api/telegram_message_entity.py:66-92 | `type`, `offset`, `length` are required, and a missing one is reported in the source's reading order; bot, chat and message ids come from the arguments; `url` and `language` are `None` when absent or null and otherwise the given string; a user is attached exactly when `user` is truthy, and it is the `id` of the nested object |
| MessageEntity.DecodeEncode | app/models/bot_api/telegram_message_entity.py:82-92 | decoding the JSON form of any entity gives back that entity |
| MessageEntity.AnyRangeAccepted | app/models/bot_api/telegram_message_entity.py:83-85 | any offset and length, negative included, is accepted without validation |
| PyValue.Get | app/models/bot_api/telegram_user.py:70-77 | `d.get(k, None)`: the stored value when present, `None` otherwise |
| EntityOrder.SortEntities | app/models/bot_api/telegram_message.py:234-240 | the sorted list has as many entities as the input |
| EntityOrder.SortIsPermutation | app/models/bot_api/telegram_message.py:234-240 | the sort is a permutation: each output position holds the entity of a distinct input position, and every input position is used |
| EntityOrder.SortIsStableByOffsetThenLength | app/models/bot_api/telegram_message.py:235-238 | output ordered by offset ascending, then length descending; ties on both keep input order (stability of both `sorted` passes) |
| EntityOrder.LongerFirst | app/models/bot_api/telegram_message.py:235-238 | of two entities at the same offset the longer one comes first |
| EntityOrder.SortOrder | app/models/bot_api/telegram_message.py:234-240 | the sort order is a sorted arrangement of exactly the input positions |
| OrderedMaps.Put | app/models/bot_api/telegram_message.py:217-218 | `OrderedDict` assignment: the value is stored, a new key is appended to the key order, an existing key keeps its place |
| OrderedMaps.PutValid | app/models/bot_api/telegram_message.py:208-219 | assignment keeps the key order duplicate-free and equal to the key set |
| BotCommands.Params | app/models/bot_api/telegram_message.py:216 | the parameters are never an empty list (`split(" ")` of a stripped tail) |
| BotCommands.GetBotCommands | app/models/bot_api/telegram_message.py:200-219 | the loop over the entities computes `Commands(text, entities)` |
| BotCommands.Commands | app/models/bot_api/telegram_message.py:212 | a message without string text has no commands |
| BotCommands.CommandKeys | app/models/bot_api/telegram_message.py:213-218 | a key is present exactly when some `bot_command` entity slices to it |
| BotCommands.FirstCommandWins | app/models/bot_api/telegram_message.py:217-218 | a key maps to the parameters of its first command entity |
| BotCommands.OtherEntitiesIgnored | app/models/bot_api/telegram_message.py:214 | an entity that is not a `bot_command` changes nothing |
| BotCommands.Token | app/models/bot_api/telegram_message.py:215 | the key is Python's `text[offset:length]`: the characters from `offset` up to `length`, empty when `length <= offset` |
| BotCommands.KeysInFirstOccurrenceOrder | app/models/bot_api/telegram_message.py:213-218 | keys appear in the order of their first command entities: for a key before another, its first entity comes before the other's, and every entity with the later key has one with the earlier key before it |
| BotCommands.CommandStep | app/models/bot_api/telegram_message.py:213-218 | one more entity appends a new command key with its parameters, and otherwise leaves the result as it was |
| BotCommands.CommandsValid | app/models/bot_api/telegram_message.py:208-219 | the result is a well-formed ordered dict |
| BotCommands.StartExample | app/models/bot_api/telegram_message.py:215-216 | `"/start hello world"` gives `{"/start": ["hello", "world"]}` |
| BotCommands.StartEntry | app/models/bot_api/telegram_message.py:214-216 | the command over `"/start"` yields the key `"/start"` and the arguments `["hello", "world"]` |
| BotCommands.OffsetLengthSlice | app/models/bot_api/telegram_message.py:215 | the key is `text[offset:length]`: a command at offset 3 of length 6 in `"hi /start x"` is keyed `"/st"` |
| MarkdownV2.Escape | app/models/bot_api/telegram_message.py:289-293 | `re.sub` with the escape set: escaping adds one backslash per character of the set |
| MarkdownV2.EscapeConcat | app/models/bot_api/telegram_message.py:289-293 | escaping distributes over concatenation |
| MarkdownV2.EscapeIdentity | app/models/bot_api/telegram_message.py:289-293 | text with no character of the set is unchanged |
| MarkdownV2.EscapeRoundTrip | app/models/bot_api/telegram_message.py:124-133 | removing the backslashes gives the original text back when the set contains `\` or the text has none |
| MarkdownV2.Wrap | app/models/bot_api/telegram_message.py:313-340 | the top-level call returns the text as it is; wrapping fails exactly for `url`/`text_link` without a URL (the `assert`) |
| MarkdownV2.WrapByKind | app/models/bot_api/telegram_message.py:313-340 | when wrapping succeeds, the text is put between the kind's delimiters |
| MarkdownV2.WrapPre | app/models/bot_api/telegram_message.py:325-328 | a `pre` block opens with the language line when there is one, else with a newline when the content starts with a backslash |
| MarkdownV2.Collect | app/models/bot_api/telegram_message.py:273-282 | the nested entities are exactly the unprocessed, contained, distinct ones after the scan position, in sorted order |
| MarkdownV2.Children | app/models/bot_api/telegram_message.py:273-282 | every collected child is an entity not yet processed |
| MarkdownV2.CollectStep | app/models/bot_api/telegram_message.py:274-282 | one scan step appends the entity exactly when it is nestable |
| MarkdownV2.ProcessF | app/models/bot_api/telegram_message.py:242-341 | a call marks its own entity processed and never unmarks one |
| MarkdownV2.LoopF | app/models/bot_api/telegram_message.py:284-299 | the loop over nested entities never unmarks an entity |
| MarkdownV2.RenderTrace | app/models/bot_api/telegram_message.py:270-298 | the entities a call visits start with its own, repeat none, and are exactly the ones it newly marks |
| MarkdownV2.LoopTrace | app/models/bot_api/telegram_message.py:284-299 | the loop extends the visit trace by exactly the entities it newly marks, each once |
| MarkdownV2.ProcessResult | app/models/bot_api/telegram_message.py:284-311 | a call's output is the loop's chunks plus the trailing chunk, joined and wrapped; loop errors propagate |
| MarkdownV2.LoopSkip | app/models/bot_api/telegram_message.py:297-299 | an already processed child is skipped, and the cursor jumps to its end |
| MarkdownV2.LoopEnter | app/models/bot_api/telegram_message.py:287-299 | an unprocessed child adds the escaped gap before it and its own rendering, and the cursor moves to its end |
| MarkdownV2.LoopFail | app/models/bot_api/telegram_message.py:297-298 | a child's failure ends the loop with that failure |
| MarkdownV2.LoopChild | app/models/bot_api/telegram_message.py:296-299 | an entered child that fails ends the loop at its offset; one that renders adds its text and moves the cursor to its end |
| MarkdownV2.LoopDone | app/models/bot_api/telegram_message.py:285 | the loop ends with the chunks gathered |
| MarkdownV2.SortedCtxValid | app/models/bot_api/telegram_message.py:234-240 | sorting entities with non-negative ranges gives a valid rendering context |
| MarkdownV2.NoEntitiesEscapesRest | app/models/bot_api/telegram_message.py:249-252 | a message without entities is its text from `offset` on, escaped with the common set |
| MarkdownV2.CodeIsOpaque | app/models/bot_api/telegram_message.py:256-260 | `code`/`pre` collect no children: the body is the escaped slice and only the entity itself is marked processed |
| MarkdownV2.LongerCollectsShorter | app/models/bot_api/telegram_message.py:273-282 | of two entities at one offset, the longer (unless code-like) collects the shorter as its child |
| MarkdownV2.ExampleBoldRendered | app/models/bot_api/telegram_message.py:317-320 | bold over `"abcd"` with italic over `"b"` renders as `*a_b_cd*` and marks both |
| MarkdownV2.CursorRewindRepeatsText | app/models/bot_api/telegram_message.py:295-308 | the whole message `"abcd"` of that example renders as `*a_b_cd*cd`: the cursor rewinds to the italic's end, so `cd` is emitted twice |
| MarkdownV2.MarkdownRenderer.constructor | app/models/bot_api/telegram_message.py:229-240 | holds the text, the sorted entities and the offset with nothing processed |
| MarkdownV2.MarkdownRenderer.CollectNested | app/models/bot_api/telegram_message.py:273-282 | the scan computes `Collect` |
| MarkdownV2.MarkdownRenderer.ProcessEntity | app/models/bot_api/telegram_message.py:242-341 | output and processed set are those of `ProcessF` |
| MarkdownV2.MarkdownRenderer.RenderNested | app/models/bot_api/telegram_message.py:284-299 | the loop's chunks, cursor and processed set are those of `LoopF` |
| MarkdownV2.MarkdownRenderer.RenderChild | app/models/bot_api/telegram_message.py:286-299 | one loop step equals one step of `LoopF` |
| MarkdownV2.MarkdownRenderer.AddPreceding | app/models/bot_api/telegram_message.py:286-295 | the escaped gap before a child is added exactly when the cursor has not reached it |
| MarkdownV2.MarkdownRenderer.EnterChild | app/models/bot_api/telegram_message.py:296-299 | rendering an unprocessed child equals one entered step of `LoopF`, failure included |
| MarkdownV2.MarkdownV2Text | app/models/bot_api/telegram_message.py:221-343 | a text that is not a string is returned as it is, and only then is the result `None` |
| MarkdownV2.GetMarkdownV2Text | app/models/bot_api/telegram_message.py:221-343 | the result is `MarkdownV2Text`: a non-string text returned as is, otherwise the top-level rendering |
| Dispatcher.Dispatch | telegram_bot/dispatcher.py:87-93 | the only error is `KeyError("ok")`; a returned log is a well-formed ordered dict |
| Dispatcher.Judge | telegram_bot/dispatcher.py:91 | a result lets the loop continue exactly when truthy and (for a dict) `ok` is `True`; a non-empty dict without `ok` raises `KeyError`; a falsy one stops |
| Dispatcher.CalledFrom | telegram_bot/dispatcher.py:88-92 | handlers are called in order up to and including the first that does not continue |
| Dispatcher.LogKeys | telegram_bot/dispatcher.py:90 | the result has a key exactly for each called handler's name |
| Dispatcher.LogLastWins | telegram_bot/dispatcher.py:90 | two called handlers with one name: the later result is kept |
| Dispatcher.LogValid | telegram_bot/dispatcher.py:87-90 | the result is a well-formed ordered dict |
| Dispatcher.StoppedAt | telegram_bot/dispatcher.py:91-93 | a stopping handler ends the loop with its result logged |
| Dispatcher.RaisedAt | telegram_bot/dispatcher.py:91 | a reached handler returning a dict without `ok` makes the call raise `KeyError("ok")` |
| Dispatcher.StopHidesLaterHandlers | telegram_bot/dispatcher.py:88-93 | handlers after the one that stops are neither called nor logged |
| Dispatcher.AllContinue | telegram_bot/dispatcher.py:88-93 | when every handler continues, all are called and logged |
| Dispatcher.RaisesIff | telegram_bot/dispatcher.py:88-93 | the call raises exactly when some reached handler's result is a non-empty dict without `ok`, every earlier handler having continued |
| Dispatcher.TokenUserId | telegram_bot/dispatcher.py:48-54 | a token `"<n>:<secret>"` gives user id `n` |
| Dispatcher.NoColonInDecimal | telegram_bot/dispatcher.py:51 | the decimal form of an integer has no `:` |
| Dispatcher.TokenWithoutColon | telegram_bot/dispatcher.py:51 | a token without `:` is parsed whole as the user id |
| Dispatcher.EndpointFor | telegram_bot/dispatcher.py:31 | the endpoint is the API base, the token, `/`, then the method name |
| Dispatcher.EndpointInjective | telegram_bot/dispatcher.py:56-58 | tokens without `/` give distinct endpoints for distinct (token, method) pairs |
| PyStr.ParseInt | telegram_bot/dispatcher.py:51 | `int()`: blank text is rejected; an accepted text ends in a digit, and a negative value needs a leading `-` |
| PyStr.Split | telegram_bot/dispatcher.py:51 | `str.split(sep)`: at least one piece, the pieces joined by `sep` give the text back, and no piece contains `sep` |
| PyStr.Strip | app/models/bot_api/telegram_message.py:216 | `str.strip()`: the result is a slice of the text with only whitespace around it, and starts and ends with non-whitespace |
| Dispatcher.BotDispatcher.Allocate | telegram_bot/dispatcher.py:37-40 | the object `cls(token)` allocates before `__init__` assigns its fields: empty token and no handlers |
| Dispatcher.BotDispatcher.SetToken | telegram_bot/dispatcher.py:48-54 | succeeds exactly when the part before the first `:` is an integer written in ASCII digits, and then stores token and user id; otherwise raises `EInvalidBotToken` and nothing changes |
| Dispatcher.BotDispatcher.Endpoint | telegram_bot/dispatcher.py:56-58 | the bot's endpoint for a method is `EndpointFor(token, method)` |
| Dispatcher.BotDispatcher.ReceiveUpdate | telegram_bot/dispatcher.py:95-102 | the handler is appended to the handler list; token and user id are unchanged |
| Dispatcher.BotDispatcher.ProcessUpdate | telegram_bot/dispatcher.py:78-93 | the handler loop computes `Dispatch` |
| Dispatcher.Registry.constructor | telegram_bot/dispatcher.py:32 | the registry starts empty |
| Dispatcher.Registry.Init | telegram_bot/dispatcher.py:39-42 | a valid token gives a fresh dispatcher with no handlers, registered under its token; an invalid one raises and leaves the registry as it was |
| Dispatcher.Registry.Get | telegram_bot/dispatcher.py:34-37 | always answers with a freshly built and registered dispatcher (the default is evaluated first), never an earlier one: it holds the token, the user id parsed from it and no handlers |
| EmailList.AddressRun | common/__init__.py:23 | the longest run of address characters from a position |
| EmailList.NameRun | common/__init__.py:23 | the longest run of name characters (`[^"<]`) from a position |
| EmailList.NameThenAddress | common/__init__.py:23 | a name group is followed by one whitespace and an address |
| EmailList.NameEnds | common/__init__.py:23 | a match found by trying the name's ends has a non-empty name and a valid address |
| EmailList.Match | common/__init__.py:22-24 | `name_and_email_regex.match`: a match has a valid address, and a captured name is non-empty |
| EmailList.MatchSound | common/__init__.py:22-24 | a match is the pattern at the start of the string: an address, or a name, whitespace and address, with the groups reported |
| EmailList.MatchSucceedsIff | common/__init__.py:22-24 | `Match` succeeds exactly when the pattern can match the start of the string, as an address alone or as a name group followed by an address |
| EmailList.NoReachableAddress | common/__init__.py:23 | a string in which no `@` can be reached from the start or from whitespace through address characters does not match |
| EmailList.InvalidLocalPart | tests.py:66-69 | `John Doe <john#doe@example.com>` does not match, and `email_list` on it raises `EInvalidEmailAddress` carrying that text |
| EmailList.MatchHasAt | common/__init__.py:23 | a string that matches contains `@` |
| EmailList.BareAddress | common/__init__.py:23 | an address alone, with or without either angle bracket, matches with no name |
| EmailList.NamedAddress | common/__init__.py:23 | `name address`, with or without either angle bracket, matches with that name and address |
| EmailList.MissingCloseAngle | tests.py:115-131 | `name <address` with the closing `>` missing, as in `Jim <jim-doe@example.com`, captures the name and the address |
| EmailList.QuotedName | common/__init__.py:23 | `"name" address`, with or without either angle bracket, matches with the name without quotes |
| EmailList.MapAll | common/__init__.py:81-88 | the comprehension succeeds exactly when every piece matches; otherwise it reports the first failing piece |
| EmailList.EmailListOf | common/__init__.py:50-92 | a non-string raises `TypeError`; an empty delimiter raises `ValueError`; any other failure is `EInvalidEmailAddress` |
| EmailList.EmailListParsesEachPiece | common/__init__.py:79-88 | success gives one address per delimited piece, in order, each the match of the stripped piece |
| EmailList.EmailListReportsFirstBadPiece | common/__init__.py:79-90 | the error carries the stripped text of the first piece that does not match |
| EmailList.SinglePiece | common/__init__.py:79-88 | a string without `;` that matches gives a one-element list |
| TelegramUsers.Flag | app/models/bot_api/telegram_user.py:81-89 | `False` without a row, the row's `active` otherwise |
| TelegramUsers.ProfileRoundTrip | app/models/bot_api/telegram_user.py:70-77 | reading the profile out of a user's JSON gives the profile back |
| TelegramUsers.BareProfile | app/models/bot_api/telegram_user.py:70-77 | a dict with only `id` clears every profile column |
| TelegramUsers.UserTables.constructor | app/models/bot_api/telegram_user.py:69 | the tables start empty |
| TelegramUsers.TelegramUser.constructor | app/models/bot_api/telegram_user.py:69 | a new user has the id and every profile column `None` |
| TelegramUsers.TelegramUser.IsAdmin | app/models/bot_api/telegram_user.py:81-84 | true exactly when an admin row exists and is active |
| TelegramUsers.TelegramUser.IsSubscriber | app/models/bot_api/telegram_user.py:86-89 | true exactly when a subscriber row exists and is active |
| TelegramUsers.TelegramUser.Subscribe | app/models/bot_api/telegram_user.py:91-101 | creates or reactivates the row, leaves an active one alone, returns an active row; no other row changes |
| TelegramUsers.TelegramUser.Unsubscribe | app/models/bot_api/telegram_user.py:103-107 | deactivates an existing row, creates none; no other row changes |
| TelegramUsers.TelegramUser.SetAdmin | app/models/bot_api/telegram_user.py:109-111 | upserts an active admin row and returns it |
| TelegramUsers.TelegramUser.RevokeAdmin | app/models/bot_api/telegram_user.py:113-115 | upserts an inactive admin row, so a row exists afterwards |
| TelegramUsers.UserFromDict | app/models/bot_api/telegram_user.py:58-79 | missing `id` raises `KeyError`; otherwise the stored or a new user with its eight columns set from `d`, no other user changed |
| TelegramChats.TypeCodes | app/models/bot_api/telegram_chat.py:132 | codes are one letter, distinct, and only `group`/`supergroup` map to group codes |
| TelegramChats.NormalizeIdempotent | app/models/bot_api/telegram_chat.py:161 | stripping and lowering twice is stripping and lowering once |
| TelegramChats.CodeIsNormal | app/models/bot_api/telegram_chat.py:170 | every code is unchanged by strip and lower |
| TelegramChats.CodeOf | app/models/bot_api/telegram_chat.py:166-169 | a falsy or non-string name raises `EInvalidChatType`, an unknown normalised name `KeyError`, a known one gives its code |
| TelegramChats.TelegramChatType.Blank | app/models/bot_api/telegram_chat.py:128-135 | a new row has neither code nor name |
| TelegramChats.TelegramChatType.SetName | app/models/bot_api/telegram_chat.py:150-163 | sets the normalised name and its code, or raises `KeyError` with nothing changed |
| TelegramChats.NewChatType | app/models/bot_api/telegram_chat.py:165-180 | the constructor's three error cases, and on success a fresh row with the derived code and normalised name |
| TelegramChats.BareChatFields | app/models/bot_api/telegram_chat.py:74-79 | a dict with only `id` and `type` clears every overwritten column |
| TelegramChats.TelegramChat.constructor | app/models/bot_api/telegram_chat.py:67-69 | a new chat has the id, no type and every column `None` |
| TelegramChats.TelegramChat.SetType | app/models/bot_api/telegram_chat.py:72-73 | the chat takes the type and its code; the columns are unchanged |
| TelegramChats.TelegramChat.SetFields | app/models/bot_api/telegram_chat.py:74-79 | the six columns are overwritten; the type is unchanged |
| TelegramChats.TelegramChat.IsAdminChannel | app/models/bot_api/telegram_chat.py:83-89 | a group chat with an admin row for the bot |
| TelegramChats.TelegramChat.IsForwardChannel | app/models/bot_api/telegram_chat.py:91-97 | a group chat with a forward row for the bot |
| TelegramChats.TelegramChat.SetAdminChannel | app/models/bot_api/telegram_chat.py:99-104 | a group gains the admin row; any other chat raises `EInappropriateChatType` and nothing changes |
| TelegramChats.TelegramChat.SetForwardChannel | app/models/bot_api/telegram_chat.py:106-111 | a group gains the forward row; any other chat raises and nothing changes |
| TelegramChats.TelegramChat.RevokeAdminChannel | app/models/bot_api/telegram_chat.py:113-118 | a group loses exactly its admin row; any other chat raises |
| TelegramChats.TelegramChat.RevokeForwardChannel | app/models/bot_api/telegram_chat.py:120-125 | a group loses exactly its forward row; any other chat raises |
| TelegramChats.ChatTables.constructor | app/models/bot_api/telegram_chat.py:67 | the tables start empty |
| TelegramChats.ChatTables.LoadChat | app/models/bot_api/telegram_chat.py:67-69 | the stored chat with that id, or a fresh one with no type |
| TelegramChats.ChatTables.MergeChatType | app/models/bot_api/telegram_chat.py:72 | `session.merge`: the stored row with the code takes the new state, or the new row is stored; no other row changes, and every row stays under its own code |
| TelegramChats.ApplyDict | app/models/bot_api/telegram_chat.py:70-79 | a truthy bad type raises before any change; a truthy good one is upserted into the chat type table under its code (no other entry changes, and every other chat-type row keeps its code and name) and becomes the chat's type and code; a falsy one keeps them and leaves the table and its rows as they were; the six columns come from `d`; the tables stay valid |
| TelegramChats.ChatFromDict | app/models/bot_api/telegram_chat.py:56-81 | missing `id` raises `KeyError`; otherwise the stored or a new chat updated as `ApplyDict` says, with the chat type upserted as there; no other chat and no other chat-type row changed; the tables stay valid |
| LogPaths.CommonPrefix | common/logging.py:54 | `os.path.commonprefix`: the longest sequence both start with |
| LogPaths.NormPartsAppend | common/logging.py:58 | normalising a concatenation is normalising the second part onto the result of the first |
| LogPaths.NormPartsProper | common/logging.py:58 | ordinary components are kept in order |
| LogPaths.NormPartsUps | common/logging.py:58 | each `..` removes one kept component |
| LogPaths.Ups | common/logging.py:58 | `n` copies of `..` |
| LogPaths.AbsParts | common/logging.py:58 | the components of an absolute normalised path contain no empty, `.` or `..` component |
| LogPaths.RelPath | common/logging.py:58 | a path below the base is named by its remaining components joined with `/`, and the base itself by `.` |
| LogPaths.RelPartsResolve | common/logging.py:58 | `relpath`'s result, followed from the base, leads back to the path |
| LogPaths.RelPartsBelow | common/logging.py:58 | a path below the base is named by its remaining components |
| LogPaths.RelPathSelf | common/logging.py:58 | a directory relative to itself is `.` |
| LogPaths.ChooseRelPath | common/logging.py:54-58 | the path is shown relative exactly when the base is a character prefix of it and is neither empty nor the root |
| LogPaths.SiblingDirectoryMatches | common/logging.py:54-58 | base `/d` also matches a file in a sibling `/dm`, which is shown as `../dm/f` |
| LogPaths.SiblingRelPath | common/logging.py:58 | the path of `/dm/f` relative to `/d` is `../dm/f` |
| LogPaths.AbsTwo | common/logging.py:58 | `/x/y` has components `[x, y]` |
| LogPaths.AbsOne | common/logging.py:58 | `/x` has components `[x]` |
| LogPaths.LogRecord.constructor | common/logging.py:50-59 | a record with its path and attribute dictionary |
| LogPaths.RelativePathsFormatter.constructor | common/logging.py:45-47 | a non-string base is replaced by the root directory |
| LogPaths.RelativePathsFormatter.FormatMessage | common/logging.py:54-59 | the record gains `relpath` as `ChooseRelPath` says; no other attribute changes |

## Left out

- Entity offsets and lengths are UTF-16 code units in the Bot API. The model indexes the string by character.
- GetMarkdownV2Text, GetBotCommands: require non-negative entity offsets and lengths, and a non-negative `offset` argument of `get_markdown_v2_text`. Python slices from the end for a negative index, and that is not modelled.
- The network: `invoke_request` and `send_message` do HTTP and JSON I/O. `endpoint` is modelled; the request is not.
- `__repr__`, `__reduce__` and the pickle support are not modelled.
- The ORM is reduced to maps and sets of rows. Queries are map lookups and `session.merge` is an upsert. Not modelled: sessions, flushing, and SQLAlchemy's identity map beyond a shared object per primary key.
- MessageEntity.FromDict, TelegramUsers.UserFromDict, TelegramChats.ChatFromDict: a present `type`, `offset`, `length` or `id` of the wrong JSON type, a `url` or `language` that is neither a string nor null, or a truthy `user` that is not an object with an integer `id`, is reported as `TypeMismatch` (or `KeyError` for the missing `id`). The source stores such a value as it is.
- PyStr.ParseInt, Dispatcher.BotDispatcher.SetToken, Dispatcher.Registry.Init, Dispatcher.Registry.Get: the model's `int()` accepts ASCII digits `0`-`9` only, while Python's accepts any Unicode decimal digit (Arabic-Indic, full-width and others), so such a token is rejected by the model and accepted by the source. A token that is not a string is not modelled either: Python's `.split` raises `AttributeError`, which the setter turns into `EInvalidBotToken`.
- A non-string value passed to the chat type `name` setter is not modelled. Python would raise `AttributeError` on `.strip()`.
- EmailList.EmailListOf: the `delimiter` is a string in the model. A non-string `delimiter` is not modelled: Python raises `TypeError` from `split`, and `None` splits on runs of whitespace.
- `str.lower` is modelled for ASCII letters only. Only the ASCII chat type names depend on it.
- `MessageEntity.FromDict` records the mentioned user's id. Decoding the nested user is `TelegramUsers.UserFromDict`, and the two are not chained.
- The message's own `from_dict`, the chat's `photo_id`, and the other models and routes of the application are not part of this model.
- `EInvalidEmailAddress.__str__` and the exception's keyword arguments are not modelled. The error carries the address text only.
- Dispatcher: handlers are pure functions from the update to a value. Their side effects, and their `__module__`/`__qualname__` names, are not modelled. Each handler's name is a field of the handler.
- The formatter does not model the text of `super().formatMessage` or the base `Formatter` arguments (`fmt`, `datefmt`, `style`, `validate`).
- The formatter treats paths as POSIX `posixpath` paths. `os.getcwd()` becomes a parameter, and symbolic links are not resolved (neither are they by `relpath`).
