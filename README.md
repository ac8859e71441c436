# Tweet-generator bot: last-request store, command handlers and completion post-processing

This project models the logic of a Telegram bot that turns a user's thought into a tweet or a
thread. The bot forwards the text to an OpenAI chat completion and remembers each chat's last
request so that `/regenerate` can run it again. Three parts are modelled and proved.

- **Last-request store** (`src/index.js`). `userLastRequests` maps a chat id to
  `{type, thought, timestamp}`. `saveLastRequest` replaces a chat's entry whole.
  `getLastRequest` treats an entry more than 300000 ms old as absent and never deletes it.
  The store is the class `Sessions.LastRequestStore` over a `map`, and the read is the function
  `Sessions.Lookup`. `Date.now()` is the explicit parameter `now`.
- **Command handlers** (`src/index.js`). The unanchored patterns `/\/tweet (.+)/` and
  `/\/thread (.+)/` and the `/\/regenerate/` test are modelled in module `Commands`. The three
  handlers are methods of `Handlers.Bot`. A bot keeps the store and an ordered log of every send,
  delete and generator call it attempts. The transport's answers come in as a `Transport` value
  and the endpoint's answer as an `ApiCall` value. The `try` block that the three handlers
  repeat is the one method `Bot.RunGeneration`, and each handler's contract is stated through it.
- **Completion post-processing** (`src/generator.js`). `generateThread` and `suggestTweetIdeas`
  compute `content.split('\n').filter(l => l.trim().length > 0)`. This is
  `Generator.NonBlankLines`, built on the JavaScript built-ins written out in `JsText`: `trim`
  with ECMAScript's white-space set, `split`, `join` and `filter`. `generateTweet` has an input
  guard before the call and a response-structure guard after it.

`generateTweet` returns `choices[0].message.content` unchanged, and the code does not check that
content. A null or empty content therefore comes back as a successful result, not as a
guaranteed non-empty string. The model follows the code: the result is an `Option<string>`,
and `TweetReply` carries it as it is.

## Model

| member | source | states |
|---|---|---|
| `JsText.TrimStart` | telegram_bot_with_gpt-4_tweet_generator_0h3ae1/src/generator.js:63 | the result is the suffix of the input that starts at its first non-white-space character; everything dropped is white space |
| `JsText.TrimEnd` | telegram_bot_with_gpt-4_tweet_generator_0h3ae1/src/generator.js:63 | the result is the prefix of the input that ends at its last non-white-space character; everything dropped is white space |
| `JsText.Trim` | telegram_bot_with_gpt-4_tweet_generator_0h3ae1/src/generator.js:63 | `trim()` gives the slice of the input that remains after dropping its leading and trailing white space: everything dropped at either end is white space, and the result is empty or starts and ends with a character outside the white-space set |
| `JsText.Split` | telegram_bot_with_gpt-4_tweet_generator_0h3ae1/src/generator.js:62 | `split('\n')` gives one more piece than there are separators, and no piece contains the separator |
| `JsText.JoinSplit` | telegram_bot_with_gpt-4_tweet_generator_0h3ae1/src/generator.js:62 | joining the pieces of a split with the same separator gives back the original string |
| `JsText.SplitJoin` | telegram_bot_with_gpt-4_tweet_generator_0h3ae1/src/generator.js:62 | splitting a join of separator-free pieces gives back the pieces |
| `JsText.Filter` | telegram_bot_with_gpt-4_tweet_generator_0h3ae1/src/generator.js:63 | `filter` keeps no more elements than it is given, and every kept element satisfies the predicate |
| `JsText.FilterMembership` | telegram_bot_with_gpt-4_tweet_generator_0h3ae1/src/generator.js:63 | an element is kept exactly when it occurs in the input and satisfies the predicate |
| `JsText.FilterConcat` | telegram_bot_with_gpt-4_tweet_generator_0h3ae1/src/generator.js:63 | filtering a concatenation is the concatenation of the filtered parts, so the relative order is kept |
| `JsText.FilterPositions` | telegram_bot_with_gpt-4_tweet_generator_0h3ae1/src/generator.js:63 | the kept elements are input elements at strictly increasing positions, and no element satisfying the predicate is skipped |
| `JsText.FilterKeepsAll` | telegram_bot_with_gpt-4_tweet_generator_0h3ae1/src/generator.js:63 | a filter that rejects nothing returns its input unchanged |
| `Generator.HasContent` | telegram_bot_with_gpt-4_tweet_generator_0h3ae1/src/generator.js:63 | the filter callback `tweet.trim().length > 0` holds exactly when the line is not blank |
| `Generator.NonBlankLines` | telegram_bot_with_gpt-4_tweet_generator_0h3ae1/src/generator.js:61-63 | every returned line has non-empty `trim()`; a line is returned exactly when it is a line of the content with content; there are at most (number of '\n') + 1 lines, whatever the prompt asked for |
| `Generator.NonBlankLinesHaveNoBreak` | telegram_bot_with_gpt-4_tweet_generator_0h3ae1/src/generator.js:62-63 | no returned line contains a line break |
| `Generator.NonBlankLinesInOrder` | telegram_bot_with_gpt-4_tweet_generator_0h3ae1/src/generator.js:61-63 | the returned lines are lines of the content at strictly increasing positions, and no line with content is skipped, so order and repetitions are those of the content |
| `Generator.NoBlankLinesRoundTrip` | telegram_bot_with_gpt-4_tweet_generator_0h3ae1/src/generator.js:61-63 | when the content has no blank or white-space-only line, joining the result with '\n' reproduces the content exactly |
| `Generator.BlankLinesDropped` | telegram_bot_with_gpt-4_tweet_generator_0h3ae1/src/generator.js:61-63 | for any three lines with content, an empty line and a line of spaces between them are dropped and the three come back in order |
| `Generator.UntrimmedExample` | telegram_bot_with_gpt-4_tweet_generator_0h3ae1/src/generator.js:62-63 | returned lines are not trimmed: `" a \r\n\t"` gives `[" a \r"]` |
| `Generator.GenerateTweet` | telegram_bot_with_gpt-4_tweet_generator_0h3ae1/src/generator.js:1-35 | the input error is raised exactly for input that is not a non-empty string; for valid input a rejected call fails with the call's own rejection; success holds exactly for valid input, a resolved call and a response with `choices[0].message`; success returns that message's content unchanged, possibly null; the structure error is raised exactly for a resolved call with a malformed response |
| `Generator.InputGuardPrecedesCall` | telegram_bot_with_gpt-4_tweet_generator_0h3ae1/src/generator.js:2-6 | for invalid input the outcome of the endpoint call makes no difference |
| `Generator.GenerateThread` | telegram_bot_with_gpt-4_tweet_generator_0h3ae1/src/generator.js:37-64 | succeeds exactly when the call resolved and `choices[0].message.content` is present, with the content's non-blank lines; otherwise fails with the call's rejection or a property-access error, never a dedicated error |
| `Generator.SuggestTweetIdeas` | telegram_bot_with_gpt-4_tweet_generator_0h3ae1/src/generator.js:66-87 | gives the same result as the thread post-processing on every endpoint answer |
| `Generator.ThreadFailsWhereTweetIsGuarded` | telegram_bot_with_gpt-4_tweet_generator_0h3ae1/src/generator.js:30-63 | for valid input, a response the tweet guard rejects also makes the thread call fail; the thread call succeeds exactly when the tweet call succeeds with non-null content |
| `Commands.FirstMatch` | telegram_bot_with_gpt-4_tweet_generator_0h3ae1/src/index.js:75 | the leftmost index at which the command followed by a character other than a line terminator occurs, or none when there is no such index |
| `Commands.RestOfLine` | telegram_bot_with_gpt-4_tweet_generator_0h3ae1/src/index.js:75 | greedy `.+` takes the longest prefix without a line terminator and stops at the end or at a line terminator |
| `Commands.Payload` | telegram_bot_with_gpt-4_tweet_generator_0h3ae1/src/index.js:75-77 | `match[1]` exists exactly when the command followed by a non-line-terminator occurs anywhere in the text; it is non-empty and holds no line terminator |
| `Commands.PayloadPosition` | telegram_bot_with_gpt-4_tweet_generator_0h3ae1/src/index.js:75-77 | the payload is the text right after the leftmost match of the command, up to the end of that line |
| `Commands.LeadingCommand` | telegram_bot_with_gpt-4_tweet_generator_0h3ae1/src/index.js:75-77 | a message that starts with the command gives as payload the rest of its first line |
| `Commands.BareTweetDoesNotMatch` | telegram_bot_with_gpt-4_tweet_generator_0h3ae1/src/index.js:75 | `/tweet`, `/tweet ` and `/tweet ` followed by a line break match nothing, so no handler runs |
| `Commands.Mentions` | telegram_bot_with_gpt-4_tweet_generator_0h3ae1/src/index.js:111 | `/\/regenerate/` matches exactly when the word occurs somewhere in the text |
| `Sessions.Lookup` | telegram_bot_with_gpt-4_tweet_generator_0h3ae1/src/index.js:48-54 | returns the stored entry itself when it exists and is at most 300000 ms old, and nothing when it is missing or older |
| `Sessions.LastRequestStore.constructor` | telegram_bot_with_gpt-4_tweet_generator_0h3ae1/src/index.js:42 | the store starts empty |
| `Sessions.LastRequestStore.Save` | telegram_bot_with_gpt-4_tweet_generator_0h3ae1/src/index.js:44-46 | replaces the chat's whole entry with the new type, thought and time; the entry is read back at once; every other chat's lookups are unchanged |
| `Sessions.SaveThenLookup` | telegram_bot_with_gpt-4_tweet_generator_0h3ae1/src/index.js:44-53 | after a save, a lookup returns exactly the saved entry up to 300000 ms later and nothing after that |
| `Sessions.WindowBoundary` | telegram_bot_with_gpt-4_tweet_generator_0h3ae1/src/index.js:50 | an entry exactly 300000 ms old is still returned (strict `>`), and one 300001 ms old is not |
| `Sessions.StaleStaysStale` | telegram_bot_with_gpt-4_tweet_generator_0h3ae1/src/index.js:48-54 | reading never revives an entry: once stale it stays stale as time advances, until a save replaces it |
| `Handlers.Produce` | telegram_bot_with_gpt-4_tweet_generator_0h3ae1/src/index.js:122-132 | type "tweet" selects `generateTweet` with the thought and a tweet reply; any other type selects `generateThread` and a thread reply; the chosen call's failure is passed on with its own error |
| `Handlers.RunEffects` | telegram_bot_with_gpt-4_tweet_generator_0h3ae1/src/index.js:79-90 | a run always starts with the working notice and ends there when it was not sent; otherwise the generator call follows, then either the error notice alone or the delete of the working notice and the reply |
| `Handlers.RunStore` | telegram_bot_with_gpt-4_tweet_generator_0h3ae1/src/index.js:79-90 | the request is added for the chat exactly when the working notice was sent and generation succeeded, with the kind, thought and time; every other chat's entry is unchanged |
| `Handlers.Bot.constructor` | telegram_bot_with_gpt-4_tweet_generator_0h3ae1/src/index.js:42 | a bot starts with the given store and has attempted nothing |
| `Handlers.Bot.SafeSendMessage` | telegram_bot_with_gpt-4_tweet_generator_0h3ae1/src/index.js:57-64 | a send is attempted and logged, and a failed send resolves to null instead of throwing |
| `Handlers.Bot.SafeDeleteMessage` | telegram_bot_with_gpt-4_tweet_generator_0h3ae1/src/index.js:66-73 | a delete is attempted and logged, and a failed delete resolves to false instead of throwing |
| `Handlers.Bot.RunGeneration` | telegram_bot_with_gpt-4_tweet_generator_0h3ae1/src/index.js:79-90 | sends the working notice; only if it was sent, calls the generator; on a throw sends the error notice and records nothing; otherwise deletes the notice, sends the reply and records the request, whatever the delete and the reply resolved to; the generator's outcome is passed in by the handler that selected it |
| `Handlers.Bot.OnTweet` | telegram_bot_with_gpt-4_tweet_generator_0h3ae1/src/index.js:75-91 | no match leaves log and store untouched; a match runs the generation with type "tweet" on the payload; the store stays well formed |
| `Handlers.Bot.OnThread` | telegram_bot_with_gpt-4_tweet_generator_0h3ae1/src/index.js:93-109 | the same for `/thread` with type "thread" |
| `Handlers.Bot.OnRegenerate` | telegram_bot_with_gpt-4_tweet_generator_0h3ae1/src/index.js:111-140 | with no fresh entry, sends only the nothing-to-regenerate notice, calls no generator and saves nothing; otherwise reruns the stored type's generator on the stored thought and re-saves the same type and thought at the new time |
| `Handlers.GeneratesOnlyAfterWorkingNotice` | telegram_bot_with_gpt-4_tweet_generator_0h3ae1/src/index.js:80-82 | the generator is called exactly when the working notice was sent |
| `Handlers.ErrorNoticeOnlyOnFailure` | telegram_bot_with_gpt-4_tweet_generator_0h3ae1/src/index.js:80-90 | the error notice is sent exactly when the notice went out and generation threw; then nothing is deleted and no reply is sent: the run is the working notice, the generator call and the error notice |
| `Handlers.RecordsIffReplies` | telegram_bot_with_gpt-4_tweet_generator_0h3ae1/src/index.js:83-85 | the request is recorded exactly when the reply is sent, as the fourth and last effect after the delete of the working notice; any other run leaves the store as it was; a recorded request is read back at once |
| `Handlers.RegenerateInputIsValid` | telegram_bot_with_gpt-4_tweet_generator_0h3ae1/src/index.js:122-124 | in a store where every thought is non-empty, a regenerated tweet never fails on the input guard |
| `Handlers.TweetThenRegenerate` | telegram_bot_with_gpt-4_tweet_generator_0h3ae1/src/index.js:75-140 | `/tweet <thought>` followed a second later by `/regenerate` attempts exactly the same four steps twice (working notice, tweet generator on the same thought, delete, the same reply), and leaves the request recorded at the time of the second save |

## Left out

- Telegram polling and its 5-second stop/start restart on `polling_error` (`src/index.js:24-35`) are transport plumbing and are not modelled.
- The `error` and `unhandledRejection` listeners (`src/index.js:38-40`, `154-156`) only log, so they are not modelled.
- `dotenv`, the bot and client constructors and their options (`src/index.js:1-21`) are setup, not behaviour.
- The `/start` handler (`src/index.js:142-151`) sends one static message and touches no state.
- Message wording and emoji are abstracted into the `Notice` constructors.
- Prompt text, model name, `max_tokens` and `temperature` are configuration of the opaque endpoint call.
- The endpoint call itself is the `ApiCall` value it resolves to, and the transport's answers are a `Transport` value.
- Logging through `console.error` is not modelled.
- Each handler is one sequential run. Async interleaving and overlapping commands in one chat are not modelled.
- When one message matches several patterns (say `/tweet x /regenerate`), the transport library runs every matching handler. The model runs each handler on its own.
- JavaScript strings are UTF-16 code units, while the model's strings are sequences of characters. Line terminators and white space all lie in the Basic Multilingual Plane, so splitting, trimming and payload boundaries are unaffected.
- `generateThread` and `suggestTweetIdeas` take no input in the model, because their input only reaches the prompt.
- Generator.GenerateTweet: a `null` element inside `choices` is not representable, so the case where the structure guard rejects `choices: [null]` is not modelled.
- No handler in `src/index.js` calls `suggestTweetIdeas`, so it is modelled as a function on its own.
