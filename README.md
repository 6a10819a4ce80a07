# LLM invocation layer and chat handler

This project models three parts of a FastAPI service that talks to a local
chat model:

- **The structured-invocation layer (`CommonLLM`).** One instance exists per
  specialised class. Each instance's prompt is a shared command segment
  followed by the class's own segments. `invoke` sends the prompt, cleans the
  model's text answer (code fences and `<think>` blocks are removed), parses
  it as JSON and returns the value under `"result"`. Two error constants are
  raised: -401 when the answer is not JSON, -402 when `"result"` is missing.
- **The chat handler (`MainLlm`).**
  - A store of conversation memories keyed by `"conversationId@userId"`. A new
    session is seeded with a greeting. Sessions can be deleted one at a time
    or reset for a whole user.
  - A streamed answer whose chunks have the reasoning markers filtered out.
  - The MBTI description table used to fill the persona prompt.
- **`or_else_throw`.** It unwraps an optional value, or raises the given
  exception (either an instance or a factory that builds it).

Modules:

- `Wrappers`: `Option` and `Result`.
- `PyStr`: the Python string operations the code relies on:
  - `str.strip`, `startswith` and `endswith`;
  - `str.split` on one character, and `str.replace` with its left-to-right,
    non-overlapping scan;
  - a first-occurrence search;
  - a subsequence relation.
- `ErrorCode`: `ErrorMessage` and the two LLM error constants.
- `CommonLlm`: cleaning, decoding, prompt composition, the per-class instance
  registry (a `Registry` class whose `instances` map is updated in place) and
  `invoke`.
- `MainLlm`: the session store, as a `SessionStore` class with:
  - the keys in insertion order (a `seq`);
  - the memories by key (a `map`);
  - methods that update both.

  The module also holds the stream filter (a function per chunk, and a loop
  over the chunks proved against a function on the whole stream), the prompt
  variables and the MBTI table.
- `OptionalHelper`: `or_else_throw` on `Option`, with the raise modelled as
  `Failure`.

Three behaviours of the code are easy to misread, and the model states them:

- **Cleaning is not idempotent.** `CommonLlm.CleanJsonStringNotIdempotent`
  shows "{}" followed by two fences: one cleaning drops only the last fence,
  so a second cleaning gives a different answer.
- **The stream filter deletes characters, not the text between markers.**
  `["<think>", "x</think>y", "z"]` streams to `["xy", "z"]`
  (`MainLlm.FilterStreamExample`).
- **Think blocks are matched lazily.** The regular expression `.*?` ends a
  block at the first `</think>` after its `<think>`.
  `CommonLlm.RemoveThinkBlocks` models that lazy match.

## Model

| member | source | states |
|---|---|---|
| CommonLlm.CleanJsonString | config/common/common_llm.py:139-151 | The cleaned answer never begins or ends with whitespace (the final `strip`) |
| CommonLlm.DropOpeningFence | config/common/common_llm.py:143-144 | A text that starts with "```json" loses that prefix and the whitespace around what follows, so it gets shorter by at least the prefix. Any other text is unchanged |
| CommonLlm.DropClosingFence | config/common/common_llm.py:145-146 | A text that ends with "```" loses that suffix and the whitespace around what precedes it, so it gets shorter by at least the suffix. Any other text is unchanged |
| CommonLlm.RemoveThinkBlocks | config/common/common_llm.py:149 | The lazy, dot-matches-newline deletion of think blocks: scanning left to right, each `<think>` that has a later `</think>` is deleted up to the first such `</think>` and the whitespace after it |
| CommonLlm.CleanJsonStringIsSubseq | config/common/common_llm.py:139-151 | Cleaning only deletes characters: the result is a subsequence of the answer and never longer |
| CommonLlm.CleanJsonStringPlain | config/common/common_llm.py:139-151 | An answer with no padding, no fence at either end and no `<think>` is returned unchanged |
| CommonLlm.CleanJsonStringFenced | config/common/common_llm.py:140-151 | A payload inside a "```json" … "```" fence, with any whitespace around either fence, comes out alone, provided the payload is non-empty, has no whitespace at either end and contains no `<think>` |
| CommonLlm.DropOpeningFencePadded | config/common/common_llm.py:143-144 | The "```json" prefix and the whitespace after it are dropped, leaving the body |
| CommonLlm.DropClosingFencePadded | config/common/common_llm.py:145-146 | One trailing "```" and the whitespace before it are dropped, leaving the body |
| CommonLlm.CleanJsonStringFencedExample | config/common/common_llm.py:139-151 | A fenced answer between line breaks cleans to its JSON payload |
| CommonLlm.RemoveThinkBlocksIsSubseq | config/common/common_llm.py:149 | Deleting think blocks leaves a subsequence of the text |
| CommonLlm.RemoveThinkBlocksUnchanged | config/common/common_llm.py:149 | Text without a `<think>`, or without a `</think>`, has no block to delete: an unclosed `<think>` stays, and the text is unchanged |
| CommonLlm.FirstCloseAfter | config/common/common_llm.py:149 | The lazy match of a block whose body holds no `</think>` ends at the `</think>` right after that body |
| CommonLlm.RemoveLeadingThinkBlock | config/common/common_llm.py:149 | A leading `<think>…</think>` block and the whitespace after it are deleted, and the scan resumes on what follows |
| CommonLlm.RemoveThinkBlocksPlainPrefix | config/common/common_llm.py:149 | Text with no '<' cannot start a block: it is kept as it is, and the scan goes on after it |
| CommonLlm.RemoveThinkBlocksAfterPlain | config/common/common_llm.py:149 | A block after such text is deleted, with the whitespace after it, and the text before it is kept |
| CommonLlm.RemoveThinkBlocksNoRescan | config/common/common_llm.py:149 | The scan never goes back over deleted text: when deleting a block from the middle of "<thi" … "nk>" joins the halves into a new `<think>`, that marker is kept and the scan goes on with what follows |
| CommonLlm.JoinedHalvesKept | config/common/common_llm.py:149 | The general form: the text on either side of a deleted block is kept as it is, whatever the two sides spell once joined |
| CommonLlm.RemoveThinkBlocksKeepsClose | config/common/common_llm.py:149 | A `</think>` with no `<think>` before it is not deleted |
| CommonLlm.RemoveThinkBlocksNoRescanExample | config/common/common_llm.py:149 | "<thi<think>x</think>nk>y</think>" becomes "<think>y</think>": the `<think>` formed by the deletion is not matched again |
| CommonLlm.CleanJsonStringAfterThinkBlock | config/common/common_llm.py:140-151 | An answer made of a think block followed by clean text cleans to that text |
| CommonLlm.NoFenceAroundThinkBlock | config/common/common_llm.py:140-146 | The strip and fence steps leave an answer that opens with `<think>` and ends in unfenced text alone |
| CommonLlm.CleanJsonStringThinkExample | config/common/common_llm.py:140-151 | "<think>ignored</think>{"result":{}}" cleans to "{"result":{}}" |
| CommonLlm.CleanJsonStringKeepsUncoveredFence | config/common/common_llm.py:140-151 | The fence checks run before the think blocks are deleted: a "```json" fence uncovered by that deletion stays |
| CommonLlm.CleanJsonStringKeepsUncoveredClosingFence | config/common/common_llm.py:145-149 | The closing-fence check also runs before the think blocks are deleted: a "```" that a trailing think block hides from it stays in the answer |
| CommonLlm.CleanJsonStringUncoveredClosingFenceExample | config/common/common_llm.py:145-149 | "{}```<think>x</think>" cleans to "{}```" |
| CommonLlm.CleanJsonStringClosingFence | config/common/common_llm.py:145-146 | One trailing fence after otherwise clean text is dropped |
| CommonLlm.CleanJsonStringOneClosingFence | config/common/common_llm.py:145-146 | Only one trailing fence is dropped per cleaning: of two, the last goes and the first stays |
| CommonLlm.CleanJsonStringNotIdempotent | config/common/common_llm.py:139-151 | Cleaning twice can differ from cleaning once: "{}" followed by two fences |
| CommonLlm.DecodeResult | config/common/common_llm.py:119-124 | JSON that fails to parse gives -401, and an object without "result" gives -402. A non-object is a TypeError, which is not caught. Otherwise the value under "result" is returned. Each case holds exactly when its condition does |
| CommonLlm.DecodeEnvelope | config/common/common_llm.py:119-120 | Decoding an object that holds `"result": v` returns v, whatever the other fields are |
| CommonLlm.DecodeSuccessIsEnvelope | config/common/common_llm.py:119-120 | Every successful decode came from an object whose "result" field is the returned value |
| CommonLlm.ComposeTemplate | config/common/common_llm.py:83-87 | The prompt is the shared command segment, then the class's own segments in their order |
| CommonLlm.LlmInstance.constructor | config/common/common_llm.py:82-88 | A new instance records its class and the composed prompt |
| CommonLlm.LlmInstance.Invoke | config/common/common_llm.py:101-124 | The answer to the prompt is cleaned, then parsed. The call succeeds exactly when the parse gives an object holding "result", and returns that field. It fails with -401 exactly when the parse fails, with -402 exactly when the parse gives an object without "result", and with an uncaught TypeError exactly when the parse gives a non-object |
| CommonLlm.Registry.constructor | config/common/common_llm.py:53 | The registry starts empty |
| CommonLlm.Registry.New | config/common/common_llm.py:74-90 | A registered class gets its existing instance back, and the registry is unchanged. An unregistered class gets a fresh instance with the composed prompt, and only that entry is added. Every instance's prompt starts with the shared command segment |
| CommonLlm.ConstructTwice | config/common/common_llm.py:80-90 | Two constructions of a class return the same instance, built from the first call's segments, and leave other classes' instances alone |
| MainLlm.WellFormedKeyIsOneAt | config/llm/main_llm.py:97 | Unpacking `key.split("@")` into two names succeeds exactly when the key holds one '@' |
| MainLlm.WellFormedKey | config/llm/main_llm.py:97 | Unpacking a session key's `split("@")` into two names succeeds only when the split gives exactly two parts |
| MainLlm.UserOf | config/llm/main_llm.py:97 | The `user_id` unpacked from a key holds no '@', and the key is the conversation part, '@' and that user |
| MainLlm.SessionKeyUser | config/llm/main_llm.py:97-98 | A key built as conversation@user, from '@'-free parts, unpacks to that user |
| MainLlm.Without | config/llm/main_llm.py:55-56 | `pop(key, None)` on the key order: the key is gone afterwards and nothing is added |
| MainLlm.WithoutMembers | config/llm/main_llm.py:55-56 | Popping a key removes exactly that key |
| MainLlm.WithoutAbsent | config/llm/main_llm.py:55-56 | Popping an absent key changes nothing |
| MainLlm.WithoutDistinct | config/llm/main_llm.py:55-56 | The store's keys stay distinct after a pop |
| MainLlm.OwnedMembers | config/llm/main_llm.py:94-99 | A full reset deletes exactly the keys whose user part is `uid` |
| MainLlm.KeptMembers | config/llm/main_llm.py:94-99 | A full reset keeps exactly the keys whose user part is not `uid` |
| MainLlm.FirstMalformed | config/llm/main_llm.py:96-97 | The position at which the reset loop raises: the keys before it unpack, and the key there does not |
| MainLlm.ResetKeys | config/llm/main_llm.py:94-99 | The keys a reset leaves, in order: before the first key that does not unpack, those of other users; from that key on, every key |
| MainLlm.ResetKeysWellFormed | config/llm/main_llm.py:94-99 | When every key unpacks, the keys that remain are exactly those of other users |
| MainLlm.ResetKeysKeepsTail | config/llm/main_llm.py:96-97 | A key that does not unpack stops the reset: it and every later key survive |
| MainLlm.ResetKeysDeletes | config/llm/main_llm.py:96-99 | A key the reset reaches and unpacks is deleted exactly when its user part is `uid` |
| MainLlm.FirstMalformedAt | config/llm/main_llm.py:96-97 | The reset raises at the first key that does not unpack |
| MainLlm.FilterChunk | config/llm/main_llm.py:80 | No '<', '>' or '/' survives the replace chain, and the result is the chunk with characters deleted |
| MainLlm.FilterChunkPlain | config/llm/main_llm.py:80 | Text with none of '<', '>', '/' and 't' passes the filter unchanged |
| MainLlm.FilterChunkDropsOpenMarker | config/llm/main_llm.py:80 | A `<think>` marker between such text is deleted, and the text around it is joined |
| MainLlm.FilterChunkDropsCloseMarker | config/llm/main_llm.py:80 | A `</think>` marker between such text is deleted, and the text around it is joined |
| MainLlm.FilterChunkDropsWord | config/llm/main_llm.py:80 | The word "think" in ordinary text is deleted too |
| MainLlm.FilterChunkMarkerOnly | config/llm/main_llm.py:80-83 | A chunk that is only `<think>` filters to nothing |
| MainLlm.FilterChunkAroundMarker | config/llm/main_llm.py:80 | "x</think>y" filters to "xy" |
| MainLlm.FilterChunkOrdinaryText | config/llm/main_llm.py:80 | "we think so" filters to "we  so" |
| MainLlm.FilterStream | config/llm/main_llm.py:66-83 | No more chunks are yielded than the backend sent, and no yielded chunk is empty |
| MainLlm.FilterStreamAppend | config/llm/main_llm.py:66-83 | Each chunk is filtered independently: filtering a stream piecewise equals filtering it whole |
| MainLlm.FilterStreamIsSubseq | config/llm/main_llm.py:80-83 | The yielded chunks are the filtered chunks, in backend order, with some left out |
| MainLlm.FilterStreamComplete | config/llm/main_llm.py:82-83 | Every chunk that is non-empty after filtering is yielded |
| MainLlm.FilterStreamDropsEmpty | config/llm/main_llm.py:80-83 | The yielded chunks are the filtered chunks, in backend order, with exactly the empty ones removed |
| MainLlm.FilterStreamSnoc | config/llm/main_llm.py:80-83 | A chunk that arrives last is yielded, filtered, after everything before it, unless it filters to nothing |
| MainLlm.FilterStreamExample | config/llm/main_llm.py:66-83 | `["<think>", "x</think>y", "z"]` streams to `["xy", "z"]` |
| MainLlm.FilterChunks | config/llm/main_llm.py:66-83 | The generator loop yields exactly the filtered stream |
| MainLlm.Get | config/llm/main_llm.py:68-73 | `persona.get(key, "")`: the stored value, or "" when the key is absent |
| MainLlm.BuildStreamInput | config/llm/main_llm.py:66-76 | The prompt variables: each persona field, or "" when it is absent, and the description of that MBTI value, which is "mbti 불명" when there is none. The user message and RAG prompt are passed through |
| MainLlm.MbtiDescriptionKnown | config/llm/main_llm.py:119-144 | A value gets a description of its own exactly when it is one of the sixteen codes (one of I/E, S/N, T/F, J/P in that order). Anything else gets "mbti 불명" |
| MainLlm.MbtiCodesKnown | config/llm/main_llm.py:128-143 | Each of the sixteen codes has a description of its own |
| MainLlm.MbtiOnlyCodesKnown | config/llm/main_llm.py:128-144 | Only the sixteen codes have one |
| MainLlm.MbtiDescription | config/llm/main_llm.py:119-144 | The `get_mbti_description` table: the description of each of the sixteen codes, and "mbti 불명" for anything else |
| MainLlm.ResetAdvance | config/llm/main_llm.py:96-99 | One pass of the reset loop moves one key from the unvisited part to the visited part, deleting it if `uid` owns it |
| MainLlm.ResetStops | config/llm/main_llm.py:94-99 | Where the loop stops, at the end or at a key that does not unpack, it has left exactly the keys and memories the reset describes |
| MainLlm.SessionStore.constructor | config/llm/main_llm.py:23 | The store starts empty |
| MainLlm.SessionStore.GetSessionHistory | config/llm/main_llm.py:38-53 | An existing session's messages are returned with the store unchanged. A missing session is created holding only the greeting, and appended to the key order |
| MainLlm.SessionStore.DeleteSessionHistory | config/llm/main_llm.py:55-56 | The key is removed, or nothing happens if it is absent. The other keys keep their memories and their order |
| MainLlm.SessionStore.AddMessageInSessionHistory | config/llm/main_llm.py:85-92 | A missing session raises KeyError and the store is unchanged. Otherwise only that session's memory changes, to `save_context` of the exchange |
| MainLlm.SessionStore.ResetSessionHistory | config/llm/main_llm.py:94-99 | The reset succeeds exactly when every key unpacks, and otherwise raises ValueError on the first key that does not. The keys of `uid` visited before that point are deleted, and nothing else is |
| MainLlm.SessionStore.ResetKey | config/llm/main_llm.py:97-99 | One pass of the loop: the key unpacks exactly when it is well formed, and it is deleted exactly when it belongs to `uid` |
| MainLlm.SessionStore.ResetPass | config/llm/main_llm.py:95-99 | One pass of the loop at a position of the key snapshot: if the key unpacks, the loop's description of the store moves on to the next position; if not, the store is what the whole reset leaves |
| MainLlm.SessionStore.MainStream | config/llm/main_llm.py:58-83 | The output is the filtered stream of the backend's answer to the prompt variables and the session's history. The session is created with the greeting if it is absent |
| OptionalHelper.Raised | app/internal/utils/optional_helper.py:18 | A callable error is called to build the exception. Otherwise the error itself is raised |
| OptionalHelper.OrElseThrow | app/internal/utils/optional_helper.py:11-19 | A present value is returned. An absent one raises the given exception instance, or the result of calling the given factory |
| OptionalHelper.OrElseThrowIgnoresError | app/internal/utils/optional_helper.py:17-19 | A present value is returned whatever the error argument, so the factory is never called |
| OptionalHelper.OrElseThrowRoundTrip | app/internal/utils/optional_helper.py:11-19 | `or_else_throw` loses nothing: reading a returned value as present and a raise as absent gives back the optional value exactly, whatever the error argument |
| PyStr.Strip | config/common/common_llm.py:140 | `strip` leaves no whitespace at either end and never lengthens the text |
| PyStr.StripPadded | config/common/common_llm.py:140 | `strip` removes the whitespace padding on both sides and nothing else |
| PyStr.StripIsSubseq | config/common/common_llm.py:140 | `strip` only deletes characters |
| PyStr.IndexOf | config/common/common_llm.py:149 | The first position at which the pattern occurs, or none when it occurs nowhere |
| PyStr.Split | config/llm/main_llm.py:97 | `split` on a character gives at least one part, and no part holds the separator |
| PyStr.Replace | config/llm/main_llm.py:80 | `str.replace`: a left-to-right scan that replaces each occurrence of the target that does not overlap an earlier replaced one |
| PyStr.SplitCount | config/llm/main_llm.py:97 | `split` on a character gives one more part than the character's occurrences |
| PyStr.JoinSplit | config/llm/main_llm.py:97 | Joining the parts of a `split` with the separator gives back the key |
| PyStr.SplitJoin | config/llm/main_llm.py:97 | Splitting separator-free parts joined by the separator gives back the parts |
| PyStr.RemoveIsSubseq | config/llm/main_llm.py:80 | `replace(target, "")` only deletes characters |
| PyStr.RemoveCharGone | config/llm/main_llm.py:80 | `replace(c, "")` leaves no `c` |
| PyStr.ReplaceAbsent | config/llm/main_llm.py:80 | Replacing an absent target changes nothing |

## Left out

- The chat model is not modelled, and neither is the LangChain machinery around it.
  - Not modelled: Ollama, `ChatPromptTemplate` binding and `RunnableWithMessageHistory`.
  - Modelled as function parameters instead: the prompt-to-answer call in `invoke` (`generate`) and the prompt-to-chunks call in `main_stream` (`stream`).
  - `MainLlm.__init__`, `MAIN_LLM` and the `__MAIN_TEMPLATE` segments only configure that machinery. They are not modelled.
- MainLlm.SessionStore.MainStream: the history wrapper's writes to the session after the stream, and the laziness of the generator, are not modelled.
  - The whole stream is produced as one sequence.
  - A caller stopping early is not represented.
- MainLlm.SessionStore.AddMessageInSessionHistory: `save_context` is a function parameter.
  - `ConversationSummaryBufferMemory` summarisation (token limit 200, summarising model) is not modelled.
- Memories are values (`seq<Message>`), so two callers holding the same `chat_memory` object, and changes made through it, are not modelled.
- `json.loads` is a parameter (`parse`); JSON numbers keep their literal text rather than becoming floats.
- The class-level lock around instance creation and the one-permit semaphore around backend calls are left out, because concurrency is outside the model.
  - Their only effect is mutual exclusion.
- The log line in `invoke` is left out, because it is output only.
- CommonLlm.Registry.New: `added` stands for what the class's `_add_template()` returns.
  - The hook itself is per-class code outside this core.
  - The compiled `_chain` is represented by the composed prompt only.
- MainLlm.SessionStore.ResetKey and MainLlm.SessionStore.ResetPass: these helper methods stand for one pass of the loop in `reset_session_history`.
  - The methods and the loop are proved against the same specification (`ResetKeys`, `Owned`).
- `persona` values are modelled as strings; a non-string value is not represented.
- `PyStr.IsSpace` lists the Unicode whitespace of Python's `str.isspace`; the regex `\s` is taken to match the same characters.
