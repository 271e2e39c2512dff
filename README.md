# PowerSimple AI — conversation memory, offline responders and the chat assistant

This Dafny project models the memory-and-reply core of the PowerSimple AI learning
repository and proves properties of that model:

- **Day 3 offline memory** (`Memory`): the `ConversationMemory` object and its
  state. That state is a turn buffer, a rolling summary built from the last ten
  turns and cut with `textwrap.shorten`, and a store of facts about the user: a
  name, liked things and used tools, each found by a fixed regular expression.
  The module also covers the persona card rendered from those facts,
  `build_context`, and the rule-based `offline_llm` responder.
- **Day 4 buffer-memory responder** (`BufferReply`): it finds the user's name in
  the conversation text (`extract_name_from_history`) and answers with
  `fake_llm_reply`. A name question is answered first, then a request to be
  reminded (the last three "HUMAN:" lines), then anything else.
- **Day 5 chat assistant** (`Assistant`): the prompt built from the last six
  messages (`build_context`), the plain-text transcript (`export_transcript`),
  and the session's message list. The "Clear chat" button empties that list. A
  non-empty chat input appends the question, calls the model on the prompt and
  appends its reply.

Four support modules hold the Python primitives the core relies on:

- `Text`: `str.strip`, `lower`/`upper`, slicing with negative indices,
  `str.join`, `splitlines`, `replace`, and integer formatting.
- `Ordering`: the code-point order `sorted` uses on strings, and sorted sets.
- `Patterns`: hand-written scanners for the five regular expressions, with
  `re.search` and `re.findall` over them.
- `TextWrap`: `textwrap.shorten`.

Python's mutable objects become Dafny classes:

- `Memory.ConversationMemory` holds the memory's fields. Its methods have
  `modifies` clauses, and `last_window` is a function that reads the object.
- `Assistant.ChatSession` holds the Streamlit session's `messages` list.

Loops in the source are methods with loop invariants, each proved equal to a
specification function. These are the bullet loop of `update_summary`
(`Memory.RenderBullets`), Day 5's `build_context` and `export_transcript`. The
properties are then proved about those functions.

`re.search` and `re.findall` are modelled in two steps. First, a table records
whether the pattern matches at each position of the text, and where its capture
lies. Then a scan over that table returns the first match, or every match with
each search resuming where the previous match ended.

The language model of Day 5 is a function parameter from prompt to outcome. Its
outcome is the reply text, or the text of the exception it raised.

## Model

| member | source | states |
|---|---|---|
| Memory.ConversationMemory.constructor | Day3_Memory/day3_memory_offline.py:8-13 | A new memory has no turns, an empty summary and no entities, and keeps the given window size and summary length |
| Memory.ConversationMemory.Add | Day3_Memory/day3_memory_offline.py:16-17 | Adding a turn appends exactly that (role, text) pair to the buffer; nothing else changes |
| Memory.ConversationMemory.LastWindow | Day3_Memory/day3_memory_offline.py:19-20 | The window is a suffix of the turns. For a positive window size K it holds the last min(2K, n) turns. Size 0 gives all turns, because `-0` slices from the start. A negative size drops the first 2·abs(K) turns |
| Memory.ConversationMemory.UpdateSummary | Day3_Memory/day3_memory_offline.py:23-35 | The summary becomes `shorten` of the bullets of the last ten turns with placeholder " ...". It is at most the target length, and empty when there are no turns. A target below 3 is rejected (Python's ValueError) and leaves the summary unchanged |
| Memory.Bullet | Day3_Memory/day3_memory_offline.py:30-32 | A bullet is exactly the role tag and ": ", followed by the turn's text stripped and with every line feed turned into a space: that prefix, that suffix and nothing between |
| Memory.Digest | Day3_Memory/day3_memory_offline.py:29-33 | The text handed to `shorten` is empty exactly when there are no turns: every bullet is at least "U: " or "A: " long |
| Memory.RenderBullets | Day3_Memory/day3_memory_offline.py:28-32 | The loop renders exactly one bullet per recent turn, in order: the value of the specification function `Memory.Bullets` |
| Memory.BulletTag | Day3_Memory/day3_memory_offline.py:30-32 | A bullet starts "U: " exactly when the turn's role is "user" and "A: " otherwise, and contains no line feed |
| Memory.DigestReadsLastTen | Day3_Memory/day3_memory_offline.py:29 | Turns older than the last ten have no influence on the summary text |
| Memory.DigestOfFewTurns | Day3_Memory/day3_memory_offline.py:29-33 | With ten turns or fewer, the summary text is every turn's bullet joined by " • " |
| Memory.PlaceholderWidth | Day3_Memory/day3_memory_offline.py:35 | The placeholder " ..." needs three characters once its leading space is dropped, so targets of 3 or more are accepted |
| Memory.ConversationMemory.ExtractEntities | Day3_Memory/day3_memory_offline.py:38-53 | The entity store becomes the extraction of the text over the old store, and stays well formed |
| Memory.ExtractFacts | Day3_Memory/day3_memory_offline.py:43-53 | Keys other than "user" are untouched. The user's name is replaced only when "my name is" matches. The likes and tools sets grow by the stripped `findall` captures of their patterns |
| Memory.NameFound | Day3_Memory/day3_memory_offline.py:43-45 | A name found by "my name is" is a stripped, non-empty run of ASCII letters and white space starting with a letter |
| Memory.NameFoundIsFirstMatch | Day3_Memory/day3_memory_offline.py:43-45 | A name is found exactly when "my name is" matches somewhere, and it is the stripped capture of the first match |
| Memory.Recorded | Day3_Memory/day3_memory_offline.py:44-53 | Recording findings touches only the "user" entry. A found name replaces the stored one; found likes and tools are added to the stored sets |
| Memory.RecordedIdempotent | Day3_Memory/day3_memory_offline.py:44-53 | Recording the same findings twice gives the same store as recording them once |
| Memory.Items | Day3_Memory/day3_memory_offline.py:47-53 | Item k is the stripped capture of the k-th `findall` match, so there is one item per match, in text order |
| Memory.ItemsAreItemValues | Day3_Memory/day3_memory_offline.py:47-53 | Every extracted like or tool is stripped and made only of ASCII letters, digits, "-", "_" and spaces |
| Memory.ExtractKeepsWellFormed | Day3_Memory/day3_memory_offline.py:43-53 | Extraction keeps every stored name a stripped run of ASCII letters and white space that starts with a letter, and every stored item an item value |
| Memory.ExtractNoMatch | Day3_Memory/day3_memory_offline.py:43-53 | Text in which no pattern matches anywhere leaves the store exactly as it was |
| Memory.ExtractIdempotent | Day3_Memory/day3_memory_offline.py:43-53 | Extracting the same text twice gives the same store as extracting it once |
| Memory.ExtractOnlyGrows | Day3_Memory/day3_memory_offline.py:43-53 | Likes and tools are never removed, and the name changes only when the text names the user |
| Memory.LikesCaptureIsGreedy | Day3_Memory/day3_memory_offline.py:47-49 | The like capture runs to the end of the item characters. "I like X and I use Y" therefore stores the whole "X and I use Y" as one like |
| Memory.PersonaCard | Day3_Memory/day3_memory_offline.py:55-60 | The card is exactly "Persona → name: " with the shown name, then " \| likes: " and the shown likes, then " \| tools: " and the shown tools: that opening, that closing and nothing between |
| Memory.PersonaCardName | Day3_Memory/day3_memory_offline.py:55-57 | The card opens "Persona → name: " with the stored name, or "User" when none is stored, followed by " \| likes: " |
| Memory.ShownItemsDashIffEmpty | Day3_Memory/day3_memory_offline.py:58-59 | A set is shown as "—" exactly when it is empty, provided "—" is not an item |
| Memory.ShownItemsSorted | Day3_Memory/day3_memory_offline.py:58-59 | A non-empty set is shown as its items in strictly increasing code-point order, each item once and nothing else, joined by ", " |
| Memory.PersonaCardDash | Day3_Memory/day3_memory_offline.py:58-59 | For a well-formed store, likes and tools are each shown as "—" exactly when none are stored |
| Memory.BuildContext | Day3_Memory/day3_memory_offline.py:86-91 | The context holds the memory's summary, its persona card and exactly its `last_window()`, a suffix of its turns |
| Memory.CountUserTurns | Day3_Memory/day3_memory_offline.py:79-80 | The count of user messages is at most the window's length, and equals it exactly when every turn in the window is the user's; a single turn counts 1 exactly when it is the user's |
| Memory.CountUserTurnsAppend | Day3_Memory/day3_memory_offline.py:79-80 | The count over two runs of turns is the sum of their counts, so with the single-turn values it is the number of user turns |
| Memory.OfflineReply | Day3_Memory/day3_memory_offline.py:65-81 | Each of the four replies is produced exactly when its rule is the first to apply to the lower-cased message. "your name" gives the introduction; otherwise "summary" gives the heading and the context's summary, or "(empty)" when it has none. Otherwise "who am i" or "my name" gives the heading and the context's persona, or "(no persona yet)"; otherwise the fallback |
| Memory.EchoReply | Day3_Memory/day3_memory_offline.py:79-81 | The fallback is exactly "(I see your recent ", the number of user turns in the context's window (none when it has no window) and " message(s).) ", then "You said: '", the message's first 140 characters and "'. Tell me more so I can help.": that opening, that ending and nothing between |
| Memory.EchoReplyQuotes | Day3_Memory/day3_memory_offline.py:79-81 | The fallback ends by quoting the message's first 140 characters at most, a prefix of the message; the number of user turns counted in the window never exceeds the window's length |
| Patterns.MatchAt | Day3_Memory/day3_memory_offline.py:43-51 | A match at position i has its capture between i and the end of the text, non-empty |
| Patterns.NameCapture | Day3_Memory/day3_memory_offline.py:43 | The name group: an ASCII letter, then the longest run of letters and white space (at least one more character) |
| Patterns.ItemCapture | Day3_Memory/day3_memory_offline.py:47 | The item group, greedy over letters, digits, "-", "_" and spaces |
| Patterns.Matches | Day3_Memory/day3_memory_offline.py:43-51 | The table holds, for every position of the text, the scanner's outcome there; each hit lies after its position and has the shape of its pattern's capture |
| Patterns.FirstHitIsFirst | Day3_Memory/day3_memory_offline.py:43 | The first hit of a table is the entry at the first position holding one, and is missing exactly when no position from the start on holds one |
| Patterns.AllHitsIsRepeatedFirst | Day3_Memory/day3_memory_offline.py:47 | Collecting every hit is taking the first hit and collecting again from where it ends |
| Patterns.AllHitsOrdered | Day3_Memory/day3_memory_offline.py:47 | The collected hits are in text order and do not overlap |
| Patterns.Search | Day3_Memory/day3_memory_offline.py:43 | `re.search`: a hit lies within the text from the starting position on |
| Patterns.SearchIsFirstMatch | Day3_Memory/day3_memory_offline.py:43 | `re.search` returns the match at the first position where the pattern matches, and nothing only when no position matches |
| Patterns.FindAll | Day3_Memory/day3_memory_offline.py:47 | `re.findall`: every hit lies within the text |
| Patterns.FindAllIsRepeatedSearch | Day3_Memory/day3_memory_offline.py:47 | `findall` is the first match followed by `findall` from where that match ends |
| Patterns.FindAllEmpty | Day3_Memory/day3_memory_offline.py:47-53 | `findall` is empty exactly when no position matches |
| Patterns.FindAllOrdered | Day3_Memory/day3_memory_offline.py:47 | `findall` hits are in text order and do not overlap |
| Patterns.NameCaptureIsName | Day4_ConversationMemory/day4_memory_buffer_offline.py:6-12 | Every stripped name capture is a non-empty, stripped run of ASCII letters and white space starting with a letter |
| Ordering.SortedItems | Day3_Memory/day3_memory_offline.py:58-59 | `sorted` on a set: the same items, each once, in strictly increasing code-point order |
| TextWrap.Shorten | Day3_Memory/day3_memory_offline.py:35 | `shorten` rejects a width that is not positive or is below the stripped placeholder's length. Otherwise its result is at most the width, and it is the collapsed text itself whenever that fits |
| TextWrap.ShortenDropsTrailingWords | Day3_Memory/day3_memory_offline.py:35 | Text that does not fit is cut after the longest run of leading words that still leaves room for the placeholder; the placeholder follows. When no word fits, only the stripped placeholder is left |
| TextWrap.ShortenEmpty | Day3_Memory/day3_memory_offline.py:35 | Shortening the empty text gives the empty text |
| TextWrap.CollapseNormalised | Day3_Memory/day3_memory_offline.py:35 | Collapsing white space is the identity on text that is already single-spaced with no leading or trailing space |
| TextWrap.Words | Day3_Memory/day3_memory_offline.py:35 | `split()` gives pieces that are non-empty and hold no white space |
| TextWrap.WordsCons | Day3_Memory/day3_memory_offline.py:35 | After leading white space, a word that runs to white space or the end is the first piece, and the rest of the text gives the others: the pieces are the text's maximal runs without white space, in order |
| TextWrap.WordsEmptyIffBlank | Day3_Memory/day3_memory_offline.py:35 | `split()` gives no piece exactly when the text is all white space |
| TextWrap.Collapse | Day3_Memory/day3_memory_offline.py:35 | Collapsed text is single-spaced, with no white space at either end |
| TextWrap.CollapseCons | Day3_Memory/day3_memory_offline.py:35 | Collapsing keeps the first word, then, unless only white space follows, one space and the collapsed rest: every word in order, and nothing else |
| TextWrap.CollapseIdempotent | Day3_Memory/day3_memory_offline.py:35 | Collapsing twice is the same as collapsing once |
| BufferReply.ExtractNameFromHistory | Day4_ConversationMemory/day4_memory_buffer_offline.py:4-13 | A name found is a stripped, non-empty run of ASCII letters and white space starting with a letter |
| BufferReply.NoNameIffNoMatch | Day4_ConversationMemory/day4_memory_buffer_offline.py:4-13 | No name is returned exactly when neither "my name is" nor "I'm"/"I am" matches anywhere |
| BufferReply.MyNameIsWins | Day4_ConversationMemory/day4_memory_buffer_offline.py:6-8 | When "my name is" matches, the name is the stripped capture of its first match, whatever "I am" matches |
| BufferReply.IAmFallback | Day4_ConversationMemory/day4_memory_buffer_offline.py:10-12 | Only when "my name is" matches nowhere, the name is the stripped capture of the first "I'm"/"I am" match |
| BufferReply.NameRunsIntoNextLine | Day4_ConversationMemory/day4_memory_buffer_offline.py:6-8 | The name run `[A-Za-z\s]+` takes line breaks too: in "my name is Vikas", a line break, "AI: Hi", the name found is "Vikas", the line break and "AI" |
| BufferReply.FirstPositionName | Day4_ConversationMemory/day4_memory_buffer_offline.py:6-8 | A "my name is" match at the very start of the text decides the name: it is that match's stripped capture |
| BufferReply.HumanLines | Day4_ConversationMemory/day4_memory_buffer_offline.py:27 | The kept lines are exactly the lines that start with "HUMAN:" |
| BufferReply.HumanLinesAppend | Day4_ConversationMemory/day4_memory_buffer_offline.py:27 | Filtering two lists of lines joined is filtering each and joining: kept lines keep their order and multiplicity |
| BufferReply.Cleaned | Day4_ConversationMemory/day4_memory_buffer_offline.py:28 | A cleaned line is stripped and no longer than the line |
| BufferReply.CleanedTagged | Day4_ConversationMemory/day4_memory_buffer_offline.py:28 | A line of "HUMAN:" and text without another "HUMAN:" cleans to that text, stripped: the tag goes and the rest of the line stays |
| BufferReply.CleanedTwoTags | Day4_ConversationMemory/day4_memory_buffer_offline.py:28 | A line with a "HUMAN:" at its start and another after text x loses both tags: it cleans to x and the text after the second tag, stripped |
| BufferReply.RecalledLines | Day4_ConversationMemory/day4_memory_buffer_offline.py:27-28 | The recalled lines are the last min(3, n) of the n "HUMAN:" lines, in order |
| BufferReply.JoinCleaned | Day4_ConversationMemory/day4_memory_buffer_offline.py:28 | The recalled lines, cleaned and joined by " \| ", are empty with no recalled line, the cleaned line with one, exactly the cleaned lines with " \| " between them for two or three, and with two or more it opens with the first cleaned line and " \| " and closes with " \| " and the last cleaned line |
| BufferReply.SingleLineContext | Day4_ConversationMemory/day4_memory_buffer_offline.py:27 | Text without line breaks is one line: it is recalled exactly when it starts with "HUMAN:" |
| BufferReply.RecollectionEmpty | Day4_ConversationMemory/day4_memory_buffer_offline.py:28-29 | The recollection is empty exactly when no line is recalled, or one line whose cleaned text is empty |
| BufferReply.FakeReply | Day4_ConversationMemory/day4_memory_buffer_offline.py:15-35 | Each of the four replies is produced exactly when its rule is the first to apply. A name question gets exactly "Your name is X." for the name X found in the context, else the no-name prompt. Otherwise a reminder request gets "Recently you said: …". Otherwise the hint reply, exactly `DefaultReply` for that name and message, which says "I remember your name is X." when a name was found |
| BufferReply.Answer | Day4_ConversationMemory/day4_memory_buffer_offline.py:16-35 | For a name already looked up, each of the four replies is produced exactly when its rule is the first to apply; a name counts only when it is not empty, as `if name:` decides. A name question gets exactly "Your name is X.", and otherwise the catch-all reply is exactly `DefaultReply` for that name and message, which says "I remember your name is X." |
| BufferReply.ReminderReply | Day4_ConversationMemory/day4_memory_buffer_offline.py:25-29 | The reminder repeats the recollection, or "(no prior messages)" when it is empty |
| BufferReply.DefaultReply | Day4_ConversationMemory/day4_memory_buffer_offline.py:31-35 | The catch-all reply is exactly the hint (with " I remember your name is X." for a non-empty name X) and the quote of the message's first 140 characters: that opening, that ending and nothing between |
| BufferReply.DefaultReplyHint | Day4_ConversationMemory/day4_memory_buffer_offline.py:32-34 | The catch-all reply says " I remember your name is " exactly when a non-empty name is known, followed by that name and "." |
| Assistant.Window | Day5_Assistant/app.py:43-47 | The window is the last min(6, n) messages, in order |
| Assistant.Clip | Day5_Assistant/app.py:51-53 | Text of at most 800 characters is kept. Longer text becomes its first 800 characters and "…" |
| Assistant.BuildContext | Day5_Assistant/app.py:45-61 | The prompt built by the loop equals the specification function `Assistant.Prompt` (system text, history block, question) |
| Assistant.PromptHistory | Day5_Assistant/app.py:47-54 | The history holds one line for each of the last min(6, n) messages, oldest first |
| Assistant.HistoryLineLabel | Day5_Assistant/app.py:50-54 | A history line is exactly "User: " when the role is "user", else "Assistant: ", followed by the stripped, clipped text, with nothing between |
| Assistant.NoHistoryIffNoMessages | Day5_Assistant/app.py:55 | The block is "(no prior context yet)" exactly when there are no messages |
| Assistant.Prompt | Day5_Assistant/app.py:56-61 | The prompt is exactly the system text, the "--- Recent history ---" heading, the history block of the last six messages, then the new question and the "Assistant:" cue, with nothing else |
| Assistant.QuestionAlsoInHistory | Day5_Assistant/app.py:102-105 | The question is appended before the prompt is built, so the last history line is the question itself and the prompt carries it twice |
| Assistant.Block | Day5_Assistant/app.py:66 | A message's block is exactly its upper-cased role and ":" on a line of its own, then its content and a line break, with nothing between |
| Assistant.Transcript | Day5_Assistant/app.py:63-67 | The transcript is empty exactly when there are no messages, is the one block for a single message, and otherwise opens with the first message's block |
| Assistant.ExportTranscript | Day5_Assistant/app.py:63-67 | The text built by the loop equals the specification function `Assistant.Transcript`: each message's upper-cased role, content and a line break, joined by line breaks |
| Assistant.TranscriptAppend | Day5_Assistant/app.py:63-67 | Exporting one more message appends a line break and that message's block to the previous export |
| Assistant.ChatSession.constructor | Day5_Assistant/app.py:70-71 | A new session has no messages |
| Assistant.ChatSession.Clear | Day5_Assistant/app.py:80-82 | Clearing leaves no messages |
| Assistant.ReplyText | Day5_Assistant/app.py:106-111 | The stored reply is the model's answer as it is, or exactly "⚠️ Error: " followed by the error text: that prefix, that suffix and nothing between |
| Assistant.ChatSession.Submit | Day5_Assistant/app.py:98-115 | Empty input changes nothing. Otherwise the question is stored and the model is asked the prompt built over the list that now ends with it. Its reply, or "⚠️ Error: " and the error, is stored after the question. Any list is accepted; one that alternated user and assistant still does |
| Assistant.ExchangeKeepsAlternating | Day5_Assistant/app.py:102-115 | Appending a question and its reply keeps the stored messages alternating user and assistant |
| Text.Strip | Day3_Memory/day3_memory_offline.py:31 | `str.strip` leaves no white space at either end and never lengthens the text |
| Text.StripSpec | Day3_Memory/day3_memory_offline.py:31 | The stripped text is a contiguous piece of the input, with only white space cut off on either side |
| Text.StripIdempotent | Day3_Memory/day3_memory_offline.py:45 | Stripping twice is the same as stripping once |
| Text.NewlinesToSpaces | Day3_Memory/day3_memory_offline.py:31 | `replace("\n", " ")` turns every line feed into a space, keeps every other character and the length, and leaves no line feed |
| Text.PySliceFrom | Day3_Memory/day3_memory_offline.py:20 | `s[start:]` is a suffix of s: for a negative start its length is min(-start, len(s)), otherwise len(s) minus the clamped start |
| Text.SplitLines | Day4_ConversationMemory/day4_memory_buffer_offline.py:27 | `splitlines` gives no lines exactly when the text is empty |
| Text.SplitLinesHaveNoBreaks | Day4_ConversationMemory/day4_memory_buffer_offline.py:27 | No line that `splitlines` gives holds a line break |
| Text.SplitLinesJoin | Day4_ConversationMemory/day4_memory_buffer_offline.py:27 | For text whose only line breaks are line feeds, joining the lines with "\n" gives the text back, less one final line feed |
| Text.RemoveAll | Day4_ConversationMemory/day4_memory_buffer_offline.py:28 | `replace(pat, "")` never lengthens the text |
| Text.RemoveAllSplit | Day4_ConversationMemory/day4_memory_buffer_offline.py:28 | An occurrence after text in which no occurrence begins is removed and that text is kept, before the rest is processed: with RemoveAllLeading and RemoveAllAbsent, every occurrence goes and everything else stays, in order |
| Text.RemoveAllAbsent | Day4_ConversationMemory/day4_memory_buffer_offline.py:28 | `replace(pat, "")` leaves text in which the pattern does not occur unchanged |
| Text.RemoveAllLeading | Day4_ConversationMemory/day4_memory_buffer_offline.py:28 | A leading occurrence of the pattern is removed and the rest is processed on its own |
| Text.Lower | Day4_ConversationMemory/day4_memory_buffer_offline.py:16 | `lower` keeps the length and maps each character on its own, ASCII capitals to small letters |
| Text.Upper | Day5_Assistant/app.py:66 | `upper` keeps the length and maps each character on its own, ASCII small letters to capitals |
| Text.Join | Day4_ConversationMemory/day4_memory_buffer_offline.py:28 | `join` of no parts is "", and of one part is that part |
| Text.JoinSnoc | Day5_Assistant/app.py:67 | Joining one more part appends the separator and that part |
| Text.JoinShort | Day4_ConversationMemory/day4_memory_buffer_offline.py:28 | Two or three parts join to the parts with the separator between each neighbouring pair |
| Text.JoinEnds | Day4_ConversationMemory/day4_memory_buffer_offline.py:28 | A join of two or more parts opens with the first part and the separator and closes with the separator and the last part |
| Text.JoinStartsWithFirst | Day5_Assistant/app.py:55 | A join of one or more parts opens with the first part |
| Text.JoinEmpty | Day4_ConversationMemory/day4_memory_buffer_offline.py:28-29 | A join with a non-empty separator is empty exactly when there are no parts, or one empty part |
| Text.NatToStringRoundTrip | Day3_Memory/day3_memory_offline.py:80 | The decimal digits printed for a count read back as that count |
| Text.NatToString | Day3_Memory/day3_memory_offline.py:80 | A count is printed as at least one decimal digit, with a leading "0" only for zero |

## Left out

- Unicode semantics: `str.lower`/`str.upper` are modelled for ASCII letters only. Letters and `\b` are ASCII. Python's `re.I` with `[A-Za-z]` also matches "ſ" (U+017F), the Kelvin sign (U+212A), "İ" (U+0130) and "ı" (U+0131). Each of them also matches its literal letter in the patterns: "ſ" the "s" of "is" and "use", the Kelvin sign the "k" of "like" and "work", and "İ"/"ı" the "i" of "I", "is", "like", "with", "i'm" and "i am". The model matches none of them. White space is Python's set of white-space characters.
- TextWrap.Shorten: models `shorten` word by word. `TextWrapper` also splits words after hyphens and can break a word longer than the width; those chunks are not modelled. The stated bounds hold either way, and the exact cut point may differ on hyphenated text.
- TextWrap.Words: its own contract gives only that every piece is a word. Which pieces, and in what order, is given by the lemmas TextWrap.WordsCons and TextWrap.WordsEmptyIffBlank, which keep the recursion on one step at a time.
- TextWrap.Collapse: its own contract gives only that the result is single-spaced. Its content is given by the lemmas TextWrap.CollapseCons and TextWrap.CollapseNormalised.
- Text.RemoveAll: its own contract gives only the length bound. Its value is given by the lemmas Text.RemoveAllAbsent, Text.RemoveAllLeading and Text.RemoveAllSplit, and, for "HUMAN:" lines, by BufferReply.CleanedTagged and BufferReply.CleanedTwoTags.
- TextWrap.ShortenDropsTrailingWords: the same word-level simplification; the cut is stated at white space only.
- Memory.ConversationMemory.UpdateSummary: Python raises ValueError for a target length below 3. The model instead returns `false` and leaves the summary unchanged.
- Memory.ConversationMemory.constructor: the Python defaults (window 4, summary length 500) are passed as parameters.
- Memory.ExtractFacts: an absent "likes" or "tools" entry and an empty set are the same value. The store never creates an entry without adding an item, and the card shows "—" for both.
- Memory.LikesCaptureIsGreedy: only the greedy "likes" half of the two-fact sentence is proved, for all item texts. The companion tools capture from "I use Python" inside the same sentence is not evaluated on a concrete string.
- Assistant.ChatSession.Submit: only a completed run is modelled. A BaseException escaping app.py:104-115 (anything the `except Exception` at app.py:110 does not catch, or a failure of the rendering at app.py:114) ends the run after the question was stored at app.py:102, so the list keeps a question without a reply. The model admits such lists as input but does not produce them.
- The `main` loops of Day 3 and Day 4: console input and output are not part of this model.
- LangChain's `ConversationBufferMemory` is not part of this model. Day 4's reply takes the conversation text it would produce as a parameter.
- Streamlit rendering, the spinner, the page title and footer, and the sidebar: not part of this model. The chat input's `None` (nothing submitted) and `""` both count as no input.
- The Day 5 model call `llm.invoke`: a function parameter. Its result's `content` (or `str(resp)`), or the exception text, is its outcome.
- The export's download button and its time-stamped file name: these need a clock and a download, so they are not part of this model.
- Reading `OPENAI_API_KEY`, `MODEL_NAME` and `TEMPERATURE` from the environment: configuration that no modelled operation reads.
- The later scripts (PowerAI_MemoryChat, day8 to day11) and the Day 1 setup are not part of this model.
- Behaviour of the code that the model keeps as written:
  - Day3_Memory/day3_memory_offline.py:47: the "likes" capture is greedy over letters, digits, "-", "_" and spaces, so "I like LangChain and I use Python" stores "LangChain and I use Python" as one like (Memory.LikesCaptureIsGreedy).
  - Day4_ConversationMemory/day4_memory_buffer_offline.py:28: `replace("HUMAN:", "")` removes every "HUMAN:" in a recalled line, not only the leading tag (BufferReply.CleanedTwoTags).
  - Day5_Assistant/app.py:102-105: the question is stored before the prompt is built, so the prompt carries it twice, as the last history line and as the new question (Assistant.QuestionAlsoInHistory).
  - Day4_ConversationMemory/day4_memory_buffer_offline.py:6, :10 and :55-57: the name run `[A-Za-z\s]+` crosses line breaks, and the context is "TYPE: content" lines, so a name at the end of a line takes the next line's tag with it (BufferReply.NameRunsIntoNextLine).
