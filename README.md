# Haeuso backend decision logic, in Dafny

Haeuso is an emotion-journaling app. The user writes a short reflection tagged
with one of five emotions (calm, sad, angry, anxious, happy). The backend
answers with a short comfort line, or with a comment on the emotions recorded
over a period. This project models the parts of the Python backend that make
decisions and process text:

- **Crisis and medical-tone screening** (`safety.dfy`). `is_crisis_text` looks
  for six crisis keywords in the lower-cased text. `has_medical_risk` searches
  the lower-cased text for the seven `MEDICAL_RISK_PATTERNS`. Each regular
  expression is written out as a recogniser `PatternAt`. The two patterns of
  the form "word, optional whitespace, one of N words" use Python's whitespace
  set.
- **Fixed texts** (`messages.dfy`, `fixed_texts.dfy`). These are the fallback
  comfort lines, the fallback insight comments and the test-mode ("stub")
  texts, written with the same characters as the source. The
  `fallback_comfort_message` line index is `len(text.strip()) % 2`.
- **Guardrails** (`guardrails.dfy`). A generated text with medical risk is
  replaced by the fallback, and the guardrail reports whether it fired. The
  model proves that no fallback text has medical risk, and that no stub text
  the endpoints produce has any (the dominant value they pass is an emotion
  value or "none"). It does this with a sufficient condition (`Safe`): no
  position of the text can begin a match. That condition is closed under
  concatenation.
- **The two endpoints** (`endpoints.dfy`). `comfort` and `insight` are modelled
  as methods that update their flags step by step, as the source does. The
  generator is a function-valued parameter that returns `Success(text)` or
  `Failure(error)`. The mode is the resolved `llm_mode` setting. `insight`
  counts the entries in a loop into a map keyed by the emotion values. It
  picks the dominant emotion as `Counter.most_common(1)` does: the first
  emotion with the maximal count, in declaration order.
- **PII masker** (`pii_guard.dfy`, `substitution.dfy`, `regex.dfy`).
  `mask_pii` runs five patterns in order: email, phone, rrn, business_no,
  card_no. Each pass is `pattern.sub` over the previous pass's output. The
  `_repl` callback counts every replacement and records each type name once.
  The patterns are written out in a small regular-expression model. That model
  follows the order in which Python's backtracking engine tries alternatives
  (greedy `?`, `*`, `{m,n}`), plus the digit lookarounds and `\b`. `re.sub` is
  a left-to-right scan over a table of where a match starts and ends at each
  position. Matches never overlap, and the scan resumes where a match ended.
- **Settings** (`config.dfy`). The process environment is a
  `map<string, string>`. The `.env` file is `Option<seq<string>>` of its
  lines, where `None` means the file is missing or unreadable.
  `_read_env_file_value` is a loop over the lines that skips blank, comment and
  `=`-less lines, splits each line at its first `=`, returns on the first
  matching key, and strips the value. The resolvers for the API key, the model
  name, the integer timeout and the mode are functions of these two values.
- **Python string operations** (`text.dfy`): `str.isspace`, `strip()`,
  `strip(c)`, `lower()`, `in`, `str(int)`, `int(str)`.

## Model

| member | source | states |
|---|---|---|
| `Emotions.OrCalm` | backend/app/main.py:153 | A missing emotion is calm; a given one is kept. |
| `Emotions.Rank` | backend/app/main.py:21-26 | Every emotion has a position in the declaration order calm, sad, angry, anxious, happy, and the order holds it there. |
| `Emotions.DeclaredOnce` | backend/app/main.py:21-26 | Every emotion appears exactly once in the declaration order. |
| `Emotions.ValueInjective` | backend/app/main.py:21-26 | Two emotions have the same string value exactly when they are the same emotion. |
| `Emotions.KoLabel` | backend/app/main.py:29-35 | Every Korean label is a word of at least two Hangul syllables. |
| `Emotions.KoLabelInjective` | backend/app/main.py:29-35 | Two emotions have the same Korean label exactly when they are the same emotion. |
| `Safety.IsCrisisText` | backend/app/main.py:137-139 | True exactly when some crisis keyword occurs in the lower-cased text. |
| `Safety.CrisisIgnoresCase` | backend/app/main.py:66-73 | The keywords have no ASCII letters, so the text is a crisis text exactly when a keyword occurs in it as written. |
| `Safety.CrisisKeywordAnywhere` | backend/app/main.py:137-139 | Any text with a crisis keyword somewhere inside it is a crisis text. |
| `Safety.Search` | backend/app/main.py:144 | `pattern.search` from position i succeeds exactly when the pattern matches at some position at or after i. |
| `Safety.PatternAt` | backend/app/main.py:75-83 | A match of any of the seven patterns begins with one of the lead characters (진, 처, 병, 입, 약, 우, 불, 조, 양, 치) and is at least two characters long. |
| `Safety.HasMedicalRisk` | backend/app/main.py:142-144 | True exactly when one of the seven patterns matches at some position of the lower-cased text. |
| `Safety.RiskWordFlagged` | backend/app/main.py:75-81 | Each of the eight words a pattern matches on its own (진단 … 양극성) is flagged wherever it occurs. |
| `Safety.PatternNeedsViable` | backend/app/main.py:75-83 | A match of any pattern can start only at a lead character followed by the character the pattern needs next. |
| `Safety.QuietHasNoRisk` | backend/app/main.py:142-144 | A text in which no position can begin a match has no medical risk. |
| `Safety.SafeJoin` | backend/app/main.py:75-83 | Concatenating two texts that cannot begin a match, even at their ends, gives such a text again. |
| `Messages.FallbackComfortMessage` | backend/app/main.py:152-156 | The message is line number `len(strip(text)) % 2` of the emotion (calm when missing), followed by the closing sentence it always ends with. |
| `Messages.FallbackLines` | backend/app/main.py:85-106 | Every emotion has exactly two fallback lines, and each is a sentence ending in a full stop. |
| `Messages.FallbackMissingIsCalm` | backend/app/main.py:153 | A missing emotion gets the same fallback message as calm. |
| `Messages.FallbackByParity` | backend/app/main.py:154-156 | Two texts get the same fallback message exactly when their stripped lengths have the same parity. |
| `Messages.LinesDiffer` | backend/app/main.py:85-106 | The two fallback lines of every emotion are different. |
| `Messages.FallbackInsightComment` | backend/app/main.py:159-172 | The no-records text when total is 0; otherwise the exhaustion text exactly when the dominant emotion is anxious, sad or angry, and the recovery text exactly otherwise. |
| `Messages.ExhaustedComment` | backend/app/main.py:163-167 | The exhaustion comment opens with "최근 N일은 ", naming the period. |
| `Messages.RecoveryComment` | backend/app/main.py:169-172 | The recovery comment opens with "최근 N일은 ", naming the period. |
| `Messages.ExhaustedIsNotRecovery` | backend/app/main.py:163-172 | The exhaustion and recovery comments differ for every period. |
| `Messages.StubComfortMessage` | backend/app/main.py:108-114 | Every stub comfort line starts with "테스트 모드 응답입니다.". |
| `Messages.StubComfortTail` | backend/app/main.py:108-114 | After the prefix, every stub comfort line continues with one space and a sentence ending in a full stop. |
| `Messages.StubInsightComment` | backend/app/main.py:179-186 | Every stub insight comment starts with "테스트 모드 응답입니다.". |
| `Guardrails.ApplyComfortGuardrail` | backend/app/main.py:189-193 | Returns the message and false when it has no medical risk, and the fallback comfort message and true otherwise; the returned text never has medical risk. |
| `Guardrails.ApplyInsightGuardrail` | backend/app/main.py:196-200 | Returns the comment and false when it has no medical risk, and the fallback insight comment and true otherwise; the returned text never has medical risk. |
| `Guardrails.ComfortGuardrailIdempotent` | backend/app/main.py:189-193 | A message that went through the comfort guardrail passes it again unchanged and without firing. |
| `Guardrails.InsightGuardrailIdempotent` | backend/app/main.py:196-200 | A comment that went through the insight guardrail passes it again unchanged and without firing. |
| `Guardrails.FallbackComfortSafe` | backend/app/main.py:85-106 | No fallback comfort message has medical risk. |
| `Guardrails.FallbackInsightSafe` | backend/app/main.py:159-172 | No fallback insight comment has medical risk, for any period. |
| `Guardrails.StubComfortSafe` | backend/app/main.py:108-114 | No stub comfort line has medical risk. |
| `Guardrails.StubInsightSafe` | backend/app/main.py:179-186 | No stub insight comment has medical risk when the dominant value holds no lead character. |
| `Guardrails.DominantNoLead` | backend/app/main.py:290-293 | The emotion values and "none" hold no lead character. |
| `Endpoints.Comfort` | backend/app/main.py:208-272 | A crisis keyword in the raw content gives category "crisis", the fixed message and exactly the three hotlines, whatever the mode or generator. Otherwise the category is "normal", the resources are empty and the message has no medical risk. In stub mode the answer is the stub line and no flag is set. In live mode the generator gets the Korean label and the PII-masked text; the generator's line is used unless it failed or the guardrail fired; `fallback_used` holds exactly when the generator failed or the guardrail fired. |
| `Endpoints.FallbackAsSome` | backend/app/main.py:240 | Resolving the emotion to calm before asking for the fallback gives the fallback of the request's own emotion. |
| `Endpoints.NormalizePeriod` | backend/app/main.py:283 | The period is always 7 or 30, and equals the request exactly when the request is 7 or 30. |
| `Endpoints.DefaultEmotionCounter` | backend/app/main.py:275-276 | The map has exactly the five emotion values as keys, each mapped to 0. |
| `Endpoints.Occurrences` | backend/app/main.py:286-287 | The number of entries with an emotion is at most the number of entries, and 0 exactly when no entry has that emotion. |
| `Endpoints.CountEmotions` | backend/app/main.py:284-287 | After the loop, the map has exactly the five emotion keys and each count is the number of entries with that emotion. |
| `Endpoints.OccurrencesSum` | backend/app/main.py:289 | The five per-emotion counts add up to the number of entries. |
| `Endpoints.TotalIsLength` | backend/app/main.py:289 | `sum(counts.values())` is the number of entries. |
| `Endpoints.FirstMax` | backend/app/main.py:293 | Among the first n emotions, the chosen one has a maximal count and a strictly larger count than every emotion declared before it. |
| `Endpoints.MostCommon` | backend/app/main.py:293 | `most_common(1)` picks an emotion with the maximal count; ties go to the first in declaration order. |
| `Endpoints.Dominant` | backend/app/main.py:290-293 | "none" exactly when the total is 0, and otherwise the value of the most common emotion. |
| `Endpoints.DominantCharacterized` | backend/app/main.py:290-293 | With records, an emotion is dominant exactly when its count is maximal and strictly above that of every emotion declared before it. |
| `Endpoints.DominantOfSingle` | backend/app/main.py:290-293 | When only one emotion has a non-zero count, it is dominant. |
| `Endpoints.DominantOfUniform` | backend/app/main.py:284-293 | Entries that all record the same emotion make it the dominant one. |
| `Endpoints.Insight` | backend/app/main.py:279-337 | The response carries the normalised period, the five exact counts, and the dominant value ("none" exactly when there are no entries). Its comment has no medical risk. In stub mode the comment is the stub comment and no flag is set. In live mode the generator gets the period, the counts and the total; its comment is used unless it failed or the guardrail fired, and `fallback_used` holds exactly when one of those happened. |
| `PiiGuard.Pattern` | apps/api/app/pii_guard.py:15-21 | None of the five compiled patterns matches the empty string. |
| `PiiGuard.EmailMatchShape` | apps/api/app/pii_guard.py:16 | An email match is at least six characters long (`x@x.xx`) and holds only ASCII letters, digits, `.`, `_`, `%`, `+`, `-` and `@`. |
| `PiiGuard.PhoneMatchShape` | apps/api/app/pii_guard.py:17 | A phone match is 9 to 17 characters long and holds only digits, `+`, `-` and whitespace. |
| `PiiGuard.RrnMatchShape` | apps/api/app/pii_guard.py:18 | An rrn match is 13 or 14 characters long and holds only digits and `-`. |
| `PiiGuard.BusinessNoMatchShape` | apps/api/app/pii_guard.py:19 | A business number match is exactly 12 characters long and holds only digits and `-`. |
| `PiiGuard.CardNoMatchShape` | apps/api/app/pii_guard.py:20 | A card number match is 16 to 19 characters long and holds only digits, `-` and whitespace. |
| `PiiGuard.DigitPatternBoundaries` | apps/api/app/pii_guard.py:17-20 | A match of the phone, rrn, business_no or card_no pattern is neither preceded nor followed by a digit. |
| `PiiGuard.Repl` | apps/api/app/pii_guard.py:30-35 | `_repl` adds one to the counter, appends the type name unless it is already recorded, and returns the tag. |
| `PiiGuard.RecordContents` | apps/api/app/pii_guard.py:33-34 | Recording a type name keeps the earlier names as a prefix, adds that name and no other, and recording it again changes nothing. |
| `PiiGuard.SubstitutePass` | apps/api/app/pii_guard.py:37 | One `pattern.sub(_repl, masked)` yields the scan's output. The counter grows by the number of matches, and the type is recorded exactly when there was at least one match. |
| `PiiGuard.StageStep` | apps/api/app/pii_guard.py:29-37 | Pass n works on the output of the passes before it, and its count is appended after theirs. |
| `PiiGuard.MaskStep` | apps/api/app/pii_guard.py:29-37 | One iteration of the pattern loop moves the text, counter and detected list from the state after n passes to the state after n+1 passes. |
| `PiiGuard.MaskPii` | apps/api/app/pii_guard.py:24-43 | `mask_pii` returns the text after the five passes in the order email, phone, rrn, business_no, card_no. The detected types are the names of the passes that replaced something, in pass order. The replacement count is the sum of the passes' match counts. |
| `PiiGuard.Masking` | apps/api/app/pii_guard.py:24-43 | Every name in `detected_types` is the type name of one of the five patterns. |
| `PiiGuard.Mask` | apps/api/app/pii_guard.py:24-43 | When `replacements` is 0, `masked_text` is the input unchanged. |
| `PiiGuard.StageOfNoCount` | apps/api/app/pii_guard.py:29-37 | Passes that together replaced nothing leave the text as it was. |
| `PiiGuard.DetectedOrdered` | apps/api/app/pii_guard.py:30-35 | The recorded type names appear in strictly increasing pattern order. |
| `PiiGuard.MaskDetectedDistinct` | apps/api/app/pii_guard.py:30-35 | `detected_types` follows the pattern order and holds no duplicates. |
| `PiiGuard.DetectedIff` | apps/api/app/pii_guard.py:30-35 | The name of pass j is recorded exactly when pass j's count is positive. |
| `PiiGuard.MaskDetectedIff` | apps/api/app/pii_guard.py:30-35 | A type appears in `detected_types` exactly when its pass replaced at least one match. |
| `PiiGuard.DetectedAtMostTotal` | apps/api/app/pii_guard.py:27-35 | There are never more recorded names than replacements, and no names exactly when there are no replacements. |
| `PiiGuard.MaskCounts` | apps/api/app/pii_guard.py:27-35 | `replacements >= len(detected_types)`, and `detected_types` is empty exactly when `replacements == 0`. |
| `PiiGuard.PassNoMatch` | apps/api/app/pii_guard.py:37 | A pattern that matches nowhere leaves the text unchanged and counts nothing. |
| `PiiGuard.MaskNoMatch` | apps/api/app/pii_guard.py:25-43 | If no pattern matches anywhere in the input, `mask_pii` returns the input unchanged, no types and 0 replacements. |
| `Substitution.MatchTable` | apps/api/app/pii_guard.py:37 | The table holds, at every position, the end of the match the engine reports there; every match ends after its start and within the text. |
| `Substitution.SubFrom` | apps/api/app/pii_guard.py:37 | The scan from a position replaces at most as many matches as there are characters left. |
| `Substitution.Sub` | apps/api/app/pii_guard.py:37 | `pattern.sub` replaces at most one match per character. It replaces none exactly when the pattern matches at no position, and then it returns the text unchanged. |
| `Substitution.SubFromCountZero` | apps/api/app/pii_guard.py:37 | The scan replaces nothing exactly when no match starts at any position it passes. |
| `Substitution.SubFromNoMatch` | apps/api/app/pii_guard.py:37 | A scan that replaces nothing returns the text unchanged. |
| `Substitution.SubFromCopiesGap` | apps/api/app/pii_guard.py:37 | Text before the next match is copied unchanged into the output. |
| `Substitution.SubFromReplacesMatch` | apps/api/app/pii_guard.py:35-37 | A match is replaced by exactly the tag and counted once, and the scan resumes where the match ended. |
| `Substitution.SubFromGapThenMatch` | apps/api/app/pii_guard.py:35-37 | The output is the text up to the next match, then the tag, then the scan after the match, so the text around a match is kept (as in "[휴대전화]인데"). |
| `Regex.Run` | apps/api/app/pii_guard.py:16 | The length of the longest run of class characters from a position; the character after the run is outside the class. |
| `Regex.Ends` | apps/api/app/pii_guard.py:15-21 | The ends of the matches starting at a position, in the order the backtracking engine tries them, all lie between that position and the end of the text. |
| `Regex.MatchAt` | apps/api/app/pii_guard.py:37 | `pattern.match` at a position reports the first end the engine reaches, and that end lies within the text. |
| `Regex.OptTriesBodyFirst` | apps/api/app/pii_guard.py:17 | A greedy `?` first tries its body and matches empty only when the body does not match. |
| `Regex.StarIsGreedy` | apps/api/app/pii_guard.py:16 | A greedy `*` on its own takes the whole run of class characters. |
| `Regex.EndsAtLeastMinLen` | apps/api/app/pii_guard.py:15-21 | Every match of a pattern consumes at least its minimal length. |
| `Regex.EndsAtMostMaxLen` | apps/api/app/pii_guard.py:17-20 | Every match of a pattern without `*` consumes at most its maximal length. |
| `Regex.EndsUseOnly` | apps/api/app/pii_guard.py:15-21 | Every character a match consumes is accepted by some character class of the pattern. |
| `Regex.MatchShape` | apps/api/app/pii_guard.py:15-21 | The match the engine reports lies between the minimal and maximal length of the pattern and consists of characters the pattern accepts. |
| `Regex.DigitFramedBoundaries` | apps/api/app/pii_guard.py:17-20 | A match of a `(?<!\d)…(?!\d)` pattern has no digit immediately before its start or after its end. |
| `Regex.MatchConsumes` | apps/api/app/pii_guard.py:37 | A pattern with a positive minimal length never reports an empty match. |
| `Text.TrimStartShape` | apps/api/app/config.py:17 | Stripping the start keeps a suffix, drops only stripped characters, and the kept part does not start with one. |
| `Text.TrimEndShape` | apps/api/app/config.py:17 | Stripping the end keeps a prefix, drops only stripped characters, and the kept part does not end with one. |
| `Text.StripBy` | apps/api/app/config.py:25 | The result of `strip` neither starts nor ends with a stripped character. |
| `Text.StripBySlice` | apps/api/app/config.py:17 | `strip` keeps one contiguous slice of the text, and everything outside that slice is a stripped character. |
| `Text.StripIdempotent` | apps/api/app/config.py:49 | Stripping twice is stripping once. |
| `Text.Strip` | apps/api/app/config.py:17 | `str.strip()` never lengthens a text, and its result neither starts nor ends with whitespace. |
| `Text.StripAbsent` | apps/api/app/config.py:21-22 | Stripping cannot introduce a character, so a key cut before the first `=` stays free of `=`. |
| `Text.Lower` | backend/app/main.py:137-143 | `str.lower()` keeps the length and leaves no ASCII upper-case letter. |
| `Text.IndexOf` | apps/api/app/config.py:21 | Finds the first occurrence of the character, and finds none exactly when the character does not occur. |
| `Text.IntToString` | backend/app/main.py:163-172 | `str(n)` is a non-empty string of digits with a leading `-` exactly when n is negative. |
| `Text.ParseInt` | apps/api/app/config.py:54 | `int(s)` succeeds exactly when the stripped text is a numeral: digits after at most one leading sign, ending in a digit. |
| `Text.ParseIntOfIntToString` | apps/api/app/config.py:54 | `int(str(n)) == n` for every integer n. |
| `Text.ParseIntRejectsLetters` | apps/api/app/config.py:53-56 | A stripped text holding a character that is neither a digit nor a sign does not parse. |
| `Config.LineValue` | apps/api/app/config.py:17-25 | One line yields a value exactly when, once stripped, it is not blank, not a comment, holds `=`, and its stripped key before the first `=` is the one sought; the value is the raw text after that `=`. |
| `Config.Entry` | apps/api/app/config.py:17-21 | A line yields no entry exactly when, once stripped, it is blank, starts with `#` or holds no `=`. An entry's key has no `=` and no surrounding whitespace, and the stripped line ends with `=` followed by the value. |
| `Config.CommentLineSkipped` | apps/api/app/config.py:17-19 | A line that starts with `#` once stripped gives no entry, so it never supplies a value for any key. |
| `Config.ReadEnvFileValue` | apps/api/app/config.py:11-29 | The scan returns what `EnvFileValue` describes: "" for a missing or unreadable file or when no line has the key, and otherwise the cleaned value of the first line with the key. |
| `Config.EnvFileValue` | apps/api/app/config.py:11-29 | "" for a missing or unreadable file and when no line has the key; otherwise the cleaned value of the first line that has it. |
| `Config.FirstValueSkip` | apps/api/app/config.py:22-23 | A line without the key passes the search on to the next line. |
| `Config.FirstValue` | apps/api/app/config.py:16-25 | A value found is the value of some line that has the key. |
| `Config.FirstValueNone` | apps/api/app/config.py:16-29 | There is no value exactly when no line has the key. |
| `Config.FirstValueAt` | apps/api/app/config.py:21-25 | The first line that has the key gives the value. |
| `Config.FirstMatchWins` | apps/api/app/config.py:21-25 | Once a line has the key, the lines after it do not change the result. |
| `Config.SplitAtFirstEquals` | apps/api/app/config.py:21 | A line `k=v` splits at the first `=`, so a value holding `=` is kept whole, and the key is compared stripped. |
| `Config.IndexOfFirst` | apps/api/app/config.py:21 | In `k + "=" + v` with no `=` in k, the first `=` is the one after k. |
| `Config.StripWrapped` | apps/api/app/config.py:25 | `strip(c)` removes one c at each end of a text whose own ends are not c. |
| `Config.CleanDoubleQuoted` | apps/api/app/config.py:25 | `"v"` yields v. |
| `Config.CleanSingleQuoted` | apps/api/app/config.py:25 | `'v'` yields v. |
| `Config.CleanSingleInsideDouble` | apps/api/app/config.py:25 | Double quotes are stripped before single ones, so `"'v'"` yields v. |
| `Config.CleanDoubleInsideSingle` | apps/api/app/config.py:25 | In the other nesting, `'"v"'` keeps its double quotes. |
| `Config.CleanValue` | apps/api/app/config.py:25 | The cleaned value is never longer than the raw value and neither starts nor ends with a single quote. |
| `Config.GetEnv` | apps/api/app/config.py:41 | `os.getenv(name, fallback)`: the variable when it is set, the fallback otherwise. |
| `Config.ResolveInt` | apps/api/app/config.py:48-58 | The default when the variable is blank or does not parse; otherwise `max(1, parsed)`, which is at least 1. |
| `Config.ResolveIntOfNumeral` | apps/api/app/config.py:53-58 | A variable holding the numeral of n resolves to `max(1, n)`. |
| `Config.TimeoutAtLeastOne` | apps/api/app/config.py:74 | The request timeout is at least one second. |
| `Config.ResolveLlmMode` | apps/api/app/config.py:61-69 | The mode is always "live" or "stub". It is "stub" exactly when the environment value (or, if that is blank, the file value), stripped and lower-cased, is "stub". |
| `Config.ModeEnvWins` | apps/api/app/config.py:62-64 | A non-blank mode in the environment decides alone; the file is not consulted. |
| `Config.ResolveGeminiApiKey` | apps/api/app/config.py:40-45 | A non-blank environment key wins, stripped; otherwise the file's value. |
| `Config.ResolveModel` | apps/api/app/config.py:73 | The stripped `GEMINI_MODEL`, or "gemini-2.5-flash" when it is unset or blank; never empty. |
| `Config.DefaultModelStripped` | apps/api/app/config.py:73 | The default model name has no surrounding whitespace. |
| `Config.GetSettings` | apps/api/app/config.py:72-81 | The settings always have mode "live" or "stub", a timeout of at least 1 and a non-empty model name. |

## Left out

- `backend/app/llm_client.py` is not part of this model. The Gemini client, its timeouts, caching and error translation are replaced by the `generate` parameter. Its two failures (`LLMNotConfiguredError`, `LLMRequestError`) are the `LlmError` values.
- The FastAPI application, the CORS middleware, `LOCAL_ORIGIN_REGEX`, the `/health` route and pydantic request validation are framework configuration. In particular, the 1–1000 character bound on `content` is not enforced: the model accepts any content.
- Logging (`log_event`, `json.dumps`), `perf_counter` durations and `uuid4` request ids are side effects with no behaviour. `fallback_used` and `guardrail_triggered`, which the source only logs, are returned by the endpoint methods so that their values can be stated.
- The `date` of an insight entry is carried but never used, as in the source.
- Reading the environment and the file is left out: both are passed in as values. A `.env` file that is not valid UTF-8 makes `read_text` raise `UnicodeDecodeError`, which the source does not catch. The model has no such case. The file is given already split into lines, so the exact set of line separators `splitlines` recognises is not modelled.
- `Text.Lower` maps only ASCII upper-case letters, while Python's `str.lower` also lower-cases other scripts (and can change the length). Every crisis keyword and medical-risk pattern consists of Hangul and spaces, which lower-casing does not produce or change.
- `Text.ParseInt` accepts an optional sign and ASCII digits with surrounding whitespace. Python's `int` also accepts `_` between digits and non-ASCII decimal digits, and those inputs resolve to the default here. The model also has no digit limit. Python 3.11 and later, and the 3.8.14, 3.9.14 and 3.10.7 releases, raise `ValueError` on a numeral of more than 4300 digits (`sys.int_max_str_digits`). No Python version is pinned, so the limit depends on the interpreter.
- `Text.ParseIntOfIntToString` holds for every integer only without that limit. Under the limit, `str(n)` and `int(...)` raise for integers of more than 4300 digits.
- `Config.ResolveIntOfNumeral` gives `max(1, n)` for a numeral of any length. Under the limit, `_resolve_int` returns the default for a numeral of more than 4300 digits.
- `Regex.IsWordChar` approximates `\w` by ASCII letters, digits, `_` and Hangul, and `\d` is the ASCII digits. Python's `\w` and `\d` in `str` patterns cover all Unicode letters and digits. This affects the email pattern's `\b` and the digit lookarounds next to non-ASCII letters and digits.
