# Resume chat assistant: the session state machine

This project models the `/chat` handler of a small resume assistant (`app.py`).
Each visitor has a session record, kept in a dictionary keyed by session id.
Every message is stripped of surrounding whitespace and then handled
according to the record's step in a fixed onboarding sequence. A rejected
email or phone leaves the step where it is, and declining the phone at step 3
jumps straight to step 5:

- step 0: greeting;
- step 1: the visitor's name;
- step 2: email, checked by a regular expression, re-asked until accepted;
- step 3: a yes/no opt-in for a phone number;
- step 4: the phone number, checked by a regular expression, re-asked until accepted.

From step 5 on, questions are open. Those naming "resume", "skill",
"experience" or "project" are answered from a fixed profile by a keyword
router. Everything else goes to a text generator. At most two generator calls
are made per session, and the count is raised before the call, so a call that
raises still uses quota. A spent quota yields a fixed reply with contact
details.

The modules follow the handler's parts:

- `Wrappers`: `Option`.
- `Text`: Python's `str.strip`, `str.lower`, the `in` substring test and
  `str.join`, as used by the handler.
- `Regex`: the regular-expression features the two validators use (literal,
  `\d`, negated class, `?`, `+`, `{m,n}`, concatenation), as an AST with
  `re.fullmatch` semantics. Matching is a backtracking search over split points.
- `Validators`: `is_valid_phone` and `is_valid_email` as those patterns. Each
  is proved equal to a plain description of the strings it accepts.
- `Resume`: the `RESUME_DATA` profile, the topic replies and the keyword
  router with its precedence.
- `Conversation`: the session record as a value, the replies as a datatype
  `Reply` with the exact reply texts, and `Respond`, one handler call as a
  function of the record, the stripped text and the generator. The lemmas
  cover each step and the invariants.
- `Dialogue`: whole conversations (`Run` over a message sequence) and what
  holds over them: validity, monotone step and count, at most two generator
  calls, and the finality of a spent quota.
- `Scenarios`: concrete onboarding runs derived from the definitions.
- `Sessions`: the imperative layer as the source has it. `Session` is a
  mutable record whose fields the handler assigns branch by branch. `Store` is
  the `user_sessions` dictionary of sessions, with `setdefault` and the chat
  handler. `Handle`, `Onboard`, `AnswerQuestion`, `HandleAt` and `Chat` are
  proved against `Conversation.Respond`. `GetOrCreate` and the `Session`
  constructor are proved against the initial record `Conversation.Fresh`.
  The `Store` constructor starts with no sessions.

The text generator is a parameter `generate: string -> Option<string>`:

- `None` stands for the call raising an exception;
- `Some(t)` stands for a response whose text is `t`.

A turn also records the prompt it sent (`Turn.asked`), so generator calls can
be counted.

## Model

| member | source | states |
|---|---|---|
| Text.Strip | app.py:65 | the stripped text is empty or starts and ends with a non-whitespace character |
| Text.StripIsSlice | app.py:65 | the stripped text is a contiguous slice of the input, with only whitespace cut on either side |
| Text.StripIdempotent | app.py:65 | stripping twice is stripping once, so an already stripped text is passed through unchanged |
| Text.TrimStartSpec | app.py:65 | leading trim removes exactly a whitespace prefix and stops at the first non-whitespace character |
| Text.TrimEndSpec | app.py:65 | trailing trim removes exactly a whitespace suffix and stops at the last non-whitespace character |
| Text.LowerIsYes | app.py:86 | `text.lower() == "yes"` holds exactly for the eight case variants of "yes" |
| Text.ContainsIff | app.py:104-113 | the substring test `kw in s` holds iff `kw` occurs at some index of `s` |
| Text.JoinContainsEach | app.py:106 | every item occurs in the `", ".join` of the list |
| Text.PrefixedJoinContainsEach | app.py:106-110 | a reply made of a fixed prefix and a joined list contains every listed item |
| Regex.ConcatIff | app.py:49-51 | a concatenation matches iff the text splits into a match of each part |
| Regex.PlusIff | app.py:51 | `r+` matches iff the text is one match of `r` or a match of `r` followed by a match of `r+` |
| Regex.RepeatIff | app.py:49 | `r{lo,hi}` unfolds into one occurrence of `r` followed by `r{lo-1,hi-1}`, or the empty text when `lo` is 0 |
| Regex.PlusOfClass | app.py:51 | a character class under `+` matches exactly the non-empty texts all of whose characters the class accepts |
| Regex.RepeatOfClass | app.py:49 | a character class under `{lo,hi}` matches exactly the texts of length `lo` to `hi` all of whose characters the class accepts |
| Regex.LitThen | app.py:49-51 | a literal followed by `r` matches iff the text starts with that character and the rest matches `r` |
| Validators.PhoneIff | app.py:48-49 | `is_valid_phone` accepts exactly an optional `+` followed by 10 to 14 ASCII digits |
| Validators.DomainIff | app.py:51 | the part after `@` matches iff it has no `@`, space, tab, CR or LF and contains a `.` that is neither first nor last |
| Validators.EmailIff | app.py:50-51 | `is_valid_email` accepts exactly: a non-empty local part, `@`, and that domain, with no `@`, space, tab, CR or LF anywhere else |
| Validators.NoAtIsInvalid | app.py:50-51 | a text without `@` is never a valid email |
| Resume.RouteChoice | app.py:104-116 | the router answers iff one of resume/skill/experience/project occurs. It picks skill, then experience, then project, then email, then phone, then clarification. Email and phone are reached only when "resume" is present and none of skill/experience/project is. |
| Resume.SkillsReplyListsEverySkill | app.py:105-106 | the skills reply contains every skill of the profile |
| Resume.ProjectsReplyListsEveryProject | app.py:109-110 | the projects reply contains every project of the profile |
| Conversation.GreetingAndName | app.py:67-74 | step 0 greets whatever the text and moves to 1. Step 1 stores the text as the name and moves to 2. |
| Conversation.EmailStep | app.py:76-82 | at step 2 a text of the accepted email shape is stored and the step becomes 3. Any other text leaves the record unchanged with the invalid-email reply. The generator is never called. |
| Conversation.PhoneOptInStep | app.py:85-93 | at step 3 exactly the case variants of "yes" set the opt-in and move to 4. Anything else clears it and moves to 5. |
| Conversation.PhoneStep | app.py:95-101 | at step 4 a text of the accepted phone shape is stored and the step becomes 5. Any other text leaves the record unchanged with the invalid-phone reply. |
| Conversation.QuestionStep | app.py:103-128 | from step 5, a routed question changes nothing. Otherwise a spent quota (count at least 2) changes nothing. Otherwise the count rises by one and the prompt is sent, whether the generator answers (reply: its stripped text) or raises (reply: the error text). |
| Conversation.RespondKeepsValid | app.py:56-130 | one turn keeps step in 0..5 and count in 0..2, never lowers the step, never leaves step 5, and calls the generator exactly when the count rises by one |
| Conversation.NotUnderstoodOnlyForNegativeStep | app.py:130 | the fallback reply is given exactly when the step is negative, so never on a record reachable from a new session |
| Dialogue.RunKeepsValid | app.py:56-130 | over any sequence of messages the record stays valid, step and count never decrease, and the count equals the generator calls made |
| Dialogue.AtMostTwoCalls | app.py:118-125 | a session makes at most two generator calls over its whole life |
| Dialogue.SpentQuotaIsFinal | app.py:103-121 | once step 5 is reached with the count at 2, no message changes the record or calls the generator. Every reply is a router answer or the quota reply. |
| Scenarios.GreetingThen | app.py:67-69 | on a step-0 record any first message is answered with the greeting, then the conversation continues from step 1 |
| Scenarios.NameThen | app.py:65-74 | on a step-1 record any name, once stripped, is stored and thanked, then the conversation continues from step 2 |
| Scenarios.EmailAcceptedThen | app.py:65-80 | on a step-2 record an email accepted once stripped is stored stripped and the phone opt-in is asked, then the conversation continues from step 3 |
| Scenarios.OptOutThen | app.py:65-93 | on a step-3 record an answer whose stripped, lower-cased form is not "yes" opens the questions without a phone, then the conversation continues from step 5 |
| Scenarios.OnboardingWithoutPhone | app.py:56-93 | on a new session, any greeting, any name, an email accepted once stripped and an answer other than "yes" give exactly the four expected replies, end at step 5 with the stripped name and email stored, and make no generator call |
| Scenarios.JaneOnboarding | app.py:56-93 | the concrete run "hi", "Jane", "jane@x.com", "no" gives those replies and record |
| Sessions.Session.constructor | app.py:56-63 | a new session holds the initial record |
| Sessions.Session.Handle | app.py:67-130 | updating the fields in place leaves them equal to the next record of `Respond`, and the reply is the text of its reply |
| Sessions.Session.Onboard | app.py:67-101 | steps 0 to 4 in place, as `Respond` |
| Sessions.Session.AnswerQuestion | app.py:103-128 | step 5 onwards in place, with the count raised before the generator call, as `Respond` |
| Sessions.Store.constructor | app.py:41 | the store starts empty and valid |
| Sessions.Store.GetOrCreate | app.py:56-63 | `setdefault`: an existing session object is returned unchanged, and an unknown id gets a fresh session with the initial record |
| Sessions.Store.Chat | app.py:54-130 | one request: the id's session (existing or new) ends at `Respond` of its old record and the stripped text, with the reply text to match. A session created for an unknown id is freshly allocated, so later requests can update it. Every other session keeps its object and its record, and the store stays valid. |
| Sessions.SuccessiveRequests | app.py:41-74 | successive requests on one store: "hi" then "Jane" on session "a" get the greeting and the thanks for the name, "hi" on a new session "b" gets the greeting, and "a" still holds step 2 with the name "Jane" afterwards |
| Sessions.Store.HandleAt | app.py:65-130 | handling a message on one stored session changes that session's record only |
| Sessions.Store.OthersUnchanged | app.py:41 | no two ids share a session object, so changing one session leaves every other record as it was |

## Left out

- HTTP wiring is not modelled: FastAPI routing, CORS middleware, `.env` loading and the request body model. A request is a session id, a text and the generator.
- Generator configuration is not modelled: the API key and the model name. Generated text is an input, the `generate` parameter. The prompt that is sent is modelled exactly.
- Concurrent requests on the same session are not modelled. Each request runs to completion before the next.
- Character handling is ASCII only:
  - `strip` removes ASCII whitespace: code points 9 to 13, 28 to 31 and 32.
  - `lower` maps `A`-`Z` only, so a non-ASCII character that Python lowercases into a keyword letter (such as the Kelvin sign into `k`) is not covered.
  - `\d` is `0`-`9`.
- Regex.Matches: models which strings each pattern accepts, not how Python's `re` engine searches for them.
- The keyword router opens only on resume/skill/experience/project. The email and phone replies are reached only when "resume" is present and none of skill/experience/project is. The quota cap is the constant 2. These are the handler's behaviour, modelled as written.
