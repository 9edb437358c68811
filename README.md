# Local chat responder of the portfolio site

The repository's only decision logic is the local responder
`generateLocalResponse` in src/lib/chatbot.ts. The chat widget's client code
(MohanBot) sends messages to `/api/chat` and does not call it. The responder
lower-cases the visitor's message and tests a fixed, ordered chain of trigger words: `project`,
then `award`, then `skill` or `tech`, then `experience`, then `education`. It
returns the canned reply of the first category whose trigger occurs, or the
default reply when none does. The replies come from the constant table
`chatbotResponses`.

This project models that responder in Dafny and proves its behaviour.

- `strings.dfy` (module `Strings`) holds the two string operations the responder
  relies on:
  - lower-casing, `LowerChar` and `Lower`, for ASCII letters only;
  - substring search. `Includes` is a left-to-right scan, the way `includes`
    searches. `Contains` is the reference meaning: "some index `i` at which the
    needle is a prefix of `s[i..]`".
- `chatbot.dfy` (module `Chatbot`) holds the rest:
  - the `Category` type with its six keys;
  - the reply table `Reply`, holding the six literal strings;
  - the dispatch `Classify`;
  - `GenerateLocalResponse(m) = Reply(Classify(m))`;
  - the lemmas that characterise the dispatch.

The responder is a pure function, so it is deterministic by construction. Every
call with the same message returns the same reply, and no lemma is needed for
that.

## Model

| member | source | states |
|---|---|---|
| `Strings.LowerChar` | src/lib/chatbot.ts:16 | folding a character leaves no ASCII capital; a capital becomes the small letter 32 code points above it; any other character is unchanged |
| `Strings.Lower` | src/lib/chatbot.ts:16 | the folded message has the same length, is folded character by character, and contains no ASCII capital |
| `Strings.LowerIdempotent` | src/lib/chatbot.ts:16 | folding twice is the same as folding once |
| `Strings.LowerAppend` | src/lib/chatbot.ts:16 | folding distributes over concatenation |
| `Strings.Includes` | src/lib/chatbot.ts:18-27 | the `includes` scan: an empty needle is always found, and a needle longer than the haystack never is; `IncludesIsContains` pins down the rest |
| `Strings.IncludesIsContains` | src/lib/chatbot.ts:18-27 | the `includes` scan answers true exactly when the needle occurs at some position of the haystack |
| `Chatbot.Reply` | src/lib/chatbot.ts:1-13 | the `chatbotResponses` table: each of the six categories has its literal reply, and no reply is empty; `ReplyInjective` adds that the replies are pairwise distinct |
| `Chatbot.ReplyInjective` | src/lib/chatbot.ts:1-13 | every reply in the table is non-empty, and two categories share a reply only if they are the same category |
| `Chatbot.Classify` | src/lib/chatbot.ts:16-30 | the case-folded if/else chain; its category is the first rule of the priority-ordered rule list (category, trigger words) with a word occurring in the folded message, or the default when no rule fires. `ProjectsWhen` … `DefaultWhen` spell out each category's if-and-only-if condition |
| `Chatbot.GenerateLocalResponse` | src/lib/chatbot.ts:15-31 | totality: for every message the result is one of the six table entries, and it is never empty |
| `Chatbot.ResponseNamesCategory` | src/lib/chatbot.ts:15-31 | the response equals the reply of category `c` if and only if the dispatch chose `c` |
| `Chatbot.ProjectsWhen` | src/lib/chatbot.ts:18-19 | the projects category is chosen if and only if the folded message contains "project", whatever else it contains |
| `Chatbot.AwardsWhen` | src/lib/chatbot.ts:20-21 | awards is chosen if and only if the folded message contains "award" and not "project" |
| `Chatbot.SkillsWhen` | src/lib/chatbot.ts:22-23 | skills is chosen if and only if the folded message contains "skill" or "tech", and neither "project" nor "award" |
| `Chatbot.ExperienceWhen` | src/lib/chatbot.ts:24-25 | experience is chosen if and only if the folded message contains "experience" and none of "project", "award", "skill", "tech" |
| `Chatbot.EducationWhen` | src/lib/chatbot.ts:26-27 | education is chosen if and only if the folded message contains "education" and none of the five earlier triggers |
| `Chatbot.DefaultWhen` | src/lib/chatbot.ts:28-29 | the default is chosen if and only if none of the six trigger words occurs in the folded message |
| `Chatbot.CaseInsensitive` | src/lib/chatbot.ts:16 | the category and the response depend only on the lower-cased message: `GenerateLocalResponse(m) == GenerateLocalResponse(Lower(m))` |
| `Chatbot.ProjectAnywhere` | src/lib/chatbot.ts:16-19 | a "project" written in any letter case, anywhere in a message, selects the projects category, whatever surrounds it |
| `Chatbot.ProjectExamples` | src/lib/chatbot.ts:16-19 | "PROJECT", "Project" and "project" all select the projects category |
| `Chatbot.PriorityExample` | src/lib/chatbot.ts:18-21 | "tell me about your project awards" selects projects, not awards, because "project" is tested first |
| `Chatbot.TechExample` | src/lib/chatbot.ts:22-23 | "I'd love to know your tech stack" selects skills through the "tech" trigger |
| `Chatbot.DefaultExamples` | src/lib/chatbot.ts:28-29 | the empty message, "hello" and "12345" select the default category |

## Left out

- `Strings.LowerChar`, `Strings.Lower`: JavaScript's `toLowerCase` applies the full Unicode case mapping. The model folds only ASCII `A`–`Z`, which covers every trigger word. Messages whose non-ASCII characters fold to trigger letters are therefore classified differently. For example, KELVIN SIGN U+212A folds to `k` in JavaScript, so "s\u212Aill" selects skills there but the default in the model.
- JavaScript strings are sequences of UTF-16 code units; the model's `string` is a sequence of Unicode scalar values. The two agree for the ASCII trigger words.
- The chat widget's client code does not call this responder. Its request to `/api/chat`, its fixed apology on a failed request, its guard against empty input or a pending request, and its message-list state are user-interface and I/O glue and are not modelled. The same goes for the contact form, navigation scrolling, the timeline scroll tracking and all rendering.
