# AI expense tracker: verified model of its core

The program is a single-page expense tracker. A user types a sentence such as
"I spent $50 on groceries". The program asks a language model (OpenAI or
Gemini) to turn it into a transaction. When that call fails, a keyword-and-regex
fallback does the job. The transaction is stored, the ledger is listed, and a
running total is shown.

This project models four parts of that program:

- `Ai` (`ai.dfy`): `parseTransactionWithAI`. The provider's answer is an
  input. The fallback parser is modelled in full:
  - the amount regex `\$?(\d+(\.\d{1,2})?)` as a left-to-right scan, then
    `parseFloat` of the captured group;
  - the income keywords;
  - the first category, in list order, found in the lowercased text.
- `JsString` (`js_string.dfy`): the string built-ins the code relies on.
  These are `\d`, the ASCII part of `toLowerCase`, `includes`, and `trim`
  with the ECMAScript whitespace set.
- `TransactionList` (`transaction_list.dfy`): the ledger view. It covers the
  `reduce` total, the balance colour and figure, and one row per transaction.
- `Chat` (`chat_interface.dfy`) and `AppState` (`app.dfy`): the two stateful
  components, as classes whose fields are the React state variables.
  - `ChatInterface` splits `handleSubmit` at its `await` into `BeginSubmit`
    and `FinishSubmit`, and `HandleSubmit` composes them with the extractor.
  - `App` has one method per effect callback or handler, plus `View` for
    what is rendered.
  - Every backend or auth call appears as its outcome, passed in as a
    parameter.

Shared data (`Types`, `types.dfy`) follows `src/types/index.ts`. Amounts are
integers in cents: `$12.34` is `1234`.

Some facts the proofs make precise:

- The fallback amount is 0 whenever the text has no digit, but not only then.
  "0", "00.00" and "$0.0" also give 0. `AmountZeroIff` states the exact
  condition: every digit the regex captures is `0`.
- The amount is always non-negative, since the regex skips a minus sign
  (`MinusSignDropped`). The ledger total adds stored amounts whatever their
  `type`. So a fallback expense stored as returned raises the balance.
  `ExpenseRaisesTotal` and `PositiveExpenseShowsGreen` state this.
- A third decimal is cut off, not rounded (`ThirdDecimalDropped`).
- When several category words occur, the list order decides, not the text
  order (`ListOrderWins`).

## Model

| member | source | states |
|---|---|---|
| Ai.ParseTransaction | src/lib/ai.ts:32-56 | the result comes from the fallback exactly when the provider call failed; otherwise it is the provider's own object; the fallback result depends on the text alone, not on the settings |
| Ai.FallbackAmount | src/lib/ai.ts:56 | the amount in cents: `parseFloat` of the regex's group 1, or of '0' when the text does not match; `FallbackAmountIsReference` and the lemmas below state what it is |
| Ai.IsIncome | src/lib/ai.ts:57-59 | the three `includes` tests on the lowercased text, or-ed; `IsIncomeIff` states what it decides |
| Ai.IsIncomeIff | src/lib/ai.ts:57-59 | the keyword test holds exactly when "earned", "received" or "salary" occurs at some position of the text |
| Ai.FindLabel | src/lib/ai.ts:62 | `find` over the labels in list order with `includes` as the test; `FindLabelIsFirst` states what it yields |
| Ai.FallbackCategory | src/lib/ai.ts:61-62 | the found label, or "other" when `find` yields nothing; `FallbackCategoryIsFirstLabel` states what it is |
| Ai.MatchAt | src/lib/ai.ts:56 | the pattern tried at one position: a match starts its group on a digit, either at that position or right after a `$` there, and the group is the digit run with its optional decimals |
| Ai.AmountText | src/lib/ai.ts:56 | group 1 of the first match, or the default "0" when the text does not match; `CaptureIsLiteral` states that it is always a number literal |
| Ai.CaptureIsLiteral | src/lib/ai.ts:56 | whatever the pattern captures, and the '0' default, is digits optionally followed by `.` and one or two digits |
| Ai.ParseFloatCents | src/lib/ai.ts:56 | `parseFloat` of such a literal, in cents: the whole cents are the digits before the point, and a literal without a point has no cents |
| Ai.Fallback | src/lib/ai.ts:64-69 | the fallback's description is the original text, untrimmed and not lowercased |
| Ai.FindLabelIsFirst | src/lib/ai.ts:62 | `find` yields nothing exactly when no label occurs in the text, and otherwise yields the first label in list order that occurs |
| Ai.FallbackCategoryIsFirstLabel | src/lib/ai.ts:61-62 | the category is one of the six labels or "other"; it is "other" exactly when no label occurs in the lowercased text, and otherwise the first one in list order |
| Ai.FallbackIncomeIff | src/lib/ai.ts:57-59 | the type is income exactly when "earned", "received" or "salary" occurs in the lowercased text |
| Ai.FirstMatch | src/lib/ai.ts:56 | the leftmost match of the amount pattern starts its group on a digit, inside the text |
| Ai.FirstMatchIsFirstDigit | src/lib/ai.ts:56 | the leftmost match captures from the first ASCII digit of the text: its maximal digit run, plus a `.` and one or two decimals when they follow; a `$` before the digit is not captured |
| Ai.FallbackAmountIsReference | src/lib/ai.ts:56 | `parseFloat` of the captured group, or of '0' without a match, equals the amount read directly off the first digit run (in cents) |
| Ai.NoDigitNoAmount | src/lib/ai.ts:56 | a text without a digit takes the '0' default, and the amount is 0 |
| Ai.AmountZeroIff | src/lib/ai.ts:56 | the amount is 0 exactly when every digit of the captured group is '0' |
| Ai.ZeroDigitGivesZero | src/lib/ai.ts:56 | a text that does hold a digit can still give amount 0 ("0") |
| Ai.NonDigitPrefixIgnored | src/lib/ai.ts:56 | words before the first digit do not change the amount |
| Ai.ThirdDecimalDropped | src/lib/ai.ts:56 | "12.345" gives 12.34: the pattern takes at most two decimals, and the third is dropped, not rounded |
| Ai.FirstDigit | src/lib/ai.ts:56 | the first ASCII digit at or after a position, or the text's length when there is none |
| Ai.RunEnd | src/lib/ai.ts:56 | `\d+` is greedy: the run ends at the first non-digit |
| Ai.FractionCents | src/lib/ai.ts:56 | the decimals contribute fewer than 100 cents |
| JsString.Includes | src/lib/ai.ts:57-62 | `includes`: try each start position from the left; `IncludesIff` states what it decides |
| JsString.ToLower | src/lib/ai.ts:57-62 | the ASCII part of `toLowerCase`: same length, no ASCII capital left, every other character kept; `ToLowerMapsCapitals` states where each capital goes |
| JsString.ToLowerMapsCapitals | src/lib/ai.ts:57-62 | each ASCII capital becomes its own small letter, position by position |
| JsString.Trim | src/components/ChatInterface.tsx:19 | `trim`: the result is no longer than the input and neither starts nor ends with whitespace; `TrimIsMiddle` states which piece of the input it is |
| JsString.TrimIsMiddle | src/components/ChatInterface.tsx:19 | `trim` returns the input without its leading and trailing whitespace: a piece of the input preceded and followed only by whitespace |
| JsString.IncludesIff | src/lib/ai.ts:57-62 | `includes` is true exactly when the word occurs at some position |
| JsString.TrimStart | src/components/ChatInterface.tsx:19 | the leading part `trim` drops is all whitespace, and what remains starts with a non-whitespace character |
| JsString.TrimEnd | src/components/ChatInterface.tsx:19 | the trailing part `trim` drops is all whitespace, and what remains ends with a non-whitespace character |
| JsString.TrimBlankIff | src/components/ChatInterface.tsx:19 | `!message.trim()` holds exactly for messages made only of whitespace |
| JsString.DigitValue | src/lib/ai.ts:56 | a digit's value is its position in "0123456789": below ten, and 0 only for '0' |
| AiExamples.SpentOnGroceries | src/lib/ai.ts:56-69 | "I spent $50 on groceries" falls back to 50.00, "groceries", expense |
| AiExamples.EarnedSalary | src/lib/ai.ts:56-69 | "I earned 1200 salary this month" falls back to 1200.00, "salary", income |
| AiExamples.BoughtLunch | src/lib/ai.ts:56-69 | "bought lunch" falls back to 0, "other", expense |
| AiExamples.ListOrderWins | src/lib/ai.ts:61-62 | in "food and rent" the category is "rent", which comes first in the list, although "food" comes first in the text |
| AiExamples.UpperCaseKeyword | src/lib/ai.ts:57-59 | "SALARY" is income: the keyword test lowercases first |
| AiExamples.MinusSignDropped | src/lib/ai.ts:56 | "-5" gives 5.00: the pattern has no sign |
| TransactionList.Total | src/components/TransactionList.tsx:11 | the `reduce` from 0, adding the amounts from the first row to the last; `TotalIsSum` and the lemmas below state what it is |
| TransactionList.TotalIsSum | src/components/TransactionList.tsx:11 | the `reduce` total is the sum of the stored amounts, and 0 for an empty list |
| TransactionList.TotalAppend | src/components/TransactionList.tsx:11 | the total of two lists joined is the sum of their totals |
| TransactionList.TotalPrepend | src/components/TransactionList.tsx:11 | putting a row in front moves the total by exactly that row's amount |
| TransactionList.TotalPermutation | src/components/TransactionList.tsx:11 | reordering the list does not change the total |
| TransactionList.TotalReadsOnlyAmounts | src/components/TransactionList.tsx:11 | the total reads the amounts only: `type` does not enter it |
| TransactionList.ExpenseRaisesTotal | src/components/TransactionList.tsx:11 | an expense stored with a positive amount raises the total |
| TransactionList.BalanceOf | src/components/TransactionList.tsx:20-21 | the balance's colour class and its `Math.abs` figure; `BalanceShowsTotal` states that they give back the total |
| TransactionList.BalanceShowsTotal | src/components/TransactionList.tsx:20-21 | the balance's colour and absolute figure give back the total; green exactly when the total is not negative |
| TransactionList.RowOf | src/components/TransactionList.tsx:33-51 | one row: category, description, colour and arrow by `type`, `Math.abs` of the amount; `RowIgnoresSign` and `RowStyleByKind` state its properties |
| TransactionList.Rows | src/components/TransactionList.tsx:27-58 | one row per transaction, in list order |
| TransactionList.RowIgnoresSign | src/components/TransactionList.tsx:33-51 | a row shows `Math.abs(amount)` and never the amount's sign |
| TransactionList.RowStyleByKind | src/components/TransactionList.tsx:33-50 | a row's colour and arrow depend on `type` alone |
| TransactionList.PositiveExpenseShowsGreen | src/components/TransactionList.tsx:11-51 | a single expense of 50.00 gives a red row and a green balance of 50.00 |
| Chat.SubmitRejected | src/components/ChatInterface.tsx:19 | the early-return condition of the submit handler; `SubmitAcceptedIff` states when it lets a submit through |
| Chat.SubmitAcceptedIff | src/components/ChatInterface.tsx:19 | a submit goes ahead exactly when the message has a non-whitespace character, nothing is in flight and a key is set |
| Chat.ChatInterface.constructor | src/components/ChatInterface.tsx:12-15 | empty message, not processing, OpenAI, empty key |
| Chat.ChatInterface.SendDisabled | src/components/ChatInterface.tsx:66 | when the send button is disabled, the guard rejects as well |
| Chat.ChatInterface.InputDisabled | src/components/ChatInterface.tsx:62 | the text input is disabled while a submit is in flight |
| Chat.ChatInterface.EditMessage | src/components/ChatInterface.tsx:59-62 | typing replaces the message unless the input is disabled; nothing else changes |
| Chat.ChatInterface.SetModel | src/components/ChatInterface.tsx:50 | the model changes and the key is kept |
| Chat.ChatInterface.SetApiKey | src/components/ChatInterface.tsx:51 | the key changes and the model is kept |
| Chat.ChatInterface.BeginSubmit | src/components/ChatInterface.tsx:19-31 | a rejected submit changes nothing; an accepted one raises the flag and sends the untrimmed message with the current model and key |
| Chat.ChatInterface.FinishSubmit | src/components/ChatInterface.tsx:32-40 | a resolved extraction is handed on once and the message cleared; a rejection keeps the message; the flag is released either way |
| Chat.ChatInterface.HandleSubmit | src/components/ChatInterface.tsx:17-41 | a rejected submit changes nothing; an accepted one hands on the extractor's result for the untrimmed message, clears the message and releases the flag |
| AppState.App.constructor | src/App.tsx:10-12 | empty list, no session, loading |
| AppState.App.View | src/App.tsx:108-198 | the loading screen exactly while loading, then the login form exactly when there is no session, otherwise the ledger of the current list |
| AppState.App.SessionChecked | src/App.tsx:17-20 | the session check sets the session and ends loading, leaving the list; the screen becomes the login form or the ledger |
| AppState.App.AuthStateChanged | src/App.tsx:24-26 | an auth notification sets the session and nothing else: the list stays even when the session is a different one |
| AppState.App.SessionChanged | src/App.tsx:24-26 | the notification as the ledger needs it: a change of session also empties the list, and a notification of the same session keeps it |
| AppState.App.FetchTransactions | src/App.tsx:31-49 | with a session, a successful fetch replaces the list by its rows, or by [] when the data is null; an error or no session leaves the list |
| AppState.App.SignIn | src/App.tsx:65-77 | signing in changes no state directly |
| AppState.App.SignUp | src/App.tsx:51-63 | signing up changes no state directly |
| AppState.App.SignOut | src/App.tsx:79-86 | a successful sign-out empties the list and a failed one keeps it; the session is left to the notification |
| AppState.App.AddTransaction | src/App.tsx:88-106 | a successful insert puts the stored row in front of the list, keeps the earlier rows in order, and moves the total by the row's amount; a failed insert changes nothing |
| AppState.SendMessage | src/App.tsx:88-102 | only under the ledger view; a rejected submit changes nothing; an accepted one clears the message whether or not the insert succeeds, keeps model and key, and only a successful insert grows the list; session and loading flag are kept |
| AppState.SignOutAndBackIn | src/App.tsx:24-49 | after signing out and back in, the list holds exactly the new session's fetched rows, or nothing when the fetch failed or returned no data; the chat is a new one in its initial state, as the remount at src/App.tsx:197 gives |
| AppState.StaleRowsAfterSessionSwitch | src/App.tsx:24-48 | a session that ends without `handleSignOut`, then another user's session whose fetch fails: the list still holds the first user's rows |
| AppState.NoStaleRowsAfterSessionSwitch | src/App.tsx:24-48 | with the list dropped on every change of session, the second user's ledger holds only rows fetched for them, whatever the fetch returns |

## Findings

| source | as written | input that shows it | evidently intended | confidence | as-written member | corrected member |
|---|---|---|---|---|---|---|
| src/App.tsx:24-26 | an auth notification only replaces the session; the list is cleared by `handleSignOut` alone, and a failed fetch keeps whatever was there | user A signed in with rows; A's session ends without `handleSignOut` (expiry, sign-out in another tab); user B signs in; B's fetch fails: B's ledger shows A's rows (and, until B's fetch resolves, it does so even when the fetch succeeds) | the list belongs to one session and is dropped when the session changes | medium, not executed | AppState.StaleRowsAfterSessionSwitch | AppState.NoStaleRowsAfterSessionSwitch |

`AppState.App.AuthStateChanged` keeps the behaviour as written; `AppState.App.SessionChanged` is the corrected callback, used by `AppState.NoStaleRowsAfterSessionSwitch`.

## Left out

- The provider calls, the prompt text, the client libraries and `JSON.parse` are left out. Their combined outcome is the `reply` parameter of `Ai.ParseTransaction`. The provider's object is not validated by the program, and it is not modelled beyond being passed on.
- The OpenAI branch's `content || '{}'` case is left out: it resolves to an empty object, which the model treats like any other provider object.
- `console.error` and the toasts are left out. ChatInterface.tsx uses `toast` without importing it (lines 21 and 37). The state effects of those paths are the same either way: the guard returns, and the `finally` still releases the flag.
- Supabase queries, the insert, sign-in, sign-up and sign-out are left out as calls. Each is an outcome parameter.
- The email and password form fields, and the `Settings` panel's own open/closed state, are left out: they are UI only.
- `AppState.App.FetchTransactions` and `AppState.App.AddTransaction` run one at a time here. React's asynchronous interleavings are not modelled, and neither is the stale `transactions` closure in `handleTransactionAdd` (two inserts in flight can lose a row).
- The subscription's `unsubscribe` on unmount is left out.
- Floating point is left out. Amounts are exact cents; the fallback never produces more than two decimals, and `toFixed(2)` becomes the cents value. Amounts that come from the provider's JSON or from stored rows can carry sub-cent parts (12.345, say), and the program's total and rows then carry them too: a total of -0.004 shows a red "$0.00". Integer cents cannot represent these amounts, so the model does not cover them.
- Date formatting of `created_at` in the row view is left out.
- `JsString.ToLower` models only the ASCII part of `toLowerCase`; non-ASCII characters are kept as they are. Some non-ASCII capitals do lowercase to ASCII: U+212A KELVIN SIGN becomes `k`, and U+0130 becomes `i` followed by U+0307. This changes no keyword or label test: no keyword or label contains `k`, and wherever one contains `i` the next character is an ASCII letter, never U+0307, so the two-character result of U+0130 cannot complete a match.
- `Chat.ChatInterface` is modelled as an object of its own, but in the program it exists only while the ledger is shown (src/App.tsx:197). The loading screen and the login form (src/App.tsx:108-173) unmount it, and a later mount starts again from the initial values at src/components/ChatInterface.tsx:12-15. `AppState.SendMessage` requires the ledger view, and `AppState.SignOutAndBackIn` returns a new chat to stand for the remount. The state updates of a submit that is still in flight when the chat unmounts are discarded by React; the model does not represent that case.
- `Ai.ParseTransaction` does not model rejection, because the program's extractor never rejects. `Chat.ChatInterface.FinishSubmit` still takes a rejected outcome, to state the `catch` path of the submit handler.
